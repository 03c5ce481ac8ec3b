/** Interleaved runs against serial ones. A request takes effect at its deciding step: its write
    if it writes, otherwise the store call whose result settled the answer. served lists requests
    in the order of those steps. */
module Reduction {
  import opened TaskTypes
  import opened ResourceVersion
  import opened Strategy
  import opened StoreSpec
  import opened RegistrySpec
  import opened Journal
  import opened Protocol

  /** No write to key has committed since the journal had length since. */
  ghost predicate Undisturbed(log: seq<Entry>, key: Key, since: nat) {
    forall i :: since <= i < |log| ==> log[i].key != key
  }

  /** The private work behind a pending call, and that its snapshot is still what the store holds
      unless another write to the key has committed. */
  ghost predicate SnapshotCurrent(lib: Library, w: World, p: Pending) {
    match p
    case PendingCreate(c, key, d, since) =>
      && since <= |w.log| && c.UpdateCall? && c.force && KeyFromContext(c.namespace, c.name) == Ok(key)
      && DraftUpdate(lib, c, None) == Ok(d)
      && (Undisturbed(w.log, key, since) ==> key !in w.store.items)
    case PendingUpdate(c, view, key, base, d, since) =>
      && since <= |w.log| && c.UpdateCall? && c.view == view && KeyFromContext(c.namespace, c.name) == Ok(key)
      && DraftUpdate(lib, c, Some(base)) == Ok(d)
      && (Undisturbed(w.log, key, since) ==> Lookup(w.store.items, key) == Some(base))
    case PendingDelete(c, key, base, since) =>
      && since <= |w.log| && c.DeleteCall? && KeyFromContext(c.namespace, c.name) == Ok(key)
      && CheckDelete(c, base) == None
      && (Undisturbed(w.log, key, since) ==> Lookup(w.store.items, key) == Some(base))
    case PendingList(_, _, _, _) => true
  }

  ghost predicate Coherent(lib: Library, w: World) {
    && (forall id :: id in w.pending ==> SnapshotCurrent(lib, w, w.pending[id]))
    && w.store.items == Replay(w.log)
  }

  /** The condition of the reduction: no other write to the key committed between the two store
      calls. A create may also find its key free again. An update or delete may come too late and
      find its object gone, which is what it would be told if it ran then; a forced update may
      not, for then it would create. And a delete may remove a later object than it read, if its
      checks accept that one too. */
  ghost predicate FinishesCleanly(w: World, p: Pending) {
    match p
    case PendingCreate(_, key, _, _) => key !in w.store.items
    case PendingUpdate(c, _, key, _, _, since) =>
      Undisturbed(w.log, key, since) || (key !in w.store.items && c.UpdateCall? && !c.force)
    case PendingDelete(c, key, _, since) =>
      || Undisturbed(w.log, key, since) || key !in w.store.items
      || (c.DeleteCall? && CheckDelete(c, w.store.items[key]) == None)
    case PendingList(_, _, _, _) => true
  }

  ghost predicate CleanStep(w: World, a: Action) {
    a.Finish? && a.id in w.pending ==> FinishesCleanly(w, w.pending[a.id])
  }

  ghost predicate CleanRun(lib: Library, acts: seq<Action>) {
    acts == [] || (CleanRun(lib, acts[..|acts| - 1]) && CleanStep(Run(lib, acts[..|acts| - 1]), acts[|acts| - 1]))
  }

  function Calls(served: seq<Served>): seq<Call> {
    seq(|served|, i requires 0 <= i < |served| => served[i].call)
  }

  function Responses(served: seq<Served>): seq<Response> {
    seq(|served|, i requires 0 <= i < |served| => served[i].response)
  }

  /** From w to w', either nothing happened to the store, or one entry was journalled. */
  ghost predicate OneWrite(w: World, w': World) {
    || (w'.log == w.log && w'.store == w.store)
    || (w'.log != [] && Front(w'.log) == w.log && w'.store.items == ReplayEntry(w.store.items, Last(w'.log)))
  }

  /** From w to w', either nobody was answered and nothing was written, or one request was
      answered, exactly as if it had run alone at that moment. */
  ghost predicate OneServed(lib: Library, w: World, w': World) {
    || (w'.served == w.served && w'.store == w.store)
    || (|w'.served| == |w.served| + 1 && w'.served[..|w.served|] == w.served
        && var s := w'.served[|w.served|]; Handle(lib, w.store, s.call) == (w'.store, s.response))
  }

  lemma ApplyWritesOnce(w: World, id: nat, c: Call, v: Verdict)
    ensures OneWrite(w, Apply(w, id, c, v))
  {}

  lemma BeginWritesOnce(lib: Library, w: World, id: nat, c: Call)
    ensures OneWrite(w, BeginCall(lib, w, id, c))
  {
    ApplyWritesOnce(Look(w, c), id, c, Decide(lib, w.store, |w.log|, |w.served|, c));
  }

  lemma FinishWritesOnce(w: World, id: nat)
    requires id in w.pending
    ensures OneWrite(w, FinishCall(w, id))
  {}

  lemma StepWritesOnce(lib: Library, w: World, a: Action)
    ensures OneWrite(w, Step(lib, w, a))
  {
    match a {
      case Begin(id, c) => if id !in w.pending { BeginWritesOnce(lib, w, id, c); }
      case Finish(id) => if id in w.pending { FinishWritesOnce(w, id); }
    }
  }

  lemma SnapshotStaysCurrent(lib: Library, w: World, w': World, p: Pending)
    requires OneWrite(w, w') && SnapshotCurrent(lib, w, p)
    ensures SnapshotCurrent(lib, w', p)
  {
    if w'.log != w.log && !p.PendingList? && Undisturbed(w'.log, p.key, p.since) {
      assert forall i :: 0 <= i < |w.log| ==> w.log[i] == w'.log[i];
      assert w'.log[|w.log|].key != p.key;
    }
  }

  lemma BeginIsSerial(lib: Library, w: World, id: nat, c: Call)
    ensures OneServed(lib, w, BeginCall(lib, w, id, c))
  {}

  lemma FinishIsSerial(lib: Library, w: World, id: nat)
    requires id in w.pending && SnapshotCurrent(lib, w, w.pending[id]) && FinishesCleanly(w, w.pending[id])
    ensures OneServed(lib, w, FinishCall(w, id))
  {}

  lemma BeginStaysCoherent(lib: Library, w: World, id: nat, c: Call)
    requires id !in w.pending && Coherent(lib, w)
    ensures var w' := BeginCall(lib, w, id, c);
            id in w'.pending ==> SnapshotCurrent(lib, w', w'.pending[id])
  {}

  lemma StepStaysCoherent(lib: Library, w: World, a: Action)
    requires Coherent(lib, w)
    ensures Coherent(lib, Step(lib, w, a))
  {
    var w' := Step(lib, w, a);
    StepWritesOnce(lib, w, a);
    forall id | id in w'.pending
      ensures SnapshotCurrent(lib, w', w'.pending[id])
    {
      if id in w.pending {
        PendingOnlyChangesAt(lib, w, a, id);
        SnapshotStaysCurrent(lib, w, w', w.pending[id]);
      } else {
        BeginStaysCoherent(lib, w, id, a.call);
      }
    }
  }

  lemma PendingOnlyChangesAt(lib: Library, w: World, a: Action, id: nat)
    requires id in w.pending && id in Step(lib, w, a).pending
    ensures Step(lib, w, a).pending[id] == w.pending[id]
  {}

  lemma {:induction false} RunIsCoherent(lib: Library, acts: seq<Action>)
    ensures Coherent(lib, Run(lib, acts))
  {
    if acts != [] {
      RunIsCoherent(lib, acts[..|acts| - 1]);
      StepStaysCoherent(lib, Run(lib, acts[..|acts| - 1]), acts[|acts| - 1]);
    }
  }

  /** Reduction to serial. A clean interleaved run ends in the same store, with the same versions
      and the same answers, as the requests run one after the other in the order of their
      deciding steps. No bound on the number of writes is needed. */
  lemma {:induction false} CleanRunIsSerial(lib: Library, acts: seq<Action>)
    requires CleanRun(lib, acts)
    ensures var w := Run(lib, acts);
            HandleAll(lib, EMPTY_STORE, Calls(w.served)) == (w.store, Responses(w.served))
  {
    if acts == [] {
      assert Calls([]) == [] && Responses([]) == [];
    } else {
      var before, a := acts[..|acts| - 1], acts[|acts| - 1];
      var w, w' := Run(lib, before), Run(lib, acts);
      CleanRunIsSerial(lib, before);
      RunIsCoherent(lib, before);
      StepIsSerial(lib, w, a);
      HandleAllStep(lib, w, w');
    }
  }

  lemma StepIsSerial(lib: Library, w: World, a: Action)
    requires Coherent(lib, w) && CleanStep(w, a)
    ensures OneServed(lib, w, Step(lib, w, a))
  {
    match a {
      case Begin(id, c) => if id !in w.pending { BeginIsSerial(lib, w, id, c); }
      case Finish(id) => if id in w.pending { FinishIsSerial(lib, w, id); }
    }
  }

  /** One more answered request is one more step of the serial run. */
  lemma HandleAllStep(lib: Library, w: World, w': World)
    requires OneServed(lib, w, w')
    requires HandleAll(lib, EMPTY_STORE, Calls(w.served)) == (w.store, Responses(w.served))
    ensures HandleAll(lib, EMPTY_STORE, Calls(w'.served)) == (w'.store, Responses(w'.served))
  {
    if w'.served != w.served {
      assert Calls(w'.served)[..|w.served|] == Calls(w.served);
      assert Responses(w'.served) == Responses(w.served) + [w'.served[|w.served|].response];
    }
  }

  // --- Lists in the serial order ---

  /** The snapshot is the store of the serial run of the first at requests. */
  ghost predicate PlacedAt(lib: Library, served: seq<Served>, at: nat, snapshot: State) {
    at <= |served| && HandleAll(lib, EMPTY_STORE, Calls(served[..at])).0 == snapshot
  }

  ghost predicate ListsPlaced(lib: Library, w: World) {
    && (forall id :: id in w.pending && w.pending[id].PendingList? ==>
          PlacedAt(lib, w.served, w.pending[id].at, w.pending[id].snapshot))
    && (forall i :: 0 <= i < |w.lists| ==> PlacedAt(lib, w.served, w.lists[i].at, w.lists[i].snapshot))
  }

  /** From w to w', the requests served stay served, and at most request id changes: a list that
      is new, or new among the pending, has just read the store or was pending before. */
  ghost predicate ListsStep(w: World, w': World, id: nat) {
    match w' case World(_, pending, _, served, _, lists) =>
      && |w.served| <= |served| && served[..|w.served|] == w.served
      && (|| pending == w.pending
          || pending == w.pending - {id}
          || (id in pending && pending == w.pending[id := pending[id]]
              && var p := pending[id]; p.PendingList? ==> p.at == |w.served| && p.snapshot == w.store))
      && (|| lists == w.lists
          || (lists != [] && lists[..|lists| - 1] == w.lists
              && var l := lists[|lists| - 1];
                 || (l.at == |w.served| && l.snapshot == w.store)
                 || (id in w.pending && w.pending[id].PendingList?
                     && l.at == w.pending[id].at && l.snapshot == w.pending[id].snapshot)))
  }

  lemma ApplyStepsLists(w: World, id: nat, c: Call, v: Verdict)
    requires v.Pend? && v.p.PendingList? ==> v.p.snapshot == w.store && v.p.at == |w.served|
    ensures ListsStep(w, Apply(w, id, c, v), id)
  {}

  lemma BeginStepsLists(lib: Library, w: World, id: nat, c: Call)
    ensures ListsStep(w, BeginCall(lib, w, id, c), id)
  {
    ApplyStepsLists(Look(w, c), id, c, Decide(lib, w.store, |w.log|, |w.served|, c));
  }

  lemma FinishStepsLists(w: World, id: nat)
    requires id in w.pending
    ensures ListsStep(w, FinishCall(w, id), id)
  {}

  lemma StepPlacesLists(lib: Library, w: World, w': World, id: nat)
    requires ListsPlaced(lib, w) && ListsStep(w, w', id) && PlacedAt(lib, w.served, |w.served|, w.store)
    ensures ListsPlaced(lib, w')
  {
    forall at: nat, s | PlacedAt(lib, w.served, at, s)
      ensures PlacedAt(lib, w'.served, at, s)
    {
      assert w'.served[..at] == w.served[..at];
    }
  }

  lemma {:induction false} CleanRunPlacesLists(lib: Library, acts: seq<Action>)
    requires CleanRun(lib, acts)
    ensures ListsPlaced(lib, Run(lib, acts))
  {
    if acts != [] {
      var before, a := acts[..|acts| - 1], acts[|acts| - 1];
      var w := Run(lib, before);
      CleanRunPlacesLists(lib, before);
      CleanRunIsSerial(lib, before);
      assert w.served[..|w.served|] == w.served;
      if a.Begin? && a.id !in w.pending {
        BeginStepsLists(lib, w, a.id, a.call);
        StepPlacesLists(lib, w, BeginCall(lib, w, a.id, a.call), a.id);
      } else if a.Finish? && a.id in w.pending {
        FinishStepsLists(w, a.id);
        StepPlacesLists(lib, w, FinishCall(w, a.id), a.id);
      }
    }
  }

  /** Where a List reads its snapshot, it would answer the same run by itself, exactly if it
      matched something or nothing was written until it read the counter. */
  lemma ListIsSerialIff(lib: Library, log: seq<Entry>, l: Listing)
    requires ListingOk(log, l) && |log| <= MAX_UINT64
    ensures Handle(lib, l.snapshot, l.call) == (l.snapshot, Listed(l.items, l.resourceVersion))
       <==> l.items != map[] || l.current == l.snapshot.rv
  {
    MatchedNothing(l.snapshot, l.items);
    FormatInjective(l.current, l.snapshot.rv);
  }

  /** Lists have a place in the serial order too, right after the requests that were served when
      they read the store. */
  lemma ListsAreSerialIff(lib: Library, acts: seq<Action>, i: nat)
    requires CleanRun(lib, acts) && |Run(lib, acts).log| <= MAX_UINT64 && i < |Run(lib, acts).lists|
    ensures var w, l := Run(lib, acts), Run(lib, acts).lists[i];
            && l.at <= |w.served|
            && var s := HandleAll(lib, EMPTY_STORE, Calls(w.served[..l.at])).0;
               Handle(lib, s, l.call) == (s, Listed(l.items, l.resourceVersion))
               <==> l.items != map[] || l.current == s.rv
  {
    var w := Run(lib, acts);
    CleanRunPlacesLists(lib, acts);
    RunKeepsInv(lib, acts);
    assert PlacedAt(lib, w.served, w.lists[i].at, w.lists[i].snapshot);
    ListIsSerialIff(lib, w.log, w.lists[i]);
  }

  // --- When optimistic concurrency holds ---

  /** The step is a write of a request whose key was written since its Get. */
  ghost predicate Overtaken(w: World, a: Action) {
    && a.Finish? && a.id in w.pending
    && var p := w.pending[a.id];
       (p.PendingUpdate? || p.PendingDelete?) && p.key in w.store.items && !Undisturbed(w.log, p.key, p.since)
  }

  ghost predicate NoneOvertaken(lib: Library, acts: seq<Action>) {
    acts == [] ||
    (NoneOvertaken(lib, acts[..|acts| - 1]) && !Overtaken(Run(lib, acts[..|acts| - 1]), acts[|acts| - 1]))
  }

  /** The store still holds a request's snapshot exactly when nobody wrote the key since. */
  lemma CurrentIffUndisturbed(lib: Library, w: World, p: Pending)
    requires Inv(lib, w) && SnapshotCurrent(lib, w, p) && PendingOk(lib, w.log, p)
    requires (p.PendingUpdate? || p.PendingDelete?) && p.key in w.store.items
    ensures w.store.items[p.key] == p.base <==> Undisturbed(w.log, p.key, p.since)
  {
    if !Undisturbed(w.log, p.key, p.since) {
      var i :| p.since <= i < |w.log| && w.log[i].key == p.key;
      assert w.log[..|w.log|] == w.log;
      LawfulIsInPosition(lib, w.log);
      NothingOlderRemains(w.log, i, |w.log|);
    }
  }

  lemma ApplyWritesOnlyCreates(w: World, id: nat, c: Call, v: Verdict)
    ensures var log := Apply(w, id, c, v).log;
            log == w.log || (log != [] && Front(log) == w.log && Last(log).Created?)
  {}

  /** What the second call of a request adds to the journal. */
  lemma FinishEntry(w: World, id: nat)
    requires id in w.pending
    ensures var p, log := w.pending[id], FinishCall(w, id).log;
            if (p.PendingUpdate? || p.PendingDelete?) && p.key in w.store.items
            then && log != [] && Front(log) == w.log && !Last(log).Created?
                 && Last(log).key == p.key && Last(log).base == p.base
            else log == w.log || (log != [] && Front(log) == w.log && Last(log).Created?)
  {}

  lemma FinishIsSerialIff(lib: Library, w: World, id: nat, log: seq<Entry>)
    requires Inv(lib, w) && Coherent(lib, w) && SerialLog(w.log) && id in w.pending
    requires log == FinishCall(w, id).log
    ensures SerialLog(log) <==> !Overtaken(w, Finish(id))
  {
    var p := w.pending[id];
    FinishEntry(w, id);
    if (p.PendingUpdate? || p.PendingDelete?) && p.key in w.store.items {
      CurrentIffUndisturbed(lib, w, p);
    }
  }

  lemma StepIsSerialIff(lib: Library, w: World, a: Action)
    requires Inv(lib, w) && Coherent(lib, w) && SerialLog(w.log)
    ensures SerialLog(Step(lib, w, a).log) <==> !Overtaken(w, a)
  {
    if a.Finish? && a.id in w.pending {
      FinishIsSerialIff(lib, w, a.id, FinishCall(w, a.id).log);
    } else if a.Begin? && a.id !in w.pending {
      ApplyWritesOnlyCreates(Look(w, a.call), a.id, a.call, Decide(lib, w.store, |w.log|, |w.served|, a.call));
    }
  }

  /** Each version is consumed by at most one update or delete exactly in the runs where no
      writer was overtaken. The version check alone does not ensure it, for the store does not
      repeat the check when it writes. */
  lemma {:induction false} NoLostUpdateIffNoneOvertaken(lib: Library, acts: seq<Action>)
    requires |Run(lib, acts).log| <= MAX_UINT64
    ensures SerialLog(Run(lib, acts).log) <==> NoneOvertaken(lib, acts)
    ensures NoLostUpdate(Run(lib, acts).log) <==> NoneOvertaken(lib, acts)
  {
    RunKeepsInv(lib, acts);
    NoLostUpdateIffSerial(lib, Run(lib, acts).log);
    if acts != [] {
      var before, a := acts[..|acts| - 1], acts[|acts| - 1];
      var w := Run(lib, before);
      LogGrows(lib, w, a);
      NoLostUpdateIffNoneOvertaken(lib, before);
      StepWritesOnce(lib, w, a);
      if SerialLog(w.log) {
        RunKeepsInv(lib, before);
        RunIsCoherent(lib, before);
        StepIsSerialIff(lib, w, a);
      }
    }
  }

  // --- Serial runs are clean runs ---

  function OneByOne(calls: seq<Call>): seq<Action> {
    if calls == [] then []
    else OneByOne(calls[..|calls| - 1]) + [Begin(0, calls[|calls| - 1]), Finish(0)]
  }

  /** A request that Begin completes has had its whole effect; one it leaves pending, none. */
  lemma BeginEffect(lib: Library, w: World, id: nat, c: Call)
    requires id !in w.pending
    ensures var w1 := BeginCall(lib, w, id, c);
            if id in w1.pending
            then && w1.store == w.store && w1.pending == w.pending[id := w1.pending[id]]
                 && w1.pending[id].call == c && FinishesCleanly(w1, w1.pending[id])
            else w1.store == Handle(lib, w.store, c).0 && w1.pending == w.pending
  {}

  lemma FinishEffect(lib: Library, w: World, id: nat)
    requires id in w.pending && SnapshotCurrent(lib, w, w.pending[id]) && FinishesCleanly(w, w.pending[id])
    requires w.pending[id].PendingList? ==> w.pending[id].call.ListCall?
    ensures FinishCall(w, id).store == Handle(lib, w.store, w.pending[id].call).0
    ensures FinishCall(w, id).pending == w.pending - {id}
  {}

  lemma BeginThenFinish(lib: Library, w: World, c: Call)
    requires w.pending == map[] && Coherent(lib, w)
    ensures var w1 := Step(lib, w, Begin(0, c));
            var w2 := Step(lib, w1, Finish(0));
            && CleanStep(w1, Finish(0)) && w2.pending == map[]
            && w2.store == Handle(lib, w.store, c).0
  {
    var w1 := BeginCall(lib, w, 0, c);
    BeginEffect(lib, w, 0, c);
    StepStaysCoherent(lib, w, Begin(0, c));
    if 0 in w1.pending {
      PendingListsAreLists(lib, w, 0, c);
      FinishEffect(lib, w1, 0);
    }
  }

  lemma PendingListsAreLists(lib: Library, w: World, id: nat, c: Call)
    requires id !in w.pending
    ensures var w1 := BeginCall(lib, w, id, c);
            id in w1.pending && w1.pending[id].PendingList? ==> c.ListCall?
  {}

  lemma OneMoreStep(lib: Library, acts: seq<Action>, a: Action)
    ensures Run(lib, acts + [a]) == Step(lib, Run(lib, acts), a)
    ensures CleanRun(lib, acts + [a]) <==> CleanRun(lib, acts) && CleanStep(Run(lib, acts), a)
    ensures NoneOvertaken(lib, acts + [a]) <==> NoneOvertaken(lib, acts) && !Overtaken(Run(lib, acts), a)
  {
    var longer := acts + [a];
    assert longer[..|longer| - 1] == acts;
  }

  /** Running requests one by one is a clean run, so all that holds of clean runs holds of it. */
  lemma {:induction false} SerialRunIsClean(lib: Library, calls: seq<Call>)
    ensures var acts := OneByOne(calls);
            && CleanRun(lib, acts) && Run(lib, acts).pending == map[]
            && Run(lib, acts).store == HandleAll(lib, EMPTY_STORE, calls).0
  {
    if calls != [] {
      var front, c := calls[..|calls| - 1], calls[|calls| - 1];
      var before := OneByOne(front);
      SerialRunIsClean(lib, front);
      RunIsCoherent(lib, before);
      BeginThenFinish(lib, Run(lib, before), c);
      OneMoreStep(lib, before, Begin(0, c));
      OneMoreStep(lib, before + [Begin(0, c)], Finish(0));
      assert OneByOne(calls) == before + [Begin(0, c)] + [Finish(0)];
    }
  }

  /** A request that finishes right after it began is not overtaken. */
  lemma NotOvertakenAtOnce(lib: Library, w: World, c: Call)
    requires w.pending == map[]
    ensures !Overtaken(w, Begin(0, c)) && !Overtaken(Step(lib, w, Begin(0, c)), Finish(0))
  {
    var w1 := BeginCall(lib, w, 0, c);
    if 0 in w1.pending {
      assert w1.log == w.log && (w1.pending[0].PendingList? || w1.pending[0].since == |w.log|);
    }
  }

  /** Running requests one by one overtakes nobody, so all that follows from that holds of it. */
  lemma {:induction false} SerialRunOvertakesNone(lib: Library, calls: seq<Call>)
    ensures NoneOvertaken(lib, OneByOne(calls))
  {
    if calls != [] {
      var front, c := calls[..|calls| - 1], calls[|calls| - 1];
      var before := OneByOne(front);
      SerialRunOvertakesNone(lib, front);
      SerialRunIsClean(lib, front);
      NotOvertakenAtOnce(lib, Run(lib, before), c);
      OneMoreStep(lib, before, Begin(0, c));
      OneMoreStep(lib, before + [Begin(0, c)], Finish(0));
      assert OneByOne(calls) == before + [Begin(0, c)] + [Finish(0)];
    }
  }
}
