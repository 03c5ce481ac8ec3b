/** What clients may rely on, stated for whole runs. */
module Guarantees {
  import opened TaskTypes
  import opened ResourceVersion
  import opened Strategy
  import opened StoreSpec
  import opened RegistrySpec
  import opened Outcomes
  import opened Journal
  import opened Protocol
  import opened Reduction

  /** The store is the fold of the journal, the counter its length, the population creates minus
      deletes, and entry i is the only write that consumed version i + 1. */
  lemma Accounting(lib: Library, acts: seq<Action>)
    requires |Run(lib, acts).log| <= MAX_UINT64
    ensures var w := Run(lib, acts);
            && w.store.items == Replay(w.log)
            && w.store.rv == CountCreates(w.log) + CountUpdates(w.log) + CountDeletes(w.log)
            && |w.store.items| + CountDeletes(w.log) == CountCreates(w.log)
            && forall i :: 0 <= i < |w.log| && !w.log[i].Deleted? ==>
                 w.log[i].task.meta.resourceVersion == FormatRV(i + 1)
  {
    var w := Run(lib, acts);
    RunKeepsInv(lib, acts);
    Conservation(lib, w.log);
    forall i | 0 <= i < |w.log| && !w.log[i].Deleted?
      ensures w.log[i].task.meta.resourceVersion == FormatRV(i + 1)
    {
      StampIsPosition(lib, w.log, i);
    }
  }

  /** A resource version identifies one object state: copies that carry the same one, whoever got
      them and however, are filed under the same key and agree in every field. */
  lemma VersionIdentity(lib: Library, acts: seq<Action>, k1: Key, t1: Task, k2: Key, t2: Task)
    requires |Run(lib, acts).log| <= MAX_UINT64
    requires (k1, t1) in Run(lib, acts).seen && (k2, t2) in Run(lib, acts).seen
    ensures t1.meta.resourceVersion == t2.meta.resourceVersion ==> k1 == k2 && t1 == t2
  {
    RunKeepsInv(lib, acts);
  }

  /** A List is exactly the selected part of one moment's store. Its version is the largest of
      its items', or the counter read afterwards when there are none, and never less than an
      item's nor more than the counter at the time of the answer. */
  lemma ListsAreBounded(lib: Library, acts: seq<Action>, i: nat)
    requires |Run(lib, acts).log| <= MAX_UINT64 && i < |Run(lib, acts).lists|
    ensures var w, l := Run(lib, acts), Run(lib, acts).lists[i];
            var rv := ParseRVOrZero(l.resourceVersion);
            && l.call.ListCall?
            && l.snapshot.rv <= |w.log| && l.snapshot.items == Replay(w.log[..l.snapshot.rv])
            && Answers(l.call, l.snapshot.items, l.items)
            && (forall k :: k in l.items ==> 1 <= RVOf(l.items[k]) <= rv)
            && (l.items != map[] ==> exists k :: k in l.items && RVOf(l.items[k]) == rv)
            && (l.items == map[] ==> rv == l.current)
            && l.snapshot.rv <= l.current && rv <= l.current <= w.store.rv
  {
    RunKeepsInv(lib, acts);
    var l := Run(lib, acts).lists[i];
    MatchedNothing(l.snapshot, l.items);
    ParseFormat(if l.items == map[] then l.current else MaxRV(l.items));
  }

  /** No version anyone has observed, on a Task or a List, is above the counter. */
  lemma ObservedVersionsArePast(lib: Library, acts: seq<Action>)
    requires |Run(lib, acts).log| <= MAX_UINT64
    ensures var w := Run(lib, acts);
            && (forall key, t :: (key, t) in w.seen ==> RVOf(t) <= w.store.rv)
            && (forall i :: 0 <= i < |w.lists| ==> ParseRVOrZero(w.lists[i].resourceVersion) <= w.store.rv)
  {
    var w := Run(lib, acts);
    RunKeepsInv(lib, acts);
    forall i | 0 <= i < |w.lists|
      ensures ParseRVOrZero(w.lists[i].resourceVersion) <= w.store.rv
    {
      ListsAreBounded(lib, acts, i);
    }
  }

  lemma OneWriteIsStamped(lib: Library, w: World, w': World)
    requires Inv(lib, w) && Inv(lib, w') && OneWrite(w, w')
    ensures w'.log != w.log ==>
              && w'.store.rv == w.store.rv + 1
              && (!Last(w'.log).Deleted? ==> RVOf(Last(w'.log).task) == w'.store.rv)
  {
    if w'.log != w.log && !Last(w'.log).Deleted? {
      StampIsPosition(lib, w'.log, |w.log|);
    }
  }

  /** The next write is stamped one above the counter, hence above every version ever observed. */
  lemma StampsAreFresh(lib: Library, acts: seq<Action>, a: Action)
    requires |Run(lib, acts + [a]).log| <= MAX_UINT64
    ensures var w, w' := Run(lib, acts), Run(lib, acts + [a]);
            w'.log != w.log ==>
              && w'.store.rv == w.store.rv + 1
              && (!Last(w'.log).Deleted? ==> RVOf(Last(w'.log).task) == w'.store.rv)
  {
    var w := Run(lib, acts);
    OneMoreStep(lib, acts, a);
    LogGrows(lib, w, a);
    StepWritesOnce(lib, w, a);
    RunKeepsInv(lib, acts);
    RunKeepsInv(lib, acts + [a]);
    OneWriteIsStamped(lib, w, Run(lib, acts + [a]));
  }

  /** Every committed version with fewer than 2^63 - 1 spec edits behind it is well formed, so
      everything stored or handed out is, and so is what any request in flight carries. */
  lemma TasksAreWellFormed(lib: Library, acts: seq<Action>, key: Key, t: Task)
    requires Lawful(lib) && |Run(lib, acts).log| <= MAX_UINT64
    requires (key, t) in Run(lib, acts).seen || Lookup(Run(lib, acts).store.items, key) == Some(t)
    ensures var log := Run(lib, acts).log;
            && Forest(log) && IsVersion(log, key, t)
            && (SpecEdits(log, IndexOf(t)) < MAX_INT64 ==> WellFormed(lib, t))
  {
    var w := Run(lib, acts);
    RunKeepsInv(lib, acts);
    StoreHoldsVersions(lib, w);
    LawfulIsForest(lib, w.log);
    if SpecEdits(w.log, IndexOf(t)) < MAX_INT64 {
      VersionsAreWellFormed(lib, w.log, IndexOf(t));
    }
  }

  lemma InFlightIsWellFormed(lib: Library, acts: seq<Action>, id: nat)
    requires Lawful(lib) && |Run(lib, acts).log| <= MAX_UINT64 && id in Run(lib, acts).pending
    ensures var w, p := Run(lib, acts), Run(lib, acts).pending[id];
            && Forest(w.log)
            && (p.PendingCreate? ==> WellFormed(lib, p.draft.task))
            && (p.PendingUpdate? || p.PendingDelete? ==>
                  && IsVersion(w.log, p.key, p.base)
                  && var edits := SpecEdits(w.log, IndexOf(p.base));
                     && (edits < MAX_INT64 ==> WellFormed(lib, p.base))
                     && (edits < MAX_INT64 - 1 && p.PendingUpdate? ==> WellFormed(lib, p.draft.task)))
  {
    var w, p := Run(lib, acts), Run(lib, acts).pending[id];
    RunKeepsInv(lib, acts);
    LawfulIsForest(lib, w.log);
    if p.PendingCreate? {
      CreateIsWellFormed(lib, p.draft.submitted);
    } else if p.PendingUpdate? || p.PendingDelete? {
      if SpecEdits(w.log, IndexOf(p.base)) < MAX_INT64 {
        VersionsAreWellFormed(lib, w.log, IndexOf(p.base));
        if p.PendingUpdate? {
          UpdateIsWellFormedIff(lib, p.view, p.draft.submitted, p.base);
        }
      }
    }
  }

  /** In a run where no writer is overtaken each half of an object is the fold of what its own
      view submitted. */
  lemma ViewsDoNotInterfere(lib: Library, acts: seq<Action>, key: Key)
    requires |Run(lib, acts).log| <= MAX_UINT64 && NoneOvertaken(lib, acts)
    ensures var w := Run(lib, acts);
            && SpecFold(Only(w.log, MainView), key) == SpecAt(w.store.items, key)
            && StatusFold(Only(w.log, StatusView), key) == StatusAt(w.store.items, key)
  {
    RunKeepsInv(lib, acts);
    NoLostUpdateIffNoneOvertaken(lib, acts);
    SpecIgnoresStatusWrites(lib, Run(lib, acts).log, key);
    StatusIgnoresSpecWrites(lib, Run(lib, acts).log, key);
  }

  // --- Every write is what its request asked for ---

  /** What a request that found existing drafts, to be created or to replace it. */
  function DraftOf(lib: Library, c: Call, existing: Option<Task>): Result<Draft> {
    if c.CreateCall? then DraftCreate(lib, c.obj, c.uid, c.admitCreate)
    else if c.UpdateCall? then DraftUpdate(lib, c, existing)
    else Err(BadRequest)
  }

  /** The entry is what its request drafted from the base, stamped, under the request's key. */
  ghost predicate Asked(lib: Library, e: Entry) {
    && e.key == RequestKey(e.call)
    && match e
       case Created(_, submitted, task, c) =>
         var d := DraftOf(lib, c, None);
         && (c.UpdateCall? ==> c.force)
         && d.Ok? && d.value.submitted == submitted && SameButVersion(task, d.value.task)
       case Updated(_, view, pre, base, submitted, task, c) =>
         var d := DraftOf(lib, c, Some(base));
         && c.UpdateCall? && c.view == view && c.pre == pre
         && d.Ok? && d.value.submitted == submitted && SameButVersion(task, d.value.task)
       case Deleted(_, pre, base, _, c) =>
         c.DeleteCall? && c.pre == pre && CheckDelete(c, base) == None
  }

  predicate SameButVersion(a: Task, b: Task) {
    a == b.(meta := b.meta.(resourceVersion := a.meta.resourceVersion))
  }

  /** From w to w' at most one entry was journalled, and it is what its request asked for. */
  ghost predicate WritesAsked(lib: Library, w: World, w': World) {
    w'.log == w.log || (w'.log != [] && Front(w'.log) == w.log && Asked(lib, Last(w'.log)))
  }

  lemma BeginWritesAsked(lib: Library, w: World, id: nat, c: Call)
    ensures WritesAsked(lib, w, BeginCall(lib, w, id, c))
  {}

  lemma FinishWritesAsked(lib: Library, w: World, id: nat)
    requires id in w.pending && SnapshotCurrent(lib, w, w.pending[id])
    ensures WritesAsked(lib, w, FinishCall(w, id))
  {}

  lemma {:induction false} RunWritesAsked(lib: Library, acts: seq<Action>, i: nat)
    requires i < |Run(lib, acts).log|
    ensures Asked(lib, Run(lib, acts).log[i])
  {
    if acts != [] {
      var before, a := acts[..|acts| - 1], acts[|acts| - 1];
      var w, w' := Run(lib, before), Run(lib, acts);
      RunIsCoherent(lib, before);
      if a.Begin? && a.id !in w.pending {
        BeginWritesAsked(lib, w, a.id, a.call);
      } else if a.Finish? && a.id in w.pending {
        FinishWritesAsked(lib, w, a.id);
      }
      if i < |w.log| {
        RunWritesAsked(lib, before, i);
        assert w'.log[i] == w.log[i];
      }
    }
  }

  /** What a request that creates was given to create. */
  function ToCreate(c: Call): Option<Task> {
    match c
    case CreateCall(obj, _, _) => Some(obj)
    case UpdateCall(_, _, _, updated, _, _, _, _, _) => updated(EMPTY_TASK)
    case _ => None
  }

  lemma CreationAsAsked(lib: Library, e: Entry)
    requires e.Created? && Asked(lib, e)
    ensures e.call.CreateCall? || (e.call.UpdateCall? && e.call.force)
    ensures ToCreate(e.call).Some?
    ensures var t := NewTask(ToCreate(e.call).value, e.call.uid);
            AcceptableNew(lib, t) && e.call.admitCreate(t) && SameButVersion(e.task, t)
  {
    ValidationOfNew(lib, FillSystemFields(ToCreate(e.call).value, e.call.uid));
  }

  lemma ChangeAsAsked(lib: Library, e: Entry)
    requires e.Updated? && Asked(lib, e)
    ensures e.call.UpdateCall? && e.view == e.call.view
    ensures e.call.updated(e.base) == Some(e.submitted) && Meets(e.base, e.call.pre)
    ensures e.submitted.meta.resourceVersion == e.base.meta.resourceVersion != ""
    ensures var t := ChangedTask(e.view, e.submitted, e.base);
            AcceptableChange(lib, e.view, t, e.base) && e.call.admitUpdate(t, e.base) && SameButVersion(e.task, t)
  {
    ValidationOfChange(lib, e.view, e.submitted, e.base);
  }

  /** However requests interleave, every committed write is exactly what its request asked for,
      computed from the version it read, valid, admitted, and stamped with the next version; and a
      delete's preconditions and admission callback accepted the version it read. */
  lemma WritesAreWhatWasAsked(lib: Library, acts: seq<Action>, i: nat)
    requires |Run(lib, acts).log| <= MAX_UINT64 && i < |Run(lib, acts).log|
    ensures var e := Run(lib, acts).log[i];
            match e
            case Created(key, _, task, c) =>
              && (c.CreateCall? || (c.UpdateCall? && c.force)) && ToCreate(c).Some?
              && var t := NewTask(ToCreate(c).value, c.uid);
              && key == (if c.CreateCall? then Key(c.obj.meta.namespace, c.obj.meta.name) else Key(c.namespace, c.name))
              && AcceptableNew(lib, t) && c.admitCreate(t)
              && task == t.(meta := t.meta.(resourceVersion := FormatRV(i + 1)))
            case Updated(key, view, _, base, obj, task, c) =>
              && c.UpdateCall? && key == Key(c.namespace, c.name) && view == c.view
              && c.updated(base) == Some(obj) && Meets(base, c.pre)
              && obj.meta.resourceVersion == base.meta.resourceVersion != ""
              && var t := ChangedTask(view, obj, base);
              && AcceptableChange(lib, view, t, base) && c.admitUpdate(t, base)
              && task == t.(meta := t.meta.(resourceVersion := FormatRV(i + 1)))
            case Deleted(key, _, base, _, c) =>
              c.DeleteCall? && key == Key(c.namespace, c.name) && Meets(base, c.pre) && c.admitDelete(base)
  {
    var log := Run(lib, acts).log;
    RunKeepsInv(lib, acts);
    RunWritesAsked(lib, acts, i);
    if log[i].Created? {
      StampIsPosition(lib, log, i);
      CreationAsAsked(lib, log[i]);
    } else if log[i].Updated? {
      StampIsPosition(lib, log, i);
      ChangeAsAsked(lib, log[i]);
    }
  }

  // --- Serial runs ---

  /** Between a version and the write that consumed it nothing happened to the key. */
  ghost predicate WritesChain(log: seq<Entry>) {
    forall m: nat, j: nat :: j < |log| && !log[j].Created? && IndexOf(log[j].base) < m < j ==> log[m].key != log[j].key
  }

  /** What is read before a delete is not accepted after it. */
  ghost predicate DeletedStayDead(log: seq<Entry>) {
    forall d: nat, j: nat :: d < j < |log| && log[d].Deleted? && !log[j].Created? && log[j].key == log[d].key ==>
      RVOf(log[j].base) > d + 1
  }

  /** Requests run one by one: each version is consumed at most once, the writes to a key chain, a
      version read before a delete never succeeds after it, and whatever is replaced or removed
      meets its client's preconditions. */
  lemma SerialRunsLoseNoUpdate(lib: Library, calls: seq<Call>)
    requires |Run(lib, OneByOne(calls)).log| <= MAX_UINT64
    ensures var log := Run(lib, OneByOne(calls)).log;
            && SerialLog(log) && NoLostUpdate(log) && WritesChain(log) && DeletedStayDead(log)
            && forall i: nat :: i < |log| && !log[i].Created? ==>
                 log[i].key in Replay(log[..i]) && PreconditionsHold(Replay(log[..i])[log[i].key], log[i].pre)
  {
    var acts := OneByOne(calls);
    var log := Run(lib, acts).log;
    SerialRunOvertakesNone(lib, calls);
    NoLostUpdateIffNoneOvertaken(lib, acts);
    RunKeepsInv(lib, acts);
    forall m: nat, j: nat | j < |log| && !log[j].Created? && IndexOf(log[j].base) < m < j
      ensures log[m].key != log[j].key
    {
      SerialWritesChain(lib, log, j, m);
    }
    forall d: nat, j: nat | d < j < |log| && log[d].Deleted? && !log[j].Created? && log[j].key == log[d].key
      ensures RVOf(log[j].base) > d + 1
    {
      DeletedVersionsStayDead(lib, log, d, j);
    }
    forall i: nat | i < |log| && !log[i].Created?
      ensures log[i].key in Replay(log[..i]) && PreconditionsHold(Replay(log[..i])[log[i].key], log[i].pre)
    {
      PreconditionsHoldAtTheWrite(lib, log, i);
    }
  }

  /** Requests run one by one: in the store that the serial specification ends with, each half of
      an object is the fold of what its own view submitted. */
  lemma SerialViewsDoNotInterfere(lib: Library, calls: seq<Call>, key: Key)
    requires |Run(lib, OneByOne(calls)).log| <= MAX_UINT64
    ensures var log, items := Run(lib, OneByOne(calls)).log, HandleAll(lib, EMPTY_STORE, calls).0.items;
            && SpecFold(Only(log, MainView), key) == SpecAt(items, key)
            && StatusFold(Only(log, StatusView), key) == StatusAt(items, key)
  {
    SerialRunIsClean(lib, calls);
    SerialRunOvertakesNone(lib, calls);
    ViewsDoNotInterfere(lib, OneByOne(calls), key);
  }

  // --- Failed requests ---

  /** Between w and w': an error answer means that nothing was written. */
  ghost predicate FailureInert(w: World, w': World) {
    w'.served != w.served && w'.served != [] && w'.served[|w'.served| - 1].response.Failed? ==>
      w'.store == w.store && w'.log == w.log
  }

  lemma ApplyIsInertOrSucceeds(w: World, id: nat, c: Call, v: Verdict)
    ensures FailureInert(w, Apply(w, id, c, v))
  {}

  lemma FinishIsInertOrSucceeds(w: World, id: nat)
    requires id in w.pending
    ensures FailureInert(w, FinishCall(w, id))
  {}

  /** A request that is answered with an error leaves the store, and so everyone's versions,
      exactly as they were, at whichever of its steps it fails. */
  lemma FailedStepsAreInert(lib: Library, w: World, a: Action)
    ensures FailureInert(w, Step(lib, w, a))
  {
    match a {
      case Begin(id, c) => ApplyIsInertOrSucceeds(Look(w, c), id, c, Decide(lib, w.store, |w.log|, |w.served|, c));
      case Finish(id) => if id in w.pending { FinishIsInertOrSucceeds(w, id); }
    }
  }

  // --- Updates that may not create ---

  /** The request that the step belongs to, if the step does anything. */
  function Acting(w: World, a: Action): Option<Call> {
    match a
    case Begin(id, c) => if id in w.pending then None else Some(c)
    case Finish(id) => if id in w.pending then Some(w.pending[id].call) else None
  }

  /** From w to w' no key came or went, and only the object at key may have changed. */
  ghost predicate ChangesOnly(w: World, w': World, key: Key) {
    && w'.store.items.Keys == w.store.items.Keys
    && forall k :: k in w.store.items && k != key ==> w'.store.items[k] == w.store.items[k]
  }

  lemma FinishChangesOnly(lib: Library, w: World, id: nat)
    requires id in w.pending && SnapshotCurrent(lib, w, w.pending[id])
    requires w.pending[id].call.UpdateCall? && !w.pending[id].call.force
    ensures ChangesOnly(w, FinishCall(w, id), RequestKey(w.pending[id].call))
  {}

  /** In every run, a step of an update that may not create leaves the keys as they are, and every
      object but the one it names. */
  lemma UnforcedUpdatesAddNoKey(lib: Library, acts: seq<Action>, a: Action)
    requires var c := Acting(Run(lib, acts), a); c.Some? && c.value.UpdateCall? && !c.value.force
    ensures ChangesOnly(Run(lib, acts), Run(lib, acts + [a]), RequestKey(Acting(Run(lib, acts), a).value))
  {
    OneMoreStep(lib, acts, a);
    if a.Finish? {
      RunIsCoherent(lib, acts);
      FinishChangesOnly(lib, Run(lib, acts), a.id);
    }
  }

  // --- Every request is answered once ---

  /** The requests begun so far; a Begin under an id in use begins nothing. */
  ghost function Begun(lib: Library, acts: seq<Action>): multiset<Call> {
    if acts == [] then multiset{} else
      var before, a := acts[..|acts| - 1], acts[|acts| - 1];
      Begun(lib, before) +
      if a.Begin? && a.id !in Run(lib, before).pending then multiset{a.call} else multiset{}
  }

  ghost function InFlight(pending: map<nat, Pending>): multiset<Call> {
    if pending == map[] then multiset{} else
      var id :| id in pending;
      InFlight(pending - {id}) + multiset{pending[id].call}
  }

  ghost function ListCalls(lists: seq<Listing>): seq<Call> {
    seq(|lists|, i requires 0 <= i < |lists| => lists[i].call)
  }

  ghost function Answered(w: World): multiset<Call> {
    multiset(Calls(w.served)) + multiset(ListCalls(w.lists))
  }

  lemma InFlightUnfolds(pending: map<nat, Pending>) returns (k: nat)
    requires pending != map[]
    ensures k in pending && InFlight(pending) == InFlight(pending - {k}) + multiset{pending[k].call}
  {
    k :| k in pending && InFlight(pending) == InFlight(pending - {k}) + multiset{pending[k].call};
  }

  lemma RemoveBoth(pending: map<nat, Pending>, k: nat, id: nat)
    requires k in pending && id in pending && k != id
    ensures pending - {k} - {id} == pending - {id} - {k}
    ensures |pending - {k}| < |pending| && |pending - {id}| < |pending|
  {
    assert (pending - {k}).Keys == pending.Keys - {k} && (pending - {id}).Keys == pending.Keys - {id};
  }

  lemma {:induction false} InFlightWithout(pending: map<nat, Pending>, id: nat)
    requires id in pending
    ensures InFlight(pending) == InFlight(pending - {id}) + multiset{pending[id].call}
    decreases |pending|
  {
    var k := InFlightUnfolds(pending);
    if k != id {
      RemoveBoth(pending, k, id);
      InFlightWithout(pending - {k}, id);
      InFlightWithout(pending - {id}, k);
    }
  }

  lemma InFlightWith(pending: map<nat, Pending>, id: nat, p: Pending)
    requires id !in pending
    ensures InFlight(pending[id := p]) == InFlight(pending) + multiset{p.call}
  {
    InFlightWithout(pending[id := p], id);
    assert pending[id := p] - {id} == pending;
  }

  /** From w to w' exactly one answer was given, and it was to c. */
  ghost predicate OneAnswer(w: World, w': World, c: Call) {
    || (w'.lists == w.lists && |w'.served| == |w.served| + 1
        && w'.served[..|w.served|] == w.served && w'.served[|w.served|].call == c)
    || (w'.served == w.served && |w'.lists| == |w.lists| + 1
        && w'.lists[..|w.lists|] == w.lists && w'.lists[|w.lists|].call == c)
  }

  lemma OneAnswerCounts(w: World, w': World, c: Call)
    requires OneAnswer(w, w', c)
    ensures Answered(w') == Answered(w) + multiset{c}
  {
    if w'.lists == w.lists {
      assert Calls(w'.served) == Calls(w.served) + [c];
    } else {
      assert ListCalls(w'.lists) == ListCalls(w.lists) + [c];
    }
  }

  /** From w to w' request id for c was taken in or answered, and that is all. */
  ghost predicate PendsOrAnswers(w: World, w': World, id: nat, c: Call) {
    match w' case World(_, pending, _, served, _, lists) =>
      if id in pending
      then pending == w.pending[id := pending[id]] && pending[id].call == c && served == w.served && lists == w.lists
      else pending == w.pending && OneAnswer(w, w', c)
  }

  lemma ApplyPendsOrAnswers(w: World, id: nat, c: Call, v: Verdict)
    requires id !in w.pending && (v.Pend? ==> v.p.call == c)
    ensures PendsOrAnswers(w, Apply(w, id, c, v), id, c)
  {}

  lemma BeginPendsOrAnswers(lib: Library, w: World, id: nat, c: Call)
    requires id !in w.pending
    ensures PendsOrAnswers(w, BeginCall(lib, w, id, c), id, c)
  {
    ApplyPendsOrAnswers(Look(w, c), id, c, Decide(lib, w.store, |w.log|, |w.served|, c));
  }

  lemma FinishAnswers(w: World, id: nat)
    requires id in w.pending
    ensures FinishCall(w, id).pending == w.pending - {id}
    ensures OneAnswer(w, FinishCall(w, id), w.pending[id].call)
  {}

  /** No request is lost, answered twice or answered for another: those begun are those in flight
      and those answered, each as often. */
  lemma {:induction false} RequestsAreConserved(lib: Library, acts: seq<Action>)
    ensures Begun(lib, acts) == InFlight(Run(lib, acts).pending) + Answered(Run(lib, acts))
  {
    if acts != [] {
      var before, a := acts[..|acts| - 1], acts[|acts| - 1];
      var w, w' := Run(lib, before), Run(lib, acts);
      RequestsAreConserved(lib, before);
      if a.Begin? && a.id !in w.pending {
        BeginPendsOrAnswers(lib, w, a.id, a.call);
        if a.id in w'.pending {
          InFlightWith(w.pending, a.id, w'.pending[a.id]);
        } else {
          OneAnswerCounts(w, w', a.call);
        }
      } else if a.Finish? && a.id in w.pending {
        FinishAnswers(w, a.id);
        InFlightWithout(w.pending, a.id);
        OneAnswerCounts(w, w', w.pending[a.id].call);
      }
    }
  }

  // --- Every answer is on record ---

  /** Every Task that was answered, alone or in a List, is among those seen, under its key. */
  ghost predicate AnswersSeen(w: World) {
    && (forall i :: 0 <= i < |w.served| && w.served[i].response.Object? ==>
          (RequestKey(w.served[i].call), w.served[i].response.task) in w.seen)
    && (forall i :: 0 <= i < |w.lists| ==>
          forall k :: k in w.lists[i].items ==> (k, w.lists[i].items[k]) in w.seen)
  }

  /** What a request in flight will be answered under is its own key. */
  ghost predicate PendingKeyed(p: Pending) {
    p.PendingList? || p.key == RequestKey(p.call)
  }

  /** From w to w' nothing seen is forgotten, and at most one answer or List is new, all seen. */
  ghost predicate Records(w: World, w': World) {
    match w' case World(_, _, _, served, seen, lists) =>
      && w.seen <= seen
      && (|| served == w.served
          || (served != [] && served[..|served| - 1] == w.served
              && var s := served[|served| - 1];
                 s.response.Object? ==> (RequestKey(s.call), s.response.task) in seen))
      && (|| lists == w.lists
          || (lists != [] && lists[..|lists| - 1] == w.lists
              && var l := lists[|lists| - 1]; forall k :: k in l.items ==> (k, l.items[k]) in seen))
  }

  lemma ApplyRecords(w: World, id: nat, c: Call, v: Verdict)
    requires v.Insert? ==> v.key == RequestKey(c)
    requires v.Return? ==> (RequestKey(c), v.task) in w.seen
    ensures Records(w, Apply(w, id, c, v))
  {}

  lemma BeginRecords(lib: Library, w: World, id: nat, c: Call)
    requires id !in w.pending
    ensures var w' := BeginCall(lib, w, id, c);
            Records(w, w') && (id in w'.pending ==> PendingKeyed(w'.pending[id]))
  {
    var v := Decide(lib, w.store, |w.log|, |w.served|, c);
    ApplyRecords(Look(w, c), id, c, v);
    ApplyPendsOrAnswers(Look(w, c), id, c, v);
  }

  lemma FinishRecords(w: World, id: nat)
    requires id in w.pending && PendingKeyed(w.pending[id])
    ensures Records(w, FinishCall(w, id))
  {}

  lemma RecordsGoOn(w: World, w': World)
    requires AnswersSeen(w) && Records(w, w')
    ensures AnswersSeen(w')
  {}

  /** Every Task any client was ever answered is on the record that VersionIdentity,
      ObservedVersionsArePast and TasksAreWellFormed speak of. */
  lemma {:induction false} AnswersAreSeen(lib: Library, acts: seq<Action>)
    ensures AnswersSeen(Run(lib, acts))
    ensures forall id :: id in Run(lib, acts).pending ==> PendingKeyed(Run(lib, acts).pending[id])
  {
    if acts != [] {
      var before, a := acts[..|acts| - 1], acts[|acts| - 1];
      var w := Run(lib, before);
      AnswersAreSeen(lib, before);
      if a.Begin? && a.id !in w.pending {
        BeginRecords(lib, w, a.id, a.call);
        RecordsGoOn(w, BeginCall(lib, w, a.id, a.call));
        BeginPendsOrAnswers(lib, w, a.id, a.call);
      } else if a.Finish? && a.id in w.pending {
        FinishRecords(w, a.id);
        RecordsGoOn(w, FinishCall(w, a.id));
        FinishAnswers(w, a.id);
      }
    }
  }

  /** Every object that a request reads first is on that record too, whatever the request comes to:
      its client's callbacks are shown it. */
  lemma ReadsAreSeen(lib: Library, acts: seq<Action>, id: nat, c: Call)
    requires id !in Run(lib, acts).pending && (c.UpdateCall? || c.DeleteCall? || c.GetCall?)
    requires c.name != "" && c.namespace != "" && Key(c.namespace, c.name) in Run(lib, acts).store.items
    ensures var key := Key(c.namespace, c.name);
            (key, Run(lib, acts).store.items[key]) in Run(lib, acts + [Begin(id, c)]).seen
  {
    OneMoreStep(lib, acts, Begin(id, c));
  }

  // --- UIDs ---

  /** The UID that a step would assign should its request create. */
  function UidOf(a: Action): Option<string> {
    if a.Begin? && a.call.CreateCall? then Some(a.call.uid)
    else if a.Begin? && a.call.UpdateCall? then Some(a.call.uid)
    else None
  }

  /** The server never draws a UID twice. */
  ghost predicate FreshSupply(acts: seq<Action>) {
    forall i, j :: 0 <= i < j < |acts| && UidOf(acts[i]).Some? ==> UidOf(acts[i]) != UidOf(acts[j])
  }

  ghost function Drawn(acts: seq<Action>): set<string> {
    set i | 0 <= i < |acts| && UidOf(acts[i]).Some? :: UidOf(acts[i]).value
  }

  lemma DrawOneMore(acts: seq<Action>, a: Action)
    requires FreshSupply(acts + [a])
    ensures FreshSupply(acts)
    ensures UidOf(a).Some? ==> UidOf(a).value !in Drawn(acts) && Drawn(acts + [a]) == Drawn(acts) + {UidOf(a).value}
    ensures UidOf(a).None? ==> Drawn(acts + [a]) == Drawn(acts)
  {
    var longer := acts + [a];
    assert longer[|acts|] == a && forall i :: 0 <= i < |acts| ==> longer[i] == acts[i];
  }

  /** Every UID assigned or about to be is among those drawn, and none is there twice. */
  ghost predicate UidsDistinct(w: World, drawn: set<string>) {
    && FreshUids(w.log)
    && (forall i :: 0 <= i < |w.log| && w.log[i].Created? ==> w.log[i].submitted.meta.uid in drawn)
    && (forall id :: id in w.pending && w.pending[id].PendingCreate? ==>
          && w.pending[id].draft.submitted.meta.uid in drawn
          && (forall i :: 0 <= i < |w.log| && w.log[i].Created? ==>
                w.log[i].submitted.meta.uid != w.pending[id].draft.submitted.meta.uid)
          && (forall other :: other in w.pending && w.pending[other].PendingCreate? && other != id ==>
                w.pending[other].draft.submitted.meta.uid != w.pending[id].draft.submitted.meta.uid))
  }

  /** From w to w' at most one create was written or taken in as id, under the UID u. */
  ghost predicate Draws(w: World, w': World, id: nat, u: Option<string>) {
    match w' case World(_, pending, log, _, _, _) =>
      if id in pending
      then && log == w.log && pending == w.pending[id := pending[id]]
           && (pending[id].PendingCreate? ==> u == Some(pending[id].draft.submitted.meta.uid))
      else && pending == w.pending
           && (log == w.log
               || (log != [] && Front(log) == w.log && Last(log).Created?
                   && u == Some(Last(log).submitted.meta.uid)))
  }

  lemma BeginDraws(lib: Library, w: World, id: nat, c: Call)
    requires id !in w.pending
    ensures Draws(w, BeginCall(lib, w, id, c), id, UidOf(Begin(id, c)))
  {}

  lemma FinishDrawsNothing(w: World, id: nat)
    requires id in w.pending
    ensures var w', p := FinishCall(w, id), w.pending[id];
            && w'.pending == w.pending - {id}
            && (w'.log == w.log
                || (w'.log != [] && Front(w'.log) == w.log
                    && (Last(w'.log).Created? ==> p.PendingCreate? && Last(w'.log).submitted == p.draft.submitted)))
  {}

  lemma DrawingKeepsUidsDistinct(w: World, w': World, id: nat, u: Option<string>,
                                 drawn: set<string>, drawn': set<string>)
    requires UidsDistinct(w, drawn) && id !in w.pending && Draws(w, w', id, u)
    requires if u.Some? then u.value !in drawn && drawn' == drawn + {u.value} else drawn' == drawn
    ensures UidsDistinct(w', drawn')
  {}

  lemma FinishKeepsUidsDistinct(w: World, id: nat, drawn: set<string>)
    requires UidsDistinct(w, drawn) && id in w.pending
    ensures UidsDistinct(FinishCall(w, id), drawn)
  {
    FinishDrawsNothing(w, id);
  }

  lemma {:induction false} RunUidsAreDistinct(lib: Library, acts: seq<Action>)
    requires FreshSupply(acts)
    ensures UidsDistinct(Run(lib, acts), Drawn(acts))
  {
    if acts != [] {
      var before, a := acts[..|acts| - 1], acts[|acts| - 1];
      var w := Run(lib, before);
      assert acts == before + [a];
      DrawOneMore(before, a);
      RunUidsAreDistinct(lib, before);
      if a.Begin? && a.id !in w.pending {
        BeginDraws(lib, w, a.id, a.call);
        DrawingKeepsUidsDistinct(w, Run(lib, acts), a.id, UidOf(a), Drawn(before), Drawn(acts));
      } else if a.Finish? && a.id in w.pending {
        FinishKeepsUidsDistinct(w, a.id, Drawn(before));
      }
    }
  }

  /** In every run, a UID names one incarnation. */
  lemma UidsNameIncarnations(lib: Library, acts: seq<Action>, i: nat, j: nat)
    requires FreshSupply(acts) && |Run(lib, acts).log| <= MAX_UINT64
    requires i < |Run(lib, acts).log| && !Run(lib, acts).log[i].Deleted?
    requires j < |Run(lib, acts).log| && !Run(lib, acts).log[j].Deleted?
    ensures var log := Run(lib, acts).log;
            Forest(log) && (log[i].task.meta.uid == log[j].task.meta.uid <==> Root(log, i) == Root(log, j))
  {
    var log := Run(lib, acts).log;
    RunKeepsInv(lib, acts);
    LawfulIsForest(lib, log);
    RunUidsAreDistinct(lib, acts);
    UidNamesIncarnation(lib, log, i, j);
  }

  /** In every run, exactly which writes met their preconditions when they took effect. */
  lemma PreconditionsMetIff(lib: Library, acts: seq<Action>, i: nat)
    requires FreshSupply(acts) && |Run(lib, acts).log| <= MAX_UINT64
    requires i < |Run(lib, acts).log| && !Run(lib, acts).log[i].Created?
    ensures var log := Run(lib, acts).log;
            && Forest(log)
            && var key, base, pre := log[i].key, log[i].base, log[i].pre;
            && key in Replay(log[..i])
            && var met := Replay(log[..i])[key];
            && IsVersion(log, key, met) && IsVersion(log, key, base)
            && (PreconditionsHold(met, pre) <==>
                  pre.None? ||
                  (&& (pre.value.uid.Some? ==> Root(log, IndexOf(met)) == Root(log, IndexOf(base)))
                   && (pre.value.resourceVersion.Some? ==>
                         forall m :: IndexOf(base) < m < i ==> log[m].key != key)))
  {
    var log := Run(lib, acts).log;
    RunKeepsInv(lib, acts);
    LawfulIsForest(lib, log);
    RunUidsAreDistinct(lib, acts);
    PreconditionsHoldIff(lib, log, i);
  }

  // --- Filing ---

  /** If the request is to create where it updates, its object is the one it names. */
  predicate CarriesItsKey(c: Call) {
    c.UpdateCall? && c.force && c.updated(EMPTY_TASK).Some? ==>
      OwnKey(c.updated(EMPTY_TASK).value) == Key(c.namespace, c.name)
  }

  ghost predicate AllCarryTheirKeys(acts: seq<Action>) {
    forall i :: 0 <= i < |acts| && acts[i].Begin? ==> CarriesItsKey(acts[i].call)
  }

  ghost predicate CreatesAreFiled(w: World) {
    && (forall i :: 0 <= i < |w.log| && w.log[i].Created? ==> OwnKey(w.log[i].submitted) == w.log[i].key)
    && (forall id :: id in w.pending && w.pending[id].PendingCreate? ==>
          OwnKey(w.pending[id].draft.submitted) == w.pending[id].key)
  }

  lemma {:induction false} RunFilesCreates(lib: Library, acts: seq<Action>)
    requires AllCarryTheirKeys(acts)
    ensures CreatesAreFiled(Run(lib, acts))
  {
    if acts != [] {
      RunFilesCreates(lib, acts[..|acts| - 1]);
      StepFilesCreates(lib, Run(lib, acts[..|acts| - 1]), acts[|acts| - 1]);
    }
  }

  /** From w to w', at most one entry was journalled, and no misfiled create. */
  ghost predicate FilesItsCreate(w: World, w': World) {
    || w'.log == w.log
    || (w'.log != [] && Front(w'.log) == w.log
        && (Last(w'.log).Created? ==> OwnKey(Last(w'.log).submitted) == Last(w'.log).key))
  }

  lemma BeginFilesCreate(lib: Library, w: World, id: nat, c: Call)
    requires id !in w.pending && CarriesItsKey(c)
    ensures var w' := BeginCall(lib, w, id, c);
            && FilesItsCreate(w, w')
            && (id in w'.pending && w'.pending[id].PendingCreate? ==>
                  OwnKey(w'.pending[id].draft.submitted) == w'.pending[id].key)
  {}

  lemma FinishFilesCreate(w: World, id: nat)
    requires id in w.pending
    requires w.pending[id].PendingCreate? ==> OwnKey(w.pending[id].draft.submitted) == w.pending[id].key
    ensures FilesItsCreate(w, FinishCall(w, id))
  {}

  lemma FilingGoesOn(w: World, w': World)
    requires CreatesAreFiled(w) && FilesItsCreate(w, w')
    ensures forall i :: 0 <= i < |w'.log| && w'.log[i].Created? ==> OwnKey(w'.log[i].submitted) == w'.log[i].key
  {
    forall i | 0 <= i < |w'.log| && w'.log[i].Created?
      ensures OwnKey(w'.log[i].submitted) == w'.log[i].key
    {
      if i < |w.log| {
        assert w'.log[i] == w.log[i];
      }
    }
  }

  lemma StepFilesCreates(lib: Library, w: World, a: Action)
    requires CreatesAreFiled(w) && (a.Begin? ==> CarriesItsKey(a.call))
    ensures CreatesAreFiled(Step(lib, w, a))
  {
    if a.Begin? && a.id !in w.pending {
      var w' := BeginCall(lib, w, a.id, a.call);
      BeginFilesCreate(lib, w, a.id, a.call);
      BeginPendsOrAnswers(lib, w, a.id, a.call);
      FilingGoesOn(w, w');
    } else if a.Finish? && a.id in w.pending {
      var w' := FinishCall(w, a.id);
      FinishFilesCreate(w, a.id);
      FinishAnswers(w, a.id);
      FilingGoesOn(w, w');
    }
  }

  /** In every run, an object is stored under its own namespace and name exactly if the create it
      descends from carried the key it was filed under. */
  lemma ObjectsAreFiledIff(lib: Library, acts: seq<Action>, key: Key)
    requires |Run(lib, acts).log| <= MAX_UINT64 && key in Run(lib, acts).store.items
    ensures var w := Run(lib, acts);
            var t := w.store.items[key];
            && Forest(w.log) && IsVersion(w.log, key, t)
            && var root := w.log[Root(w.log, IndexOf(t))];
            && root.Created? && root.key == key
            && (OwnKey(t) == key <==> OwnKey(root.submitted) == key)
  {
    var w := Run(lib, acts);
    RunKeepsInv(lib, acts);
    StoreHoldsVersions(lib, w);
    LawfulIsForest(lib, w.log);
    IdentityOfRoot(lib, w.log, IndexOf(w.store.items[key]));
  }

  /** If every request that may create carries the key it names, every object is stored under its
      own namespace and name, so a List by namespace is a List by the objects' own metadata. */
  lemma ObjectsAreFiled(lib: Library, acts: seq<Action>, namespace: string, selector: map<string, string> -> bool)
    requires |Run(lib, acts).log| <= MAX_UINT64 && AllCarryTheirKeys(acts)
    ensures var items := Run(lib, acts).store.items;
            && (forall k :: k in items ==> OwnKey(items[k]) == k)
            && Matching(items, namespace, selector) ==
               map k | k in items && (namespace == "" || items[k].meta.namespace == namespace)
                                  && selector(Labels(items[k])) :: items[k]
  {
    var items := Run(lib, acts).store.items;
    RunFilesCreates(lib, acts);
    forall k | k in items
      ensures OwnKey(items[k]) == k
    {
      ObjectsAreFiledIff(lib, acts, k);
      var log := Run(lib, acts).log;
      var root := Root(log, IndexOf(items[k]));
      assert log[root].Created?;
    }
  }

  /** A forced update of a missing name does create, and files the new object under its own name
      exactly when the client's object carries the namespace and name of the request. */
  lemma ForcedCreateIsFiledIff(lib: Library, s: State, c: Call)
    requires c.UpdateCall? && c.force && Key(c.namespace, c.name) !in s.items
    requires Handle(lib, s, c).1.Object?
    ensures var key := Key(c.namespace, c.name);
            var s' := Handle(lib, s, c).0;
            && key in s'.items && c.updated(EMPTY_TASK).Some?
            && (OwnKey(s'.items[key]) == key <==> CarriesItsKey(c))
  {}
}
