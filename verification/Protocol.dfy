/** Requests running side by side over one store. A request makes at most two lock-protected
    store calls; Begin performs the first, together with the private work that follows it, and
    Finish performs the second. A run is any sequence of such actions, so every interleaving of
    any number of requests, with any clients, is one. */
module Protocol {
  import opened TaskTypes
  import opened ResourceVersion
  import opened Strategy
  import opened StoreSpec
  import opened RegistrySpec
  import opened Journal

  /** A request between its two store calls, with the private snapshot it carries. */
  datatype Pending =
    | PendingCreate(call: Call, key: Key, draft: Draft, since: nat)
    | PendingUpdate(call: Call, view: View, key: Key, base: Task, draft: Draft, since: nat)
    | PendingDelete(call: Call, key: Key, base: Task, since: nat)
    | PendingList(call: Call, snapshot: State, items: map<Key, Task>, at: nat)

  datatype Served = Served(call: Call, response: Response)

  /** A finished List: the snapshot it read, what it answered and the counter at that moment. at
      is how many requests had been served when it read the snapshot. */
  datatype Listing = Listing(
    call: Call, snapshot: State, items: map<Key, Task>, resourceVersion: string, current: Uint64, at: nat)

  /** store, pending: the system. log, served, seen, lists: what has happened, in order; seen has
      every copy of a Task the store ever handed out, with the key it was filed under. */
  datatype World = World(
    store: State, pending: map<nat, Pending>,
    log: seq<Entry>, served: seq<Served>, seen: set<(Key, Task)>, lists: seq<Listing>)

  datatype Action = Begin(id: nat, call: Call) | Finish(id: nat)

  const START := World(EMPTY_STORE, map[], [], [], {}, [])

  function PreOf(c: Call): Option<Preconditions> {
    match c
    case UpdateCall(_, _, _, _, pre, _, _, _, _) => pre
    case DeleteCall(_, _, pre, _) => pre
    case _ => None
  }

  function Answer(w: World, c: Call, r: Response): World {
    w.(served := w.served + [Served(c, r)])
  }

  function CommitCreate(w: World, c: Call, key: Key, d: Draft): World {
    var (s', r) := StoreCreate(w.store, key, d.task);
    var w' := if r.Err? then w else
                w.(store := s', log := w.log + [Created(key, d.submitted, r.value, c)],
                   seen := w.seen + {(key, r.value)});
    Answer(w', c, Reply(r))
  }

  function CommitUpdate(w: World, c: Call, view: View, key: Key, base: Task, d: Draft): World {
    var (s', r) := StoreUpdate(w.store, key, d.task);
    var w' := if r.Err? then w else
                w.(store := s', log := w.log + [Updated(key, view, PreOf(c), base, d.submitted, r.value, c)],
                   seen := w.seen + {(key, r.value)});
    Answer(w', c, Reply(r))
  }

  function CommitDelete(w: World, c: Call, key: Key, base: Task): World {
    var (s', r) := StoreDelete(w.store, key);
    var w' := if r.Err? then w else
                w.(store := s', log := w.log + [Deleted(key, PreOf(c), base, r.value, c)],
                   seen := w.seen + {(key, r.value)});
    Answer(w', c, Reply(r))
  }

  function Observe(w: World, key: Key): World {
    if key in w.store.items then w.(seen := w.seen + {(key, w.store.items[key])}) else w
  }

  function AnswerList(w: World, c: Call, snapshot: State, items: map<Key, Task>, rv: Uint64, at: nat): World {
    w.(lists := w.lists + [Listing(c, snapshot, items, FormatRV(rv), w.store.rv, at)],
       seen := w.seen + set k | k in items :: (k, items[k]))
  }

  /** The second store call of a request. */
  function Commit(w: World, p: Pending): World {
    match p
    case PendingCreate(c, key, d, _) => CommitCreate(w, c, key, d)
    case PendingUpdate(c, view, key, base, d, _) => CommitUpdate(w, c, view, key, base, d)
    case PendingDelete(c, key, base, _) => CommitDelete(w, c, key, base)
    case PendingList(c, snapshot, items, at) => AnswerList(w, c, snapshot, items, w.store.rv, at)
  }

  /** The key a request names, or for a create that its object carries. */
  function RequestKey(c: Call): Key {
    match c
    case CreateCall(obj, _, _) => OwnKey(obj)
    case UpdateCall(_, namespace, name, _, _, _, _, _, _) => Key(namespace, name)
    case DeleteCall(namespace, name, _, _) => Key(namespace, name)
    case GetCall(namespace, name) => Key(namespace, name)
    case ListCall(namespace, _, _) => Key(namespace, "")
  }

  /** What a request comes to by its first store call and the private work after it: an error, an
      object to create at once, an object to answer with, a second store call, or a full List. */
  datatype Verdict =
    | Refuse(error: Error)
    | Insert(key: Key, draft: Draft)
    | Return(task: Task)
    | Pend(p: Pending)
    | Matched(items: map<Key, Task>)

  /** s is the store, since the length of the journal, at the number of requests served. */
  ghost function Decide(lib: Library, s: State, since: nat, at: nat, c: Call): (v: Verdict)
    ensures v.Insert? ==> c.CreateCall? && v.key == RequestKey(c)
    ensures v.Return? ==> c.GetCall? && Lookup(s.items, RequestKey(c)) == Some(v.task)
    ensures v.Pend? && v.p.PendingList? ==> c.ListCall? && v.p == PendingList(c, s, v.p.items, at)
    ensures v.Pend? && !v.p.PendingList? ==> v.p.call == c && v.p.key == RequestKey(c) && v.p.since == since
  {
    match c
    case CreateCall(obj, uid, admit) =>
      (match DraftCreate(lib, obj, uid, admit)
       case Err(e) => Refuse(e)
       case Ok(d) => Insert(OwnKey(d.task), d))
    case UpdateCall(view, namespace, name, _, _, _, _, _, _) =>
      (match KeyFromContext(namespace, name)
       case Err(e) => Refuse(e)
       case Ok(key) =>
         var existing := Lookup(s.items, key);
         match DraftUpdate(lib, c, existing)
         case Err(e) => Refuse(e)
         case Ok(d) =>
           Pend(if existing.None? then PendingCreate(c, key, d, since)
                else PendingUpdate(c, view, key, existing.value, d, since)))
    case DeleteCall(namespace, name, _, _) =>
      (match KeyFromContext(namespace, name)
       case Err(e) => Refuse(e)
       case Ok(key) =>
         match StoreGet(s, key)
         case Err(e) => Refuse(e)
         case Ok(existing) =>
           match CheckDelete(c, existing)
           case Some(e) => Refuse(e)
           case None => Pend(PendingDelete(c, key, existing, since)))
    case GetCall(namespace, name) =>
      (match KeyFromContext(namespace, name)
       case Err(e) => Refuse(e)
       case Ok(key) => match StoreGet(s, key) case Err(e) => Refuse(e) case Ok(t) => Return(t))
    case ListCall(namespace, selector, fieldSelector) =>
      if fieldSelector then Refuse(Unsupported) else
        var items := Matching(s.items, namespace, selector);
        if MaxRV(items) == 0 then Pend(PendingList(c, s, items, at)) else Matched(items)
  }

  ghost function Apply(w: World, id: nat, c: Call, v: Verdict): World {
    match v
    case Refuse(e) => Answer(w, c, Failed(e))
    case Insert(key, d) => CommitCreate(w, c, key, d)
    case Return(t) => Answer(w, c, Object(t))
    case Pend(p) => w.(pending := w.pending[id := p])
    case Matched(items) => AnswerList(w, c, w.store, items, MaxRV(items), |w.served|)
  }

  /** A request that starts with a Get sees what is there. */
  function Look(w: World, c: Call): (w': World)
    ensures w' == w.(seen := w'.seen) && w.seen <= w'.seen
  {
    if (c.UpdateCall? || c.DeleteCall? || c.GetCall?) && KeyFromContext(c.namespace, c.name).Ok?
    then Observe(w, RequestKey(c)) else w
  }

  ghost function BeginCall(lib: Library, w: World, id: nat, c: Call): World {
    Apply(Look(w, c), id, c, Decide(lib, w.store, |w.log|, |w.served|, c))
  }

  function FinishCall(w: World, id: nat): World
    requires id in w.pending
  {
    var w' := w.(pending := w.pending - {id});
    Commit(w', w.pending[id])
  }

  /** Beginning a request under an id in use, or finishing one that is not there, does nothing. */
  ghost function Step(lib: Library, w: World, a: Action): World {
    match a
    case Begin(id, c) => if id in w.pending then w else BeginCall(lib, w, id, c)
    case Finish(id) => if id in w.pending then FinishCall(w, id) else w
  }

  ghost function Run(lib: Library, acts: seq<Action>): World {
    if acts == [] then START else Step(lib, Run(lib, acts[..|acts| - 1]), acts[|acts| - 1])
  }

  // --- What every interleaving keeps ---

  ghost predicate PendingOk(lib: Library, log: seq<Entry>, p: Pending) {
    match p
    case PendingCreate(_, key, d, since) =>
      since <= |log| && BeforeCreate(lib, d.submitted) == Ok(d.task)
    case PendingUpdate(c, view, key, base, d, since) =>
      && PreconditionsHold(base, PreOf(c)) && since <= |log| && IsVersion(log[..since], key, base)
      && d.submitted.meta.resourceVersion == base.meta.resourceVersion
      && BeforeUpdate(lib, view, d.submitted, base) == Ok(d.task)
    case PendingDelete(c, key, base, since) =>
      PreconditionsHold(base, PreOf(c)) && since <= |log| && IsVersion(log[..since], key, base)
    case PendingList(c, snapshot, items, _) =>
      && c.ListCall? && !c.fieldSelector && items == Matching(snapshot.items, c.namespace, c.selector)
      && MaxRV(items) == 0 && IsSnapshot(log, snapshot)
  }

  /** s is the store as it stood after the first s.rv writes. */
  ghost predicate IsSnapshot(log: seq<Entry>, s: State) {
    s.rv <= |log| && s.items == Replay(log[..s.rv]) && Stamped(s)
  }

  ghost predicate ListingOk(log: seq<Entry>, l: Listing) {
    && l.call.ListCall? && !l.call.fieldSelector
    && l.items == Matching(l.snapshot.items, l.call.namespace, l.call.selector)
    && IsSnapshot(log, l.snapshot)
    && l.snapshot.rv <= l.current <= |log|
    && l.resourceVersion == FormatRV(if l.items == map[] then l.current else MaxRV(l.items))
  }

  /** The journal is lawful and replays to the store, the counter counts it, and every copy in
      anyone's hands is a committed version of its key. */
  ghost predicate Inv(lib: Library, w: World) {
    && LawfulLog(lib, w.log)
    && w.store.items == Replay(w.log)
    && w.store.rv == |w.log|
    && (forall id :: id in w.pending ==> PendingOk(lib, w.log, w.pending[id]))
    && (forall key, t :: (key, t) in w.seen ==> IsVersion(w.log, key, t))
    && (forall i :: 0 <= i < |w.lists| ==> ListingOk(w.log, w.lists[i]))
  }

  lemma StoreHoldsVersions(lib: Library, w: World)
    requires LawfulLog(lib, w.log) && w.store.items == Replay(w.log) && w.store.rv == |w.log|
    ensures forall k :: k in w.store.items ==> IsVersion(w.log, k, w.store.items[k])
    ensures IsSnapshot(w.log, w.store)
  {
    assert w.log[..|w.log|] == w.log;
    forall k | k in w.store.items
      ensures IsVersion(w.log, k, w.store.items[k])
    {
      ReplayHoldsVersions(lib, w.log, k);
    }
  }

  /** The world after one more journal entry. */
  function Extended(w: World, e: Entry): World
    requires w.store.rv < MAX_UINT64
  {
    var items := ReplayEntry(w.store.items, e);
    var t := if e.Deleted? then e.removed else e.task;
    w.(store := State(items, w.store.rv + 1), log := w.log + [e], seen := w.seen + {(e.key, t)})
  }

  lemma PendingStaysOk(lib: Library, log: seq<Entry>, e: Entry, p: Pending)
    requires PendingOk(lib, log, p)
    ensures PendingOk(lib, log + [e], p)
  {
    if p.PendingList? {
      assert (log + [e])[..p.snapshot.rv] == log[..p.snapshot.rv];
    } else {
      assert (log + [e])[..p.since] == log[..p.since];
    }
  }

  lemma ListingStaysOk(log: seq<Entry>, e: Entry, l: Listing)
    requires ListingOk(log, l)
    ensures ListingOk(log + [e], l)
  {
    assert (log + [e])[..l.snapshot.rv] == log[..l.snapshot.rv];
  }

  lemma RecordsStayOk(lib: Library, w: World, e: Entry)
    requires Inv(lib, w)
    ensures forall id :: id in w.pending ==> PendingOk(lib, w.log + [e], w.pending[id])
    ensures forall i :: 0 <= i < |w.lists| ==> ListingOk(w.log + [e], w.lists[i])
    ensures forall key, t :: (key, t) in w.seen ==> IsVersion(w.log + [e], key, t)
  {
    forall id | id in w.pending
      ensures PendingOk(lib, w.log + [e], w.pending[id])
    {
      PendingStaysOk(lib, w.log, e, w.pending[id]);
    }
    forall i | 0 <= i < |w.lists|
      ensures ListingOk(w.log + [e], w.lists[i])
    {
      ListingStaysOk(w.log, e, w.lists[i]);
    }
  }

  lemma ExtendedKeepsInv(lib: Library, w: World, e: Entry)
    requires Inv(lib, w) && EntryOk(lib, w.log, e)
    ensures Inv(lib, Extended(w, e))
  {
    AppendLawful(lib, w.log, e);
    RecordsStayOk(lib, w, e);
  }

  lemma CommitCreateKeepsInv(lib: Library, w: World, c: Call, key: Key, d: Draft)
    requires Inv(lib, w) && BeforeCreate(lib, d.submitted) == Ok(d.task)
    requires |CommitCreate(w, c, key, d).log| <= MAX_UINT64
    ensures Inv(lib, CommitCreate(w, c, key, d))
  {
    if key !in w.store.items {
      ExtendedKeepsInv(lib, w, Created(key, d.submitted, Stamp(d.task, w.store.rv + 1), c));
    }
  }

  lemma CommitUpdateKeepsInv(lib: Library, w: World, c: Call, view: View, key: Key, base: Task, d: Draft)
    requires Inv(lib, w) && BeforeUpdate(lib, view, d.submitted, base) == Ok(d.task)
    requires PreconditionsHold(base, PreOf(c))
    requires IsVersion(w.log, key, base) && d.submitted.meta.resourceVersion == base.meta.resourceVersion
    requires |CommitUpdate(w, c, view, key, base, d).log| <= MAX_UINT64
    ensures Inv(lib, CommitUpdate(w, c, view, key, base, d))
  {
    if key in w.store.items {
      ExtendedKeepsInv(lib, w, Updated(key, view, PreOf(c), base, d.submitted, Stamp(d.task, w.store.rv + 1), c));
    }
  }

  lemma CommitDeleteKeepsInv(lib: Library, w: World, c: Call, key: Key, base: Task)
    requires Inv(lib, w) && IsVersion(w.log, key, base) && PreconditionsHold(base, PreOf(c))
    requires |CommitDelete(w, c, key, base).log| <= MAX_UINT64
    ensures Inv(lib, CommitDelete(w, c, key, base))
  {
    if key in w.store.items {
      ExtendedKeepsInv(lib, w, Deleted(key, PreOf(c), base, w.store.items[key], c));
    }
  }

  lemma SnapshotIsVersion(lib: Library, w: World)
    requires Inv(lib, w)
    ensures forall k :: k in w.store.items ==> IsVersion(w.log[..|w.log|], k, w.store.items[k])
  {
    StoreHoldsVersions(lib, w);
    assert w.log[..|w.log|] == w.log;
  }

  lemma ObserveKeepsInv(lib: Library, w: World, key: Key)
    requires Inv(lib, w)
    ensures Inv(lib, Observe(w, key))
  {
    StoreHoldsVersions(lib, w);
  }

  lemma AnswerListKeepsInv(lib: Library, w: World, c: Call, snapshot: State, items: map<Key, Task>, rv: Uint64, at: nat)
    requires Inv(lib, w) && c.ListCall? && !c.fieldSelector
    requires items == Matching(snapshot.items, c.namespace, c.selector)
    requires IsSnapshot(w.log, snapshot)
    requires forall k :: k in items ==> IsVersion(w.log, k, items[k])
    requires rv == if items == map[] then w.store.rv else MaxRV(items)
    ensures Inv(lib, AnswerList(w, c, snapshot, items, rv, at))
  {}

  /** What the private work of an update has established when it reaches the store again. */
  lemma DraftIsAccepted(lib: Library, c: Call, existing: Option<Task>)
    requires c.UpdateCall? && DraftUpdate(lib, c, existing).Ok?
    ensures var d := DraftUpdate(lib, c, existing).value;
            if existing.None? then c.force && BeforeCreate(lib, d.submitted) == Ok(d.task)
            else && PreconditionsHold(existing.value, c.pre)
                 && d.submitted.meta.resourceVersion == existing.value.meta.resourceVersion
                 && BeforeUpdate(lib, c.view, d.submitted, existing.value) == Ok(d.task)
  {}

  lemma AddPendingKeepsInv(lib: Library, w: World, id: nat, p: Pending)
    requires Inv(lib, w) && PendingOk(lib, w.log, p)
    ensures Inv(lib, w.(pending := w.pending[id := p]))
  {}

  /** What the verdict of a request guarantees while the store is that of w. */
  ghost predicate VerdictOk(lib: Library, w: World, c: Call, v: Verdict) {
    match v
    case Insert(_, d) => BeforeCreate(lib, d.submitted) == Ok(d.task)
    case Pend(p) => PendingOk(lib, w.log, p)
    case Matched(items) =>
      && c.ListCall? && !c.fieldSelector && MaxRV(items) != 0
      && items == Matching(w.store.items, c.namespace, c.selector)
    case _ => true
  }

  lemma UpdateVerdictIsOk(lib: Library, w: World, at: nat, c: Call)
    requires Inv(lib, w) && c.UpdateCall?
    ensures VerdictOk(lib, w, c, Decide(lib, w.store, |w.log|, at, c))
  {
    SnapshotIsVersion(lib, w);
    var named := KeyFromContext(c.namespace, c.name);
    if named.Ok? && DraftUpdate(lib, c, Lookup(w.store.items, named.value)).Ok? {
      DraftIsAccepted(lib, c, Lookup(w.store.items, named.value));
    }
  }

  lemma VerdictIsOk(lib: Library, w: World, at: nat, c: Call)
    requires Inv(lib, w)
    ensures VerdictOk(lib, w, c, Decide(lib, w.store, |w.log|, at, c))
  {
    StoreHoldsVersions(lib, w);
    SnapshotIsVersion(lib, w);
    if c.UpdateCall? {
      UpdateVerdictIsOk(lib, w, at, c);
    }
  }

  lemma ApplyKeepsInv(lib: Library, w: World, id: nat, c: Call, v: Verdict)
    requires Inv(lib, w) && VerdictOk(lib, w, c, v) && |Apply(w, id, c, v).log| <= MAX_UINT64
    ensures Inv(lib, Apply(w, id, c, v))
  {
    match v {
      case Insert(key, d) => CommitCreateKeepsInv(lib, w, c, key, d);
      case Pend(p) => AddPendingKeepsInv(lib, w, id, p);
      case Matched(items) =>
        StoreHoldsVersions(lib, w);
        AnswerListKeepsInv(lib, w, c, w.store, items, MaxRV(items), |w.served|);
      case _ =>
    }
  }

  lemma BeginKeepsInv(lib: Library, w: World, id: nat, c: Call)
    requires Inv(lib, w) && |BeginCall(lib, w, id, c).log| <= MAX_UINT64
    ensures Inv(lib, BeginCall(lib, w, id, c))
  {
    ObserveKeepsInv(lib, w, RequestKey(c));
    VerdictIsOk(lib, w, |w.served|, c);
    ApplyKeepsInv(lib, Look(w, c), id, c, Decide(lib, w.store, |w.log|, |w.served|, c));
  }

  lemma FinishKeepsInv(lib: Library, w: World, id: nat)
    requires Inv(lib, w) && id in w.pending && |FinishCall(w, id).log| <= MAX_UINT64
    ensures Inv(lib, FinishCall(w, id))
  {
    var w' := w.(pending := w.pending - {id});
    assert PendingOk(lib, w.log, w.pending[id]);
    match w.pending[id] {
      case PendingCreate(c, key, d, _) => CommitCreateKeepsInv(lib, w', c, key, d);
      case PendingUpdate(c, view, key, base, d, _) => CommitUpdateKeepsInv(lib, w', c, view, key, base, d);
      case PendingDelete(c, key, base, _) => CommitDeleteKeepsInv(lib, w', c, key, base);
      case PendingList(c, snapshot, items, at) =>
        MatchedNothing(snapshot, items);
        AnswerListKeepsInv(lib, w', c, snapshot, items, w.store.rv, at);
    }
  }

  /** The fallback version of a List is used exactly when nothing matched. */
  lemma MatchedNothing(s: State, items: map<Key, Task>)
    requires Stamped(s) && forall k :: k in items ==> k in s.items && s.items[k] == items[k]
    ensures MaxRV(items) == 0 <==> items == map[]
  {}

  lemma LogGrows(lib: Library, w: World, a: Action)
    ensures |w.log| <= |Step(lib, w, a).log|
  {}

  /** Every interleaving with fewer than 2^64 writes keeps the invariant. */
  lemma {:induction false} RunKeepsInv(lib: Library, acts: seq<Action>)
    requires |Run(lib, acts).log| <= MAX_UINT64
    ensures Inv(lib, Run(lib, acts))
  {
    if acts != [] {
      var before, a := acts[..|acts| - 1], acts[|acts| - 1];
      var w := Run(lib, before);
      LogGrows(lib, w, a);
      RunKeepsInv(lib, before);
      match a {
        case Begin(id, c) => if id !in w.pending { BeginKeepsInv(lib, w, id, c); }
        case Finish(id) => if id in w.pending { FinishKeepsInv(lib, w, id); }
      }
    }
  }
}
