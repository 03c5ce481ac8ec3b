/** The journal of committed writes and everything that follows from how one entry may extend
    it. Entry number i is the write that consumed resource version i + 1. Lawful journals are
    what interleaved runs produce (Protocol); serial journals are what runs without an
    overtaken writer produce. */
module Journal {
  import opened TaskTypes
  import opened ResourceVersion
  import opened Strategy
  import opened StoreSpec
  import opened RegistrySpec

  /** pre is what the client demanded of the object, base the snapshot the request worked from,
      submitted what its client handed in, task what was stored, removed what a delete took out,
      call the request. */
  datatype Entry =
    | Created(key: Key, submitted: Task, task: Task, call: Call)
    | Updated(key: Key, view: View, pre: Option<Preconditions>, base: Task, submitted: Task, task: Task, call: Call)
    | Deleted(key: Key, pre: Option<Preconditions>, base: Task, removed: Task, call: Call)

  function Front(log: seq<Entry>): seq<Entry>
    requires log != []
  {
    log[..|log| - 1]
  }

  function Last(log: seq<Entry>): Entry
    requires log != []
  {
    log[|log| - 1]
  }

  function ReplayEntry(items: map<Key, Task>, e: Entry): map<Key, Task> {
    if e.Deleted? then items - {e.key} else items[e.key := e.task]
  }

  function Replay(log: seq<Entry>): map<Key, Task> {
    if log == [] then map[] else ReplayEntry(Replay(Front(log)), Last(log))
  }

  /** The journal position a version claims to have been written at. */
  function IndexOf(t: Task): int {
    RVOf(t) - 1
  }

  /** t is, field for field, a version that was committed at key. */
  predicate IsVersion(log: seq<Entry>, key: Key, t: Task) {
    var i := IndexOf(t);
    0 <= i < |log| && !log[i].Deleted? && log[i].key == key && log[i].task == t
  }

  /** What the registry guarantees of the next write, whatever the interleaving. */
  ghost predicate EntryOk(lib: Library, prior: seq<Entry>, e: Entry) {
    |prior| < MAX_UINT64 &&
    var rv := |prior| + 1;
    match e
    case Created(key, submitted, task, _) =>
      var r := BeforeCreate(lib, submitted);
      r.Ok? && task == Stamp(r.value, rv) && key !in Replay(prior)
    case Updated(key, view, pre, base, submitted, task, _) =>
      var r := BeforeUpdate(lib, view, submitted, base);
      && r.Ok? && task == Stamp(r.value, rv) && key in Replay(prior)
      && IsVersion(prior, key, base)
      && submitted.meta.resourceVersion == base.meta.resourceVersion
      && PreconditionsHold(base, pre)
    case Deleted(key, pre, base, removed, _) =>
      && Lookup(Replay(prior), key) == Some(removed) && IsVersion(prior, key, base)
      && PreconditionsHold(base, pre)
  }

  /** Journals of fewer than 2^64 writes in which every entry was allowed. */
  ghost predicate LawfulLog(lib: Library, log: seq<Entry>) {
    log == [] || (LawfulLog(lib, Front(log)) && EntryOk(lib, Front(log), Last(log)))
  }

  lemma LengthBound(lib: Library, log: seq<Entry>)
    requires LawfulLog(lib, log)
    ensures |log| <= MAX_UINT64
  {}

  lemma EntryAt(lib: Library, log: seq<Entry>, i: nat)
    requires LawfulLog(lib, log) && i < |log|
    ensures LawfulLog(lib, log[..i]) && EntryOk(lib, log[..i], log[i])
  {
    if i < |log| - 1 {
      EntryAt(lib, Front(log), i);
      assert Front(log)[..i] == log[..i];
    }
  }

  /** The stamp of entry i is version i + 1, so a version knows where it was written. */
  lemma StampIsPosition(lib: Library, log: seq<Entry>, i: nat)
    requires LawfulLog(lib, log) && i < |log| && !log[i].Deleted?
    ensures log[i].task.meta.resourceVersion == FormatRV(i + 1)
    ensures IndexOf(log[i].task) == i && IsVersion(log, log[i].key, log[i].task)
  {
    EntryAt(lib, log, i);
    ParseFormat(i + 1);
  }

  /** Appending an allowed entry; what it stored, or what it removed, is a version of its key. */
  lemma AppendLawful(lib: Library, log: seq<Entry>, e: Entry)
    requires LawfulLog(lib, log) && EntryOk(lib, log, e)
    ensures LawfulLog(lib, log + [e])
    ensures Replay(log + [e]) == ReplayEntry(Replay(log), e)
    ensures IsVersion(log + [e], e.key, if e.Deleted? then e.removed else e.task)
  {
    var log' := log + [e];
    assert Front(log') == log && Last(log') == e;
    if e.Deleted? {
      ReplayHoldsVersions(lib, log, e.key);
    } else {
      StampIsPosition(lib, log', |log|);
    }
  }

  // --- Log replay ---

  /** Everything in the store is a committed version of its key. */
  lemma {:induction false} ReplayHoldsVersions(lib: Library, log: seq<Entry>, key: Key)
    requires LawfulLog(lib, log) && key in Replay(log)
    ensures IsVersion(log, key, Replay(log)[key])
  {
    var e := Last(log);
    if e.key == key {
      StampIsPosition(lib, log, |log| - 1);
    } else {
      ReplayHoldsVersions(lib, Front(log), key);
    }
  }

  function CountCreates(log: seq<Entry>): nat {
    if log == [] then 0 else CountCreates(Front(log)) + if Last(log).Created? then 1 else 0
  }

  function CountUpdates(log: seq<Entry>): nat {
    if log == [] then 0 else CountUpdates(Front(log)) + if Last(log).Updated? then 1 else 0
  }

  function CountDeletes(log: seq<Entry>): nat {
    if log == [] then 0 else CountDeletes(Front(log)) + if Last(log).Deleted? then 1 else 0
  }

  /** Each write consumes one version, and the store holds creates minus deletes. */
  lemma {:induction false} Conservation(lib: Library, log: seq<Entry>)
    requires LawfulLog(lib, log)
    ensures |log| == CountCreates(log) + CountUpdates(log) + CountDeletes(log)
    ensures |Replay(log)| + CountDeletes(log) == CountCreates(log)
  {
    if log != [] {
      Conservation(lib, Front(log));
      var m, e := Replay(Front(log)), Last(log);
      if e.Deleted? {
        assert (m - {e.key}).Keys == m.Keys - {e.key};
        assert |m.Keys - {e.key}| == |m.Keys| - 1;
      } else {
        assert m[e.key := e.task].Keys == m.Keys + {e.key};
      }
    }
  }

  // --- The version forest ---

  function Parent(log: seq<Entry>, i: nat): int
    requires i < |log| && log[i].Updated?
  {
    IndexOf(log[i].base)
  }

  /** Every update hangs off an earlier version of the same key; creates are the roots. */
  ghost predicate Forest(log: seq<Entry>) {
    forall i {:trigger log[i]} :: 0 <= i < |log| && log[i].Updated? ==> IsVersion(log[..i], log[i].key, log[i].base)
  }

  lemma {:induction false} LawfulIsForest(lib: Library, log: seq<Entry>)
    requires LawfulLog(lib, log)
    ensures Forest(log)
  {
    forall i | 0 <= i < |log| && log[i].Updated?
      ensures IsVersion(log[..i], log[i].key, log[i].base)
    {
      EntryAt(lib, log, i);
    }
  }

  /** An update was computed from a version committed strictly earlier at the same key, and that
      version is the one its client named. */
  lemma UpdateNamesItsBase(lib: Library, log: seq<Entry>, i: nat)
    requires LawfulLog(lib, log) && i < |log| && log[i].Updated?
    ensures var p := Parent(log, i);
            && 0 <= p < i && !log[p].Deleted? && log[p].key == log[i].key && log[p].task == log[i].base
            && log[i].submitted.meta.resourceVersion == FormatRV(p + 1)
            && RVOf(log[p].task) < RVOf(log[i].task)
  {
    EntryAt(lib, log, i);
    StampIsPosition(lib, log, i);
    StampIsPosition(lib, log, Parent(log, i));
  }

  function Root(log: seq<Entry>, i: nat): (r: nat)
    requires Forest(log) && i < |log| && !log[i].Deleted?
    ensures r <= i && log[r].Created?
  {
    if log[i].Updated? then Root(log, Parent(log, i)) else i
  }

  ghost predicate OnPath(log: seq<Entry>, j: nat, i: nat)
    requires Forest(log) && i < |log| && !log[i].Deleted?
  {
    j == i || (log[i].Updated? && OnPath(log, j, Parent(log, i)))
  }

  predicate ChangesSpec(e: Entry) {
    e.Updated? && e.view.MainView? && !SpecEqual(e.submitted.spec, e.base.spec)
  }

  /** The number of spec-changing edges from version i up to its create. */
  function SpecEdits(log: seq<Entry>, i: nat): (n: nat)
    requires Forest(log) && i < |log| && !log[i].Deleted?
    ensures n <= i
  {
    if log[i].Updated?
    then SpecEdits(log, Parent(log, i)) + if ChangesSpec(log[i]) then 1 else 0
    else 0
  }

  lemma GenerationStep(lib: Library, log: seq<Entry>, i: nat)
    requires LawfulLog(lib, log) && i < |log| && !log[i].Deleted?
    ensures log[i].task.meta.generation ==
            if log[i].Created? then 1
            else if ChangesSpec(log[i]) then IncInt64(log[i].base.meta.generation)
            else log[i].base.meta.generation
  {
    EntryAt(lib, log, i);
  }

  /** Generation is 1 plus the number of spec edits on the version's own history, as an int64. */
  lemma {:induction false} GenerationCountsEdits(lib: Library, log: seq<Entry>, i: nat)
    requires LawfulLog(lib, log) && Forest(log) && i < |log| && !log[i].Deleted?
    ensures log[i].task.meta.generation == WrapInt64(1 + SpecEdits(log, i))
  {
    GenerationStep(lib, log, i);
    if log[i].Updated? {
      var p := Parent(log, i);
      GenerationCountsEdits(lib, log, p);
      WrapStep(1 + SpecEdits(log, p));
    } else {
      WrapSmall(1);
    }
  }

  lemma {:induction false} SameEditsSameSpec(lib: Library, log: seq<Entry>, j: nat, i: nat)
    requires LawfulLog(lib, log) && Forest(log)
    requires i < |log| && !log[i].Deleted? && OnPath(log, j, i)
    ensures j <= i && !log[j].Deleted? && log[j].key == log[i].key
    ensures SpecEdits(log, j) <= SpecEdits(log, i)
    ensures SpecEdits(log, j) == SpecEdits(log, i) ==> SpecEqual(log[j].task.spec, log[i].task.spec)
  {
    if j != i {
      EntryAt(lib, log, i);
      var p := Parent(log, i);
      SameEditsSameSpec(lib, log, j, p);
      SpecEqualIsEquality(log[j].task.spec, log[p].task.spec);
      SpecEqualIsEquality(log[p].task.spec, log[i].task.spec);
      SpecEqualIsEquality(log[j].task.spec, log[i].task.spec);
    }
  }

  /** Two versions on one path with the same generation have the same spec, up to nil-versus-
      empty slices. No bound on generations is needed: a path is too short to come round. */
  lemma SameGenerationSameSpec(lib: Library, log: seq<Entry>, j: nat, i: nat)
    requires LawfulLog(lib, log) && Forest(log)
    requires i < |log| && !log[i].Deleted? && OnPath(log, j, i)
    ensures j <= i && !log[j].Deleted?
    ensures log[j].task.meta.generation == log[i].task.meta.generation ==>
              SpecEqual(log[j].task.spec, log[i].task.spec)
  {
    SameEditsSameSpec(lib, log, j, i);
    GenerationCountsEdits(lib, log, j);
    GenerationCountsEdits(lib, log, i);
    if log[j].task.meta.generation == log[i].task.meta.generation {
      LengthBound(lib, log);
      WrapInjective(1 + SpecEdits(log, j), 1 + SpecEdits(log, i));
    }
  }

  /** Every version with fewer than 2^63 - 1 spec edits behind it satisfies the object invariant,
      whichever views wrote it and however the writers interleaved. */
  lemma {:induction false} VersionsAreWellFormed(lib: Library, log: seq<Entry>, i: nat)
    requires Lawful(lib) && LawfulLog(lib, log) && Forest(log) && i < |log| && !log[i].Deleted?
    requires SpecEdits(log, i) < MAX_INT64
    ensures WellFormed(lib, log[i].task)
    ensures log[i].task.meta.generation == 1 + SpecEdits(log, i)
  {
    EntryAt(lib, log, i);
    GenerationCountsEdits(lib, log, i);
    WrapSmall(1 + SpecEdits(log, i));
    if log[i].Created? {
      CreateIsWellFormed(lib, log[i].submitted);
    } else {
      var p := Parent(log, i);
      VersionsAreWellFormed(lib, log, p);
      UpdateIsWellFormedIff(lib, log[i].view, log[i].submitted, log[i].base);
    }
  }

  /** Name, namespace and UID never change along a path. Hence a version sits under its own name
      exactly when the create it descends from was filed under its own name. */
  lemma {:induction false} IdentityOfRoot(lib: Library, log: seq<Entry>, i: nat)
    requires LawfulLog(lib, log) && Forest(log) && i < |log| && !log[i].Deleted?
    ensures var r := Root(log, i);
            && r <= i && log[r].Created? && log[r].key == log[i].key
            && log[i].task.meta.uid == log[r].submitted.meta.uid
            && OwnKey(log[i].task) == OwnKey(log[r].submitted)
  {
    EntryAt(lib, log, i);
    if log[i].Updated? {
      IdentityOfRoot(lib, log, Parent(log, i));
      var p := PrepareForUpdate(log[i].view, log[i].submitted, log[i].base);
      assert ImmutableMetaErrors(p.meta, log[i].base.meta) == [];
    }
  }

  /** The server never assigns a UID twice. */
  ghost predicate FreshUids(log: seq<Entry>) {
    forall a, b :: 0 <= a < b < |log| && log[a].Created? && log[b].Created? ==>
      log[a].submitted.meta.uid != log[b].submitted.meta.uid
  }

  /** With UIDs from a fresh supply, a UID names one incarnation: versions that share it descend
      from the same create. */
  lemma UidNamesIncarnation(lib: Library, log: seq<Entry>, i: nat, j: nat)
    requires LawfulLog(lib, log) && Forest(log) && FreshUids(log)
    requires i < |log| && !log[i].Deleted? && j < |log| && !log[j].Deleted?
    ensures log[i].task.meta.uid == log[j].task.meta.uid <==> Root(log, i) == Root(log, j)
  {
    IdentityOfRoot(lib, log, i);
    IdentityOfRoot(lib, log, j);
  }

  // --- Serial journals ---

  /** No writer was overtaken: each update and delete replaced the very version it had read. */
  ghost predicate SerialLog(log: seq<Entry>) {
    log == [] ||
    (SerialLog(Front(log)) &&
     (Last(log).Created? || Lookup(Replay(Front(log)), Last(log).key) == Some(Last(log).base)))
  }

  lemma SerialAt(log: seq<Entry>, i: nat)
    requires SerialLog(log) && i < |log|
    ensures SerialLog(log[..i])
    ensures log[i].Created? || Lookup(Replay(log[..i]), log[i].key) == Some(log[i].base)
  {
    if i < |log| - 1 {
      SerialAt(Front(log), i);
      assert Front(log)[..i] == log[..i];
    }
  }

  lemma ReplayAt(log: seq<Entry>, m: nat)
    requires m < |log|
    ensures Replay(log[..m + 1]) == ReplayEntry(Replay(log[..m]), log[m])
  {
    assert Front(log[..m + 1]) == log[..m] && Last(log[..m + 1]) == log[m];
  }

  ghost predicate InPosition(log: seq<Entry>) {
    forall i :: 0 <= i < |log| && !log[i].Deleted? ==> IndexOf(log[i].task) == i
  }

  lemma LawfulIsInPosition(lib: Library, log: seq<Entry>)
    requires LawfulLog(lib, log)
    ensures InPosition(log)
  {
    forall i | 0 <= i < |log| && !log[i].Deleted?
      ensures IndexOf(log[i].task) == i
    {
      StampIsPosition(lib, log, i);
    }
  }

  /** After entry i, its key holds something written at i or later, until it is deleted. */
  lemma {:induction false} NothingOlderRemains(log: seq<Entry>, i: nat, n: nat)
    requires InPosition(log) && i < n <= |log|
    requires log[i].key in Replay(log[..n])
    ensures IndexOf(Replay(log[..n])[log[i].key]) >= i
    ensures log[i].Deleted? ==> IndexOf(Replay(log[..n])[log[i].key]) > i
  {
    var m := n - 1;
    ReplayAt(log, m);
    if log[m].key != log[i].key {
      NothingOlderRemains(log, i, m);
    }
  }

  /** Each version is consumed by at most one successful update or delete. */
  ghost predicate NoLostUpdate(log: seq<Entry>) {
    forall i, j :: 0 <= i < j < |log| && !log[i].Created? && !log[j].Created? ==>
      log[i].base.meta.resourceVersion != log[j].base.meta.resourceVersion
  }

  lemma SerialHasNoLostUpdate(lib: Library, log: seq<Entry>)
    requires LawfulLog(lib, log) && SerialLog(log)
    ensures NoLostUpdate(log)
  {
    forall i, j | 0 <= i < j < |log| && !log[i].Created? && !log[j].Created?
      ensures log[i].base.meta.resourceVersion != log[j].base.meta.resourceVersion
    {
      EntryAt(lib, log, i);
      EntryAt(lib, log, j);
      SerialAt(log, j);
      if log[i].base.meta.resourceVersion == log[j].base.meta.resourceVersion {
        assert log[i].key == log[j].key;
        LawfulIsInPosition(lib, log);
        NothingOlderRemains(log, i, j);
        assert false;
      }
    }
  }

  /** In a serial journal a version is current until an entry consumes it. */
  lemma {:induction false} CurrentOrConsumed(lib: Library, log: seq<Entry>, p: nat) returns (m: nat)
    requires LawfulLog(lib, log) && SerialLog(log) && p < |log| && !log[p].Deleted?
    ensures Lookup(Replay(log), log[p].key) == Some(log[p].task)
         || (p < m < |log| && !log[m].Created? && log[m].base == log[p].task)
  {
    m := p;
    if p < |log| - 1 {
      m := CurrentOrConsumed(lib, Front(log), p);
      if Lookup(Replay(Front(log)), log[p].key) == Some(log[p].task) && Last(log).key == log[p].key {
        m := |log| - 1;
      }
    }
  }

  /** Exactly when optimistic concurrency does its job: every version is consumed at most once
      if and only if no writer was overtaken between its read and its write. */
  lemma {:induction false} NoLostUpdateIffSerial(lib: Library, log: seq<Entry>)
    requires LawfulLog(lib, log)
    ensures NoLostUpdate(log) <==> SerialLog(log)
  {
    if SerialLog(log) {
      SerialHasNoLostUpdate(lib, log);
    } else {
      NoLostUpdateIffSerial(lib, Front(log));
      if SerialLog(Front(log)) {
        var base := Last(log).base;
        var m := CurrentOrConsumed(lib, Front(log), IndexOf(base));
        assert log[m].base == base && !log[m].Created?;
      } else {
        var i, j :| 0 <= i < j < |Front(log)| && !Front(log)[i].Created? && !Front(log)[j].Created?
                    && Front(log)[i].base.meta.resourceVersion == Front(log)[j].base.meta.resourceVersion;
        assert log[i] == Front(log)[i] && log[j] == Front(log)[j];
      }
    }
  }

  /** Successful writes to one key form a chain: between a version and the write that consumed
      it, nothing happened to the key. */
  lemma SerialWritesChain(lib: Library, log: seq<Entry>, j: nat, m: nat)
    requires LawfulLog(lib, log) && SerialLog(log) && j < |log| && !log[j].Created?
    requires IndexOf(log[j].base) < m < j
    ensures log[m].key != log[j].key
  {
    SerialAt(log, j);
    if log[m].key == log[j].key {
      LawfulIsInPosition(lib, log);
      NothingOlderRemains(log, m, j);
    }
  }

  /** No ABA: a version read before a delete is never accepted against an object created
      afterwards under the same key. */
  lemma DeletedVersionsStayDead(lib: Library, log: seq<Entry>, d: nat, j: nat)
    requires LawfulLog(lib, log) && SerialLog(log) && d < j < |log|
    requires log[d].Deleted? && !log[j].Created? && log[j].key == log[d].key
    ensures RVOf(log[j].base) > d + 1
  {
    SerialAt(log, j);
    LawfulIsInPosition(lib, log);
    NothingOlderRemains(log, d, j);
  }

  /** In a serial journal a write meets its preconditions at the moment it takes effect: what an
      update replaced and what a delete removed is what the client asked for, by version and by
      UID. */
  lemma PreconditionsHoldAtTheWrite(lib: Library, log: seq<Entry>, i: nat)
    requires LawfulLog(lib, log) && SerialLog(log) && i < |log| && !log[i].Created?
    ensures log[i].key in Replay(log[..i])
    ensures PreconditionsHold(Replay(log[..i])[log[i].key], log[i].pre)
    ensures log[i].Deleted? ==> PreconditionsHold(log[i].removed, log[i].pre)
  {
    EntryAt(lib, log, i);
    SerialAt(log, i);
  }

  /** A version stays at its key until the key is written again. */
  lemma {:induction false} UnwrittenRemains(log: seq<Entry>, p: nat, n: nat)
    requires p < n <= |log| && !log[p].Deleted?
    requires forall m :: p < m < n ==> log[m].key != log[p].key
    ensures Lookup(Replay(log[..n]), log[p].key) == Some(log[p].task)
  {
    ReplayAt(log, n - 1);
    if p < n - 1 {
      UnwrittenRemains(log, p, n - 1);
    }
  }

  /** What write i meets at its key is what it had read exactly if nothing wrote the key since. */
  lemma MeetsItsBaseIff(lib: Library, log: seq<Entry>, i: nat)
    requires LawfulLog(lib, log) && i < |log| && !log[i].Created?
    ensures log[i].key in Replay(log[..i])
    ensures IndexOf(Replay(log[..i])[log[i].key]) == IndexOf(log[i].base)
       <==> forall m :: IndexOf(log[i].base) < m < i ==> log[m].key != log[i].key
  {
    EntryAt(lib, log, i);
    LawfulIsInPosition(lib, log);
    var p := IndexOf(log[i].base);
    if forall m :: p < m < i ==> log[m].key != log[i].key {
      UnwrittenRemains(log, p, i);
    } else {
      var m :| p < m < i && log[m].key == log[i].key;
      NothingOlderRemains(log, m, i);
    }
  }

  /** What write i meets at its key is a version, of the incarnation it read or of a later one. */
  lemma MeetsAVersion(lib: Library, log: seq<Entry>, i: nat)
    requires LawfulLog(lib, log) && i < |log| && !log[i].Created?
    ensures log[i].key in Replay(log[..i])
    ensures IsVersion(log, log[i].key, Replay(log[..i])[log[i].key])
    ensures IsVersion(log, log[i].key, log[i].base) && PreconditionsHold(log[i].base, log[i].pre)
  {
    EntryAt(lib, log, i);
    ReplayHoldsVersions(lib, log[..i], log[i].key);
  }

  /** Serial or not, exactly when a write meets its preconditions at the moment it takes effect. A
      UID precondition holds then if what the write meets is of the incarnation it had read, a
      version precondition if nothing wrote the key in between. */
  lemma PreconditionsHoldIff(lib: Library, log: seq<Entry>, i: nat)
    requires LawfulLog(lib, log) && Forest(log) && FreshUids(log) && i < |log| && !log[i].Created?
    ensures var key, base, pre := log[i].key, log[i].base, log[i].pre;
            && key in Replay(log[..i])
            && var met := Replay(log[..i])[key];
            && IsVersion(log, key, met) && IsVersion(log, key, base)
            && (PreconditionsHold(met, pre) <==>
                  pre.None? ||
                  (&& (pre.value.uid.Some? ==> Root(log, IndexOf(met)) == Root(log, IndexOf(base)))
                   && (pre.value.resourceVersion.Some? ==>
                         forall m :: IndexOf(base) < m < i ==> log[m].key != key)))
  {
    MeetsAVersion(lib, log, i);
    MeetsItsBaseIff(lib, log, i);
    var met, base := Replay(log[..i])[log[i].key], log[i].base;
    UidNamesIncarnation(lib, log, IndexOf(met), IndexOf(base));
  }

  // --- The two views ---

  function Only(log: seq<Entry>, view: View): seq<Entry> {
    if log == [] then []
    else if Last(log).Updated? && Last(log).view != view then Only(Front(log), view)
    else Only(Front(log), view) + [Last(log)]
  }

  /** The spec and generation at key, from submitted objects alone. */
  function SpecFold(log: seq<Entry>, key: Key): Option<(Spec, Int64)> {
    if log == [] then None
    else if Last(log).key != key then SpecFold(Front(log), key)
    else match Last(log)
      case Created(_, submitted, _, _) => Some((submitted.spec, 1))
      case Deleted(_, _, _, _, _) => None
      case Updated(_, _, _, _, submitted, _, _) =>
        match SpecFold(Front(log), key)
        case None => None
        case Some((spec, g)) =>
          Some((submitted.spec, if SpecEqual(submitted.spec, spec) then g else IncInt64(g)))
  }

  /** The status at key, from submitted objects alone. */
  function StatusFold(log: seq<Entry>, key: Key): Option<Status> {
    if log == [] then None
    else if Last(log).key != key then StatusFold(Front(log), key)
    else match Last(log)
      case Created(_, _, _, _) => Some(EMPTY_STATUS)
      case Deleted(_, _, _, _, _) => None
      case Updated(_, _, _, _, submitted, _, _) => Some(submitted.status)
  }

  /** Which halves of a stored task come from the client and which from the version it replaces. */
  predicate WritesOwnHalf(e: Entry) {
    match e
    case Created(_, submitted, task, _) =>
      task.spec == submitted.spec && task.meta.generation == 1 && task.status == EMPTY_STATUS
    case Updated(_, MainView, _, base, submitted, task, _) =>
      && task.spec == submitted.spec && task.status == base.status
      && task.meta.generation ==
         if SpecEqual(submitted.spec, base.spec) then base.meta.generation else IncInt64(base.meta.generation)
    case Updated(_, StatusView, _, base, submitted, task, _) =>
      task.spec == base.spec && task.status == submitted.status && task.meta.generation == base.meta.generation
    case Deleted(_, _, _, _, _) => true
  }

  lemma EntriesWriteOwnHalf(lib: Library, prior: seq<Entry>, e: Entry)
    requires EntryOk(lib, prior, e)
    ensures WritesOwnHalf(e)
  {}

  function SpecAt(items: map<Key, Task>, key: Key): Option<(Spec, Int64)> {
    if key in items then Some((items[key].spec, items[key].meta.generation)) else None
  }

  function StatusAt(items: map<Key, Task>, key: Key): Option<Status> {
    if key in items then Some(items[key].status) else None
  }

  lemma OnlyStep(log: seq<Entry>, view: View)
    requires log != []
    ensures var kept := Only(log, view);
            if Last(log).Updated? && Last(log).view != view then kept == Only(Front(log), view)
            else kept != [] && Front(kept) == Only(Front(log), view) && Last(kept) == Last(log)
  {}

  lemma SpecFoldStep(log: seq<Entry>, key: Key)
    requires log != [] && WritesOwnHalf(Last(log))
    requires Last(log).Created? || Lookup(Replay(Front(log)), Last(log).key) == Some(Last(log).base)
    requires SpecFold(Only(Front(log), MainView), key) == SpecAt(Replay(Front(log)), key)
    ensures SpecFold(Only(log, MainView), key) == SpecAt(Replay(log), key)
  {
    OnlyStep(log, MainView);
  }

  lemma StatusFoldStep(log: seq<Entry>, key: Key)
    requires log != [] && WritesOwnHalf(Last(log))
    requires Last(log).Created? || Lookup(Replay(Front(log)), Last(log).key) == Some(Last(log).base)
    requires StatusFold(Only(Front(log), StatusView), key) == StatusAt(Replay(Front(log)), key)
    ensures StatusFold(Only(log, StatusView), key) == StatusAt(Replay(log), key)
  {
    OnlyStep(log, StatusView);
  }

  /** Spec and generation are the fold of creates, deletes and main-resource updates alone,
      whatever the status writers submitted in between. */
  lemma {:induction false} SpecIgnoresStatusWrites(lib: Library, log: seq<Entry>, key: Key)
    requires LawfulLog(lib, log) && SerialLog(log)
    ensures SpecFold(Only(log, MainView), key) == SpecAt(Replay(log), key)
  {
    if log != [] {
      SpecIgnoresStatusWrites(lib, Front(log), key);
      EntriesWriteOwnHalf(lib, Front(log), Last(log));
      SpecFoldStep(log, key);
    }
  }

  /** Status is the fold of creates, deletes and /status updates alone, whatever the spec
      writers submitted in between. */
  lemma {:induction false} StatusIgnoresSpecWrites(lib: Library, log: seq<Entry>, key: Key)
    requires LawfulLog(lib, log) && SerialLog(log)
    ensures StatusFold(Only(log, StatusView), key) == StatusAt(Replay(log), key)
  {
    if log != [] {
      StatusIgnoresSpecWrites(lib, Front(log), key);
      EntriesWriteOwnHalf(lib, Front(log), Last(log));
      StatusFoldStep(log, key);
    }
  }
}
