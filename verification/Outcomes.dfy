/** How each request ends, told from what its caller chose and what is stored, and not through the
    functions that the registry is composed of. Each lemma gives the exact condition of every
    answer and the whole effect on the store. */
module Outcomes {
  import opened TaskTypes
  import opened ResourceVersion
  import opened Strategy
  import opened StoreSpec
  import opened RegistrySpec

  function Elements<T>(s: Slice<T>): seq<T> {
    match s case Nil => [] case Of(elems) => elems
  }

  /** Specs that differ at most in nil against empty slices. */
  predicate SameSpec(a: Spec, b: Spec) {
    a.image == b.image && Elements(a.command) == Elements(b.command) && Elements(a.args) == Elements(b.args)
  }

  /** The client's preconditions hold of what is stored; those it leaves out always do. */
  predicate Meets(t: Task, pre: Option<Preconditions>) {
    match pre
    case None => true
    case Some(p) =>
      && (match p.uid case None => true case Some(uid) => t.meta.uid == uid)
      && (match p.resourceVersion case None => true case Some(rv) => t.meta.resourceVersion == rv)
  }

  // --- What is stored, but for its version, and when it is acceptable ---

  /** A new Task is what the client submitted, with the server's UID, generation 1 and no status. */
  function NewTask(obj: Task, uid: string): Task {
    Task(obj.meta.(uid := uid, generation := 1), obj.spec, Status("", Nil, 0))
  }

  predicate AcceptableNew(lib: Library, t: Task) {
    lib.metaErrors(t.meta) == [] && t.spec.image != ""
  }

  /** A changed Task is what the client submitted, but for the half of the other view and the
      generation, which goes up with the spec through the main view and wraps as an int64. */
  function ChangedTask(view: View, obj: Task, oldTask: Task): Task {
    var before := oldTask.meta.generation;
    match view
    case MainView =>
      var g := if SameSpec(obj.spec, oldTask.spec) then before
               else if before == 0x7FFF_FFFF_FFFF_FFFF then -0x8000_0000_0000_0000 else before + 1;
      Task(obj.meta.(generation := g), obj.spec, oldTask.status)
    case StatusView => Task(obj.meta.(generation := before), oldTask.spec, obj.status)
  }

  predicate AcceptableChange(lib: Library, view: View, t: Task, oldTask: Task) {
    && t.meta.name == oldTask.meta.name && t.meta.namespace == oldTask.meta.namespace
    && t.meta.uid == oldTask.meta.uid
    && match view
       case MainView => lib.metaErrors(t.meta) == [] && t.spec.image != ""
       case StatusView =>
         && 0 <= t.status.observedGeneration <= t.meta.generation
         && lib.conditionErrors(Elements(t.status.conditions)) == []
  }

  /** s' is s after t was written at key under the next version, as stored. */
  ghost predicate Writes(s: State, s': State, key: Key, t: Task, stored: Task) {
    var rv := if s.rv == 0xFFFF_FFFF_FFFF_FFFF then 0 else s.rv + 1;
    && stored == t.(meta := t.meta.(resourceVersion := FormatRV(rv)))
    && s' == State(s.items[key := stored], rv)
  }

  // --- The answers ---

  /** The client's obj is to be created at key: it is refused as invalid, by admission or because
      the key is taken, in this order, or is stored. */
  ghost predicate CreationEnds(lib: Library, s: State, s': State, r: Response,
                               key: Key, obj: Task, uid: string, admit: Task -> bool) {
    var t := NewTask(obj, uid);
    && (r == Failed(Invalid) <==> !AcceptableNew(lib, t))
    && (r == Failed(Forbidden) <==> AcceptableNew(lib, t) && !admit(t))
    && (r == Failed(AlreadyExists) <==> AcceptableNew(lib, t) && admit(t) && key in s.items)
    && (r.Object? <==> AcceptableNew(lib, t) && admit(t) && key !in s.items)
    && (r.Object? ==> Writes(s, s', key, t, r.task))
    && (!r.Object? ==> s' == s)
  }

  lemma CreateOutcome(lib: Library, s: State, c: Call)
    requires c.CreateCall?
    ensures var (s', r) := Handle(lib, s, c);
            CreationEnds(lib, s, s', r, Key(c.obj.meta.namespace, c.obj.meta.name), c.obj, c.uid, c.admitCreate)
  {
    ValidationOfNew(lib, FillSystemFields(c.obj, c.uid));
  }

  lemma ValidationOfNew(lib: Library, t: Task)
    ensures BeforeCreate(lib, t).Ok? <==> AcceptableNew(lib, NewTask(t, t.meta.uid))
    ensures BeforeCreate(lib, t).Ok? ==> BeforeCreate(lib, t).value == NewTask(t, t.meta.uid)
    ensures BeforeCreate(lib, t).Err? ==> BeforeCreate(lib, t).error == Invalid
  {}

  /** A request that names no object is a bad request, whatever else it asks. */
  lemma NamelessOutcome(lib: Library, s: State, c: Call)
    requires c.UpdateCall? || c.DeleteCall? || c.GetCall?
    ensures Handle(lib, s, c).1 == Failed(BadRequest) <==> c.name == "" || c.namespace == ""
    ensures c.name == "" || c.namespace == "" ==> Handle(lib, s, c).0 == s
  {}

  /** An update of a missing object is not found, unless it is forced; then it creates, under the
      key of the request, what the client makes of an empty Task. */
  lemma UpdateMissingOutcome(lib: Library, s: State, c: Call)
    requires c.UpdateCall? && c.name != "" && c.namespace != "" && Key(c.namespace, c.name) !in s.items
    ensures var (s', r) := Handle(lib, s, c);
            var empty := Task(Meta("", "", "", "", 0, None), Spec("", Nil, Nil), Status("", Nil, 0));
            && (r == Failed(NotFound) <==> !c.force)
            && (r == Failed(UpdateRejected) <==> c.force && c.updated(empty) == None)
            && (!c.force || c.updated(empty) == None ==> s' == s)
            && (c.force && c.updated(empty).Some? ==>
                  CreationEnds(lib, s, s', r, Key(c.namespace, c.name), c.updated(empty).value, c.uid, c.admitCreate))
  {
    if c.updated(EMPTY_TASK).Some? {
      ValidationOfNew(lib, FillSystemFields(c.updated(EMPTY_TASK).value, c.uid));
    }
  }

  lemma ValidationOfChange(lib: Library, view: View, obj: Task, oldTask: Task)
    ensures BeforeUpdate(lib, view, obj, oldTask).Ok?
       <==> AcceptableChange(lib, view, ChangedTask(view, obj, oldTask), oldTask)
    ensures BeforeUpdate(lib, view, obj, oldTask).Ok? ==>
              BeforeUpdate(lib, view, obj, oldTask).value == ChangedTask(view, obj, oldTask)
    ensures BeforeUpdate(lib, view, obj, oldTask).Err? ==> BeforeUpdate(lib, view, obj, oldTask).error == Invalid
  {
    assert SpecEqual(obj.spec, oldTask.spec) <==> SameSpec(obj.spec, oldTask.spec) by {
      SpecEqualIsEquality(obj.spec, oldTask.spec);
    }
    assert PrepareForUpdate(view, obj, oldTask) == ChangedTask(view, obj, oldTask);
  }

  /** An update through either view of an object that is there. It conflicts exactly if a
      precondition fails or the client names another version or none; it is invalid exactly if the
      changed Task is not acceptable; and when admission agrees too the changed Task is stored. */
  lemma UpdateOutcome(lib: Library, s: State, c: Call)
    requires c.UpdateCall? && c.name != "" && c.namespace != "" && Key(c.namespace, c.name) in s.items
    ensures var (s', r) := Handle(lib, s, c);
            var key := Key(c.namespace, c.name);
            var oldTask := s.items[key];
            && (r == Failed(UpdateRejected) <==> c.updated(oldTask) == None)
            && (!r.Object? ==> s' == s)
            && (c.updated(oldTask).Some? ==>
                  var obj := c.updated(oldTask).value;
                  var t := ChangedTask(c.view, obj, oldTask);
                  var current := && Meets(oldTask, c.pre) && obj.meta.resourceVersion != ""
                                 && obj.meta.resourceVersion == oldTask.meta.resourceVersion;
                  var acceptable := AcceptableChange(lib, c.view, t, oldTask);
                  && (r == Failed(Conflict) <==> !current)
                  && (r == Failed(Invalid) <==> current && !acceptable)
                  && (r == Failed(Forbidden) <==> current && acceptable && !c.admitUpdate(t, oldTask))
                  && (r.Object? <==> current && acceptable && c.admitUpdate(t, oldTask))
                  && (r.Object? ==> Writes(s, s', key, t, r.task)))
  {
    var oldTask := s.items[Key(c.namespace, c.name)];
    if c.updated(oldTask).Some? {
      ValidationOfChange(lib, c.view, c.updated(oldTask).value, oldTask);
    }
  }

  /** A delete: of a missing object it is not found; else it conflicts exactly if a precondition
      fails, is forbidden exactly if admission refuses, and otherwise takes the object out, moves
      the counter and answers the object as it was stored. */
  lemma DeleteOutcome(lib: Library, s: State, c: Call)
    requires c.DeleteCall? && c.name != "" && c.namespace != ""
    ensures var (s', r) := Handle(lib, s, c);
            var key := Key(c.namespace, c.name);
            && (r == Failed(NotFound) <==> key !in s.items)
            && (!r.Object? ==> s' == s)
            && (key in s.items ==>
                  var t := s.items[key];
                  && (r == Failed(Conflict) <==> !Meets(t, c.pre))
                  && (r == Failed(Forbidden) <==> Meets(t, c.pre) && !c.admitDelete(t))
                  && (r == Object(t) <==> Meets(t, c.pre) && c.admitDelete(t))
                  && (r.Object? ==>
                        s' == State(s.items - {key}, if s.rv == 0xFFFF_FFFF_FFFF_FFFF then 0 else s.rv + 1)))
  {}

  lemma GetOutcome(lib: Library, s: State, c: Call)
    requires c.GetCall? && c.name != "" && c.namespace != ""
    ensures var key := Key(c.namespace, c.name);
            Handle(lib, s, c) == (s, if key in s.items then Object(s.items[key]) else Failed(NotFound))
  {}

  /** The labels a selector is shown; a nil map shows none. */
  function LabelsOf(t: Task): map<string, string> {
    match t.meta.labels case None => map[] case Some(m) => m
  }

  /** items are those of all that the List asked for, by namespace, unless it is empty, and label. */
  ghost predicate Answers(c: Call, all: map<Key, Task>, items: map<Key, Task>)
    requires c.ListCall?
  {
    forall k ::
      && (k in items <==>
            k in all && (c.namespace == "" || k.namespace == c.namespace) && c.selector(LabelsOf(all[k])))
      && (k in items ==> items[k] == all[k])
  }

  /** A List answers the objects asked for, under the largest of their versions, or under the
      counter if there are none or none has a version above 0. */
  lemma ListOutcome(lib: Library, s: State, c: Call)
    requires c.ListCall?
    ensures var (s', r) := Handle(lib, s, c);
            && s' == s
            && (r == Failed(Unsupported) <==> c.fieldSelector)
            && (!c.fieldSelector ==>
                  && r.Listed? && Answers(c, s.items, r.items)
                  && exists rv: Uint64 :: r.resourceVersion == FormatRV(rv) && IsListVersion(r.items, rv, s.rv))
  {
    if !c.fieldSelector {
      var matched := Matching(s.items, c.namespace, c.selector);
      assert IsListVersion(matched, ListRV(matched, s.rv), s.rv);
    }
  }

  ghost predicate IsListVersion(items: map<Key, Task>, rv: Uint64, current: Uint64) {
    if exists k :: k in items && ParseRVOrZero(items[k].meta.resourceVersion) > 0
    then && (forall k :: k in items ==> ParseRVOrZero(items[k].meta.resourceVersion) <= rv)
         && (exists k :: k in items && ParseRVOrZero(items[k].meta.resourceVersion) == rv)
    else rv == current
  }
}
