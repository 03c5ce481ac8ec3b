/** Tasks in memory. A Go struct is a datatype: assigning it copies the fields and shares whatever
    they refer to. A pointer to a struct is a class with one field. Slices are arrays and the
    label map is an object, so aliasing is visible. The deep copies are those of
    pkg/apis/tasks/v1alpha1/zz_generated.deepcopy.go. */
module TaskHeap {
  import opened TaskTypes

  class LabelMap {
    var entries: map<string, string>

    constructor (entries: map<string, string>)
      ensures this.entries == entries
    {
      this.entries := entries;
    }
  }

  datatype MetaStruct = MetaStruct(
    name: string, namespace: string, uid: string, resourceVersion: string,
    generation: Int64, labels: LabelMap?)

  datatype SpecStruct = SpecStruct(image: string, command: array?<string>, args: array?<string>)

  datatype StatusStruct = StatusStruct(phase: string, conditions: array?<Condition>, observedGeneration: Int64)

  datatype TaskStruct = TaskStruct(meta: MetaStruct, spec: SpecStruct, status: StatusStruct)

  class TaskObject {
    var v: TaskStruct

    constructor (v: TaskStruct)
      ensures this.v == v
    {
      this.v := v;
    }
  }

  class TaskListObject {
    var resourceVersion: string
    var items: array?<TaskStruct>

    constructor (resourceVersion: string, items: array?<TaskStruct>)
      ensures this.resourceVersion == resourceVersion && this.items == items
    {
      this.resourceVersion, this.items := resourceVersion, items;
    }
  }

  // --- What a struct refers to, and the value it stands for ---

  ghost function MetaRefs(m: MetaStruct): set<object> {
    if m.labels == null then {} else {m.labels}
  }

  ghost function SpecRefs(s: SpecStruct): set<object> {
    (if s.command == null then {} else {s.command}) + (if s.args == null then {} else {s.args})
  }

  ghost function StatusRefs(s: StatusStruct): set<object> {
    if s.conditions == null then {} else {s.conditions}
  }

  ghost function Refs(t: TaskStruct): set<object> {
    var all: set<object?> := {t.meta.labels, t.spec.command, t.spec.args, t.status.conditions};
    set o: object | o in all
  }

  /** Everything a Task in memory consists of: the struct itself and all it refers to. */
  ghost function Footprint(p: TaskObject): set<object>
    reads p
  {
    {p} + Refs(p.v)
  }

  /** What a struct refers to is slices and labels, never a Task. */
  lemma TasksAreNotParts(p: TaskObject, t: TaskStruct)
    ensures p !in Refs(t)
  {}

  function SliceValue<T>(a: array?<T>): Slice<T>
    reads a
  {
    if a == null then Nil else Of(a[..])
  }

  function MetaValue(m: MetaStruct): Meta
    reads m.labels
  {
    Meta(m.name, m.namespace, m.uid, m.resourceVersion, m.generation,
         if m.labels == null then None else Some(m.labels.entries))
  }

  function SpecValue(s: SpecStruct): Spec
    reads s.command, s.args
  {
    Spec(s.image, SliceValue(s.command), SliceValue(s.args))
  }

  function StatusValue(s: StatusStruct): Status
    reads s.conditions
  {
    Status(s.phase, SliceValue(s.conditions), s.observedGeneration)
  }

  function TaskValue(t: TaskStruct): Task
    reads Refs(t)
  {
    Task(MetaValue(t.meta), SpecValue(t.spec), StatusValue(t.status))
  }

  function ObjectValue(p: TaskObject): Task
    reads Footprint(p)
  {
    TaskValue(p.v)
  }

  // --- Deep copies ---

  method DeepCopyMeta(m: MetaStruct) returns (out: MetaStruct)
    ensures fresh(MetaRefs(out)) && MetaValue(out) == MetaValue(m)
  {
    out := m;
    if m.labels != null {
      var labels := new LabelMap(m.labels.entries);
      out := out.(labels := labels);
    }
  }

  method CopyStrings(a: array?<string>) returns (out: array?<string>)
    ensures out != null ==> fresh(out)
    ensures SliceValue(out) == SliceValue(a)
  {
    out := a;
    if a != null {
      out := new string[a.Length];
      forall i | 0 <= i < a.Length {
        out[i] := a[i];
      }
      assert out[..] == a[..];
    }
  }

  method DeepCopySpec(s: SpecStruct) returns (out: SpecStruct)
    ensures fresh(SpecRefs(out)) && SpecValue(out) == SpecValue(s)
    ensures out.command != null ==> out.command != out.args
  {
    out := s;
    var command := CopyStrings(s.command);
    out := out.(command := command);
    var args := CopyStrings(s.args);
    out := out.(args := args);
  }

  method DeepCopyStatus(s: StatusStruct) returns (out: StatusStruct)
    ensures fresh(StatusRefs(out)) && StatusValue(out) == StatusValue(s)
  {
    out := s;
    if s.conditions != null {
      var conditions := new Condition[s.conditions.Length];
      for i := 0 to s.conditions.Length
        invariant conditions[..i] == s.conditions[..i]
      {
        conditions[i] := s.conditions[i];
      }
      assert conditions[..] == s.conditions[..];
      out := out.(conditions := conditions);
    }
  }

  method DeepCopyStruct(t: TaskStruct) returns (out: TaskStruct)
    ensures fresh(Refs(out)) && TaskValue(out) == TaskValue(t)
  {
    out := t;
    var meta := DeepCopyMeta(t.meta);
    out := out.(meta := meta);
    var spec := DeepCopySpec(t.spec);
    out := out.(spec := spec);
    var status := DeepCopyStatus(t.status);
    out := out.(status := status);
  }

  /** The copy is new in every part and equal in every field, nil or empty slices included. */
  method DeepCopy(p: TaskObject) returns (out: TaskObject)
    ensures fresh(Footprint(out)) && ObjectValue(out) == ObjectValue(p)
  {
    var v := DeepCopyStruct(p.v);
    out := new TaskObject(v);
  }

  ghost predicate SameValues(values: seq<Task>, b: seq<TaskStruct>)
    reads set t, o | t in b && o in Refs(t) :: o
  {
    |values| == |b| && forall i :: 0 <= i < |b| ==> TaskValue(b[i]) == values[i]
  }

  /** The structs of b share nothing with each other and consist of objects in made. */
  ghost predicate Separate(b: seq<TaskStruct>, made: set<object>) {
    && (forall i :: 0 <= i < |b| ==> Refs(b[i]) <= made)
    && (forall i, j :: 0 <= i < j < |b| ==> Refs(b[i]) !! Refs(b[j]))
  }

  lemma ExtendCopies(values: seq<Task>, b: seq<TaskStruct>, made: set<object>, t: TaskStruct)
    requires |b| < |values| && SameValues(values[..|b|], b) && TaskValue(t) == values[|b|]
    requires Separate(b, made) && Refs(t) !! made
    ensures SameValues(values[..|b| + 1], b + [t]) && Separate(b + [t], made + Refs(t))
  {}

  method DeepCopyNext(t: TaskStruct, ghost values: seq<Task>, ghost copies: seq<TaskStruct>, ghost made: set<object>)
    returns (copy: TaskStruct)
    requires |copies| < |values| && SameValues(values[..|copies|], copies) && Separate(copies, made)
    requires TaskValue(t) == values[|copies|]
    ensures fresh(Refs(copy)) && Separate(copies + [copy], made + Refs(copy))
    ensures SameValues(values[..|copies| + 1], copies + [copy])
  {
    copy := DeepCopyStruct(t);
    ExtendCopies(values, copies, made, copy);
  }

  method DeepCopyItems(items: array<TaskStruct>, ghost values: seq<Task>)
    returns (out: array<TaskStruct>, ghost made: set<object>)
    requires SameValues(values, items[..])
    ensures fresh(out) && fresh(made) && Separate(out[..], made) && SameValues(values, out[..])
  {
    out := new TaskStruct[items.Length](_ => ZERO_TASK);
    ghost var copies: seq<TaskStruct> := [];
    made := {};
    for i := 0 to items.Length
      invariant out[..i] == copies && fresh(made) && out !in made
      invariant Separate(copies, made) && SameValues(values[..i], copies)
    {
      assert TaskValue(items[i]) == values[i];
      var copy := DeepCopyNext(items[i], values, copies, made);
      copies, made := copies + [copy], made + Refs(copy);
      ghost var same := SameValues(values[..i + 1], copies);
      out[i] := copy;
      assert SameValues(values[..i + 1], copies) == same;
    }
    assert out[..] == copies && values[..items.Length] == values;
  }

  ghost function Values(b: seq<TaskStruct>): (values: seq<Task>)
    reads set t, o | t in b && o in Refs(t) :: o
    ensures SameValues(values, b)
  {
    seq(|b|, i requires 0 <= i < |b| reads if 0 <= i < |b| then Refs(b[i]) else {} => TaskValue(b[i]))
  }

  /** The same for a list: nil items stay nil, and no two items of the copy share anything. */
  method DeepCopyList(l: TaskListObject) returns (out: TaskListObject, ghost made: set<object>)
    ensures fresh(out) && fresh(made) && out.resourceVersion == l.resourceVersion
    ensures (out.items == null) == (l.items == null)
    ensures l.items != null ==>
              fresh(out.items) && Separate(out.items[..], made) && SameValues(Values(l.items[..]), out.items[..])
  {
    var items := l.items;
    made := {};
    if l.items != null {
      items, made := DeepCopyItems(l.items, Values(l.items[..]));
    }
    out := new TaskListObject(l.resourceVersion, items);
  }

  const ZERO_TASK := TaskStruct(
    MetaStruct("", "", "", "", 0, null), SpecStruct("", null, null), StatusStruct("", null, 0))

  // --- What clients do with Tasks ---

  /** What clients can reach: the Tasks they hold, and all the memory they could ever write to. */
  datatype Reach = Reach(held: set<TaskObject>, memory: set<object>)

  /** Every Task held consists of memory within reach. */
  ghost predicate Sound(reach: Reach)
    reads reach.memory
  {
    match reach case Reach(held, memory) => forall p :: p in held ==> p in memory && Footprint(p) <= memory
  }

  ghost predicate Has(reach: Reach, ps: seq<TaskObject>) {
    forall p :: p in ps ==> p in reach.held
  }

  ghost predicate Covers(reach': Reach, reach: Reach) {
    reach.held <= reach'.held && reach.memory <= reach'.memory
  }

  /** Clients lose nothing, and gain new memory only. */
  twostate predicate Widened(reach: Reach, new reach': Reach) {
    match reach' case Reach(_, memory) =>
      Covers(reach', reach) && forall o :: o in memory ==> o in reach.memory || fresh(o)
  }

  ghost function Holding(reach: Reach, p: TaskObject): Reach
    reads p
  {
    Reach(reach.held + {p}, reach.memory + Footprint(p))
  }

  /** A callback is shown a copy, which its client may keep. */
  method ShowCopy(p: TaskObject, ghost reach: Reach) returns (copy: TaskObject, ghost reach': Reach)
    requires Sound(reach)
    ensures fresh(Footprint(copy)) && ObjectValue(copy) == ObjectValue(p)
    ensures reach' == Holding(reach, copy) && Sound(reach')
  {
    copy := DeepCopy(p);
    reach' := Holding(reach, copy);
  }

  /** A slice that says s: the given one if it does, whoever else uses it, else a new one. */
  method SliceSaying<T(==)>(a: array?<T>, s: Slice<T>, zero: T) returns (out: array?<T>)
    ensures SliceValue(out) == s
    ensures if SliceValue(a) == s then out == a else out != null ==> fresh(out)
  {
    out := a;
    if SliceValue(a) != s {
      out := MaterializeSlice(s, zero);
    }
  }

  method LabelsSaying(m: LabelMap?, labels: Option<map<string, string>>) returns (out: LabelMap?)
    ensures (if out == null then None else Some(out.entries)) == labels
    ensures if (if m == null then None else Some(m.entries)) == labels then out == m else out != null ==> fresh(out)
  {
    out := m;
    if (if m == null then None else Some(m.entries)) != labels {
      out := null;
      if labels.Some? {
        out := new LabelMap(labels.value);
      }
    }
  }

  /** A struct that says t. The parts of v that say it already stay, shared or not; the others
      are replaced by new ones. */
  method StructSaying(v: TaskStruct, t: Task) returns (out: TaskStruct)
    ensures TaskValue(out) == t && forall o :: o in Refs(out) ==> o in Refs(v) || fresh(o)
    ensures TaskValue(v) == t ==> out == v
  {
    var labels := LabelsSaying(v.meta.labels, t.meta.labels);
    var command := SliceSaying(v.spec.command, t.spec.command, "");
    var args := SliceSaying(v.spec.args, t.spec.args, "");
    var conditions := SliceSaying(v.status.conditions, t.status.conditions, Condition("", "", 0, 0, "", ""));
    out := TaskStruct(
      MetaStruct(t.meta.name, t.meta.namespace, t.meta.uid, t.meta.resourceVersion, t.meta.generation, labels),
      SpecStruct(t.spec.image, command, args),
      StatusStruct(t.status.phase, conditions, t.status.observedGeneration));
  }

  /** A client makes p say t. */
  method Rewrite(p: TaskObject, t: Task)
    modifies p
    ensures ObjectValue(p) == t && forall o :: o in Refs(p.v) ==> o in old(Refs(p.v)) || fresh(o)
    ensures old(ObjectValue(p)) == t ==> p.v == old(p.v)
  {
    var v := StructSaying(p.v, t);
    p.v := v;
  }

  /** A new object with the given value, sharing nothing with anything. */
  method Materialize(t: Task) returns (out: TaskObject)
    ensures fresh(Footprint(out)) && ObjectValue(out) == t
  {
    out := new TaskObject(ZERO_TASK);
    Rewrite(out, t);
  }

  method MaterializeSlice<T>(s: Slice<T>, zero: T) returns (a: array?<T>)
    ensures a != null ==> fresh(a)
    ensures SliceValue(a) == s
  {
    a := null;
    if s.Of? {
      a := new T[|s.elems|](i requires 0 <= i < |s.elems| => s.elems[i]);
      assert a[..] == s.elems;
    }
  }
}
