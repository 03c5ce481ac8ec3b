/** What each view of a Task may change (pkg/registry/tasks/task/strategy.go).
    Library stands for the apimachinery validators that the strategy calls. */
module Strategy {
  import opened TaskTypes

  /** The main resource and its /status subresource, two views of one stored object. */
  datatype View = MainView | StatusView

  const ALLOW_CREATE_ON_UPDATE := false
  const ALLOW_UNCONDITIONAL_UPDATE := false

  datatype FieldError =
    | ImageRequired
    | ObservedGenerationNegative
    | ObservedGenerationAhead
    | ImmutableMeta
    | LibraryError(detail: string)

  /** ValidateObjectMeta and ValidateConditions. They are arbitrary functions of the value they
      are given; Lawful says the one thing used about them. */
  datatype Library = Library(
    metaErrors: Meta -> seq<FieldError>,
    conditionErrors: seq<Condition> -> seq<FieldError>)

  /** An empty list of conditions has nothing to complain about. */
  ghost predicate Lawful(lib: Library) {
    lib.conditionErrors([]) == []
  }

  predicate SliceEqual(a: Slice<string>, b: Slice<string>) {
    |a.Elems()| == |b.Elems()| && forall i :: 0 <= i < |a.Elems()| ==> a.Elems()[i] == b.Elems()[i]
  }

  predicate SpecEqual(a: Spec, b: Spec) {
    a.image == b.image && SliceEqual(a.command, b.command) && SliceEqual(a.args, b.args)
  }

  /** The spec with nil and empty slices identified. */
  function NilAsEmpty(s: Spec): Spec {
    Spec(s.image, Of(s.command.Elems()), Of(s.args.Elems()))
  }

  /** SpecEqual is equality up to nil-versus-empty, hence an equivalence. */
  lemma SpecEqualIsEquality(a: Spec, b: Spec)
    ensures SpecEqual(a, b) <==> NilAsEmpty(a) == NilAsEmpty(b)
  {
    if SpecEqual(a, b) {
      assert a.command.Elems() == b.command.Elems();
      assert a.args.Elems() == b.args.Elems();
    }
  }

  function PrepareForCreate(t: Task): Task {
    t.(status := EMPTY_STATUS, meta := t.meta.(generation := 1))
  }

  function PrepareForUpdate(view: View, newTask: Task, oldTask: Task): Task {
    match view
    case MainView =>
      var g := if SpecEqual(newTask.spec, oldTask.spec) then oldTask.meta.generation
               else IncInt64(oldTask.meta.generation);
      newTask.(status := oldTask.status, meta := newTask.meta.(generation := g))
    case StatusView =>
      newTask.(spec := oldTask.spec, meta := newTask.meta.(generation := oldTask.meta.generation))
  }

  function ValidateTask(lib: Library, t: Task): seq<FieldError> {
    lib.metaErrors(t.meta) + if t.spec.image == "" then [ImageRequired] else []
  }

  function ValidateStatusUpdate(lib: Library, t: Task): seq<FieldError> {
    var og := t.status.observedGeneration;
    (if og < 0 then [ObservedGenerationNegative]
     else if og > t.meta.generation then [ObservedGenerationAhead] else [])
    + lib.conditionErrors(t.status.conditions.Elems())
  }

  function ValidateUpdate(lib: Library, view: View, t: Task): seq<FieldError> {
    match view
    case MainView => ValidateTask(lib, t)
    case StatusView => ValidateStatusUpdate(lib, t)
  }

  /** rest.BeforeCreate as far as it is used: prepare, then validate. */
  function BeforeCreate(lib: Library, t: Task): Result<Task> {
    var p := PrepareForCreate(t);
    if ValidateTask(lib, p) == [] then Ok(p) else Err(Invalid)
  }

  function ImmutableMetaErrors(newTask: Meta, oldTask: Meta): seq<FieldError> {
    if newTask.name == oldTask.name && newTask.namespace == oldTask.namespace && newTask.uid == oldTask.uid
    then [] else [ImmutableMeta]
  }

  /** rest.BeforeUpdate as far as it is used: prepare, then reject a changed name, namespace or
      UID along with whatever the strategy rejects. */
  function BeforeUpdate(lib: Library, view: View, newTask: Task, oldTask: Task): Result<Task> {
    var p := PrepareForUpdate(view, newTask, oldTask);
    if ImmutableMetaErrors(p.meta, oldTask.meta) + ValidateUpdate(lib, view, p) == []
    then Ok(p) else Err(Invalid)
  }

  // --- What every accepted object satisfies ---

  /** The object invariant. Writes through one view never validate the other half. */
  ghost predicate WellFormed(lib: Library, t: Task) {
    && t.meta.generation >= 1
    && 0 <= t.status.observedGeneration <= t.meta.generation
    && t.spec.image != ""
    && lib.conditionErrors(t.status.conditions.Elems()) == []
  }

  lemma CreateIsWellFormed(lib: Library, t: Task)
    requires Lawful(lib) && BeforeCreate(lib, t).Ok?
    ensures WellFormed(lib, BeforeCreate(lib, t).value)
  {
    assert ValidateTask(lib, PrepareForCreate(t)) == [];
  }

  /** An accepted update of a well-formed object is well formed exactly when the generation
      does not wrap: a spec edit at generation 2^63-1 is the one case that breaks it. */
  lemma UpdateIsWellFormedIff(lib: Library, view: View, newTask: Task, oldTask: Task)
    requires WellFormed(lib, oldTask) && BeforeUpdate(lib, view, newTask, oldTask).Ok?
    ensures WellFormed(lib, BeforeUpdate(lib, view, newTask, oldTask).value)
       <==> !(view.MainView? && oldTask.meta.generation == MAX_INT64 && !SpecEqual(newTask.spec, oldTask.spec))
  {
    var p := PrepareForUpdate(view, newTask, oldTask);
    assert ValidateUpdate(lib, view, p) == [];
  }
}
