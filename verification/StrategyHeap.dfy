/** The strategy in place: it writes into the object it is given, and an update shares the slices
    of the old object (pkg/registry/tasks/task/strategy.go:73 and :127). */
module StrategyHeap {
  import opened TaskTypes
  import opened Strategy
  import opened TaskHeap

  method StringSliceEqual(a: array?<string>, b: array?<string>) returns (equal: bool)
    ensures equal == SliceEqual(SliceValue(a), SliceValue(b))
  {
    var m := if a == null then 0 else a.Length;
    var n := if b == null then 0 else b.Length;
    if m != n {
      return false;
    }
    for i := 0 to m
      invariant forall j :: 0 <= j < i ==> a[j] == b[j]
    {
      if a[i] != b[i] {
        return false;
      }
    }
    return true;
  }

  method SpecStructEqual(a: SpecStruct, b: SpecStruct) returns (equal: bool)
    ensures equal == SpecEqual(SpecValue(a), SpecValue(b))
  {
    if a.image != b.image {
      return false;
    }
    var command := StringSliceEqual(a.command, b.command);
    var args := StringSliceEqual(a.args, b.args);
    return command && args;
  }

  method PrepareCreate(task: TaskObject)
    modifies task
    ensures ObjectValue(task) == PrepareForCreate(old(ObjectValue(task)))
    ensures Refs(task.v) <= old(Refs(task.v))
  {
    task.v := task.v.(status := StatusStruct("", null, 0));
    task.v := task.v.(meta := task.v.meta.(generation := 1));
  }

  /** The half of the struct that the view may not change is the old object's own: its slices are
      shared, not copied. */
  ghost predicate SharesHalf(view: View, newTask: TaskStruct, oldTask: TaskStruct) {
    match view
    case MainView => newTask.status == oldTask.status
    case StatusView => newTask.spec == oldTask.spec
  }

  method PrepareUpdate(view: View, newTask: TaskObject, oldTask: TaskObject)
    requires newTask != oldTask
    modifies newTask
    ensures ObjectValue(newTask) == PrepareForUpdate(view, old(ObjectValue(newTask)), old(ObjectValue(oldTask)))
    ensures SharesHalf(view, newTask.v, oldTask.v)
    ensures Refs(newTask.v) <= old(Refs(newTask.v)) + Refs(oldTask.v)
  {
    match view {
      case MainView =>
        newTask.v := newTask.v.(status := oldTask.v.status);
        var same := SpecStructEqual(newTask.v.spec, oldTask.v.spec);
        var g := if same then oldTask.v.meta.generation else IncInt64(oldTask.v.meta.generation);
        newTask.v := newTask.v.(meta := newTask.v.meta.(generation := g));
      case StatusView =>
        newTask.v := newTask.v.(spec := oldTask.v.spec);
        newTask.v := newTask.v.(meta := newTask.v.meta.(generation := oldTask.v.meta.generation));
    }
  }

  /** The answer to a create or update so far: no error, and obj is the draft; or the error. */
  ghost predicate Drafted(r: Result<Task>, err: Option<Error>, obj: TaskObject)
    reads Footprint(obj)
  {
    match err case None => r == Ok(ObjectValue(obj)) case Some(e) => r == Err(e)
  }

  method RunBeforeCreate(lib: Library, obj: TaskObject) returns (err: Option<Error>)
    modifies obj
    ensures Drafted(BeforeCreate(lib, old(ObjectValue(obj))), err, obj)
    ensures Refs(obj.v) <= old(Refs(obj.v))
  {
    PrepareCreate(obj);
    var errs := ValidateTask(lib, ObjectValue(obj));
    err := if errs == [] then None else Some(Invalid);
  }

  method RunBeforeUpdate(lib: Library, view: View, newTask: TaskObject, oldTask: TaskObject)
    returns (err: Option<Error>)
    requires newTask != oldTask
    modifies newTask
    ensures Drafted(BeforeUpdate(lib, view, old(ObjectValue(newTask)), old(ObjectValue(oldTask))), err, newTask)
    ensures SharesHalf(view, newTask.v, oldTask.v)
    ensures Refs(newTask.v) <= old(Refs(newTask.v)) + Refs(oldTask.v)
  {
    PrepareUpdate(view, newTask, oldTask);
    var p := ObjectValue(newTask);
    var errs := ImmutableMetaErrors(p.meta, MetaValue(oldTask.v.meta)) + ValidateUpdate(lib, view, p);
    err := if errs == [] then None else Some(Invalid);
  }
}
