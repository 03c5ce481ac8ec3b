/** The registry of pkg/registry/tasks/task/storage.go run by itself: Handle is what one request
    does when nothing else touches the store. The steps between two store calls are functions
    of their own, because the protocol runs them apart. */
module RegistrySpec {
  import opened TaskTypes
  import opened Strategy
  import opened StoreSpec
  import opened ResourceVersion

  datatype Preconditions = Preconditions(uid: Option<string>, resourceVersion: Option<string>)

  /** A request with everything its caller chose: callbacks are arbitrary functions, and uid is
      the identifier the server would assign should the request create an object. */
  datatype Call =
    | CreateCall(obj: Task, uid: string, admitCreate: Task -> bool)
    | UpdateCall(view: View, namespace: string, name: string,
                 updated: Task -> Option<Task>, pre: Option<Preconditions>, force: bool,
                 uid: string, admitCreate: Task -> bool, admitUpdate: (Task, Task) -> bool)
    | DeleteCall(namespace: string, name: string, pre: Option<Preconditions>, admitDelete: Task -> bool)
    | GetCall(namespace: string, name: string)
    | ListCall(namespace: string, selector: map<string, string> -> bool, fieldSelector: bool)

  datatype Response =
    | Object(task: Task)
    | Listed(items: map<Key, Task>, resourceVersion: string)
    | Failed(error: Error)

  /** What the client submitted and what the strategy made of it. */
  datatype Draft = Draft(submitted: Task, task: Task)

  function KeyFromContext(namespace: string, name: string): Result<Key> {
    if name == "" then Err(BadRequest)
    else if namespace == "" then Err(BadRequest)
    else Ok(Key(namespace, name))
  }

  function FillSystemFields(t: Task, uid: string): Task {
    t.(meta := t.meta.(uid := uid))
  }

  predicate PreconditionsHold(existing: Task, pre: Option<Preconditions>) {
    pre.Some? ==>
      && (pre.value.uid.Some? ==> pre.value.uid.value == existing.meta.uid)
      && (pre.value.resourceVersion.Some? ==> pre.value.resourceVersion.value == existing.meta.resourceVersion)
  }

  predicate ResourceVersionHolds(existing: Task, updated: Task) {
    if updated.meta.resourceVersion == "" then ALLOW_UNCONDITIONAL_UPDATE
    else updated.meta.resourceVersion == existing.meta.resourceVersion
  }

  function DraftCreate(lib: Library, obj: Task, uid: string, admit: Task -> bool): Result<Draft> {
    var filled := FillSystemFields(obj, uid);
    match BeforeCreate(lib, filled)
    case Err(e) => Err(e)
    case Ok(t) => if admit(t) then Ok(Draft(filled, t)) else Err(Forbidden)
  }

  /** From a client's object to a draft that replaces oldTask, in the order of the checks. */
  function DraftReplace(lib: Library, c: Call, obj: Task, oldTask: Task): Result<Draft>
    requires c.UpdateCall?
  {
    if !PreconditionsHold(oldTask, c.pre) then Err(Conflict)
    else if !ResourceVersionHolds(oldTask, obj) then Err(Conflict)
    else
      match BeforeUpdate(lib, c.view, obj, oldTask)
      case Err(e) => Err(e)
      case Ok(t) => if c.admitUpdate(t, oldTask) then Ok(Draft(obj, t)) else Err(Forbidden)
  }

  /** Everything updateOnStore does between its Get and its write, all of it on private copies. */
  function DraftUpdate(lib: Library, c: Call, existing: Option<Task>): Result<Draft>
    requires c.UpdateCall?
  {
    match existing
    case None =>
      if !c.force && !ALLOW_CREATE_ON_UPDATE then Err(NotFound) else
        (match c.updated(EMPTY_TASK)
         case None => Err(UpdateRejected)
         case Some(obj) => DraftCreate(lib, obj, c.uid, c.admitCreate))
    case Some(oldTask) =>
      match c.updated(oldTask)
      case None => Err(UpdateRejected)
      case Some(obj) => DraftReplace(lib, c, obj, oldTask)
  }

  /** The checks of Delete between its Get and its store call. */
  function CheckDelete(c: Call, existing: Task): Option<Error>
    requires c.DeleteCall?
  {
    if !PreconditionsHold(existing, c.pre) then Some(Conflict)
    else if !c.admitDelete(existing) then Some(Forbidden)
    else None
  }

  function Reply(r: Result<Task>): Response {
    match r case Ok(t) => Object(t) case Err(e) => Failed(e)
  }

  /** The version of a List: the largest of the matched items, else the store's counter. */
  ghost function ListRV(matched: map<Key, Task>, current: Uint64): Uint64 {
    if MaxRV(matched) == 0 then current else MaxRV(matched)
  }

  /** A draft's answer: the task it is about to write, or the error. */
  function TaskOf(r: Result<Draft>): Result<Task> {
    match r case Ok(d) => Ok(d.task) case Err(e) => Err(e)
  }

  /** A drafted object is created under its own namespace and name. */
  function InsertAt(s: State, drafted: Result<Task>): (State, Result<Task>) {
    match drafted
    case Err(e) => (s, Err(e))
    case Ok(t) => StoreCreate(s, OwnKey(t), t)
  }

  function CreateAt(lib: Library, s: State, obj: Task, uid: string, admit: Task -> bool): (State, Result<Task>) {
    InsertAt(s, TaskOf(DraftCreate(lib, obj, uid, admit)))
  }

  /** An update between its two store calls: what it is about to write, and whether it creates. */
  datatype Intent = Intent(key: Key, task: Task, creates: bool)

  /** What an update at key comes to that found existing. */
  function IntentAt(lib: Library, c: Call, key: Key, existing: Option<Task>): Result<Intent>
    requires c.UpdateCall?
  {
    match DraftUpdate(lib, c, existing)
    case Err(e) => Err(e)
    case Ok(d) => Ok(Intent(key, d.task, existing.None?))
  }

  /** The first half of an update, up to its write. */
  function DecideUpdate(lib: Library, s: State, c: Call): (r: Result<Intent>)
    requires c.UpdateCall?
    ensures r.Ok? ==> r.value.key == Key(c.namespace, c.name) && r.value.creates == (r.value.key !in s.items)
  {
    match KeyFromContext(c.namespace, c.name)
    case Err(e) => Err(e)
    case Ok(key) => IntentAt(lib, c, key, Lookup(s.items, key))
  }

  /** The second half. */
  function Carry(s: State, i: Intent): (State, Result<Task>) {
    if i.creates then StoreCreate(s, i.key, i.task) else StoreUpdate(s, i.key, i.task)
  }

  function UpdateAt(lib: Library, s: State, c: Call): (State, Result<Task>)
    requires c.UpdateCall?
  {
    match DecideUpdate(lib, s, c)
    case Err(e) => (s, Err(e))
    case Ok(i) => Carry(s, i)
  }

  /** The first half of a delete. */
  function DecideDelete(s: State, c: Call): Result<Key>
    requires c.DeleteCall?
  {
    match KeyFromContext(c.namespace, c.name)
    case Err(e) => Err(e)
    case Ok(key) =>
      match StoreGet(s, key)
      case Err(e) => Err(e)
      case Ok(existing) =>
        match CheckDelete(c, existing)
        case Some(e) => Err(e)
        case None => Ok(key)
  }

  function DeleteAt(s: State, c: Call): (State, Result<Task>)
    requires c.DeleteCall?
  {
    match DecideDelete(s, c)
    case Err(e) => (s, Err(e))
    case Ok(key) => StoreDelete(s, key)
  }

  ghost function Handle(lib: Library, s: State, c: Call): (State, Response) {
    match c
    case CreateCall(obj, uid, admit) =>
      var (s', r) := CreateAt(lib, s, obj, uid, admit); (s', Reply(r))
    case UpdateCall(_, _, _, _, _, _, _, _, _) =>
      var (s', r) := UpdateAt(lib, s, c); (s', Reply(r))
    case DeleteCall(_, _, _, _) =>
      var (s', r) := DeleteAt(s, c); (s', Reply(r))
    case GetCall(namespace, name) =>
      (match KeyFromContext(namespace, name)
       case Err(e) => (s, Failed(e))
       case Ok(key) => (s, Reply(StoreGet(s, key))))
    case ListCall(namespace, selector, fieldSelector) =>
      if fieldSelector then (s, Failed(Unsupported)) else
        var matched := Matching(s.items, namespace, selector);
        (s, Listed(matched, FormatRV(ListRV(matched, s.rv))))
  }

  ghost function HandleAll(lib: Library, s: State, calls: seq<Call>): (State, seq<Response>)
  {
    if calls == [] then (s, []) else
      var (s1, rs) := HandleAll(lib, s, calls[..|calls| - 1]);
      var (s2, r) := Handle(lib, s1, calls[|calls| - 1]);
      (s2, rs + [r])
  }
}
