# Task registry: a verified model

This project models the Task registry of simple-api-server and proves properties of it: the
in-memory store with its global resource version, the main and `/status` views that share it,
the strategies that decide which half of an object each view may change, and the generated deep
copies that keep callers' memory out of the store.

The model has three layers.

* **Memory.** `TaskHeap`, `StrategyHeap`, `StoreHeap`, `RegistryHeap` and `Clients` follow the Go
  code on objects. A Go struct is a datatype whose assignment shares what the fields refer to, a
  pointer is a class, a slice is an array, a label map is an object; so the slices that
  `PrepareForUpdate` shares and the structs that `List` copies shallowly are shared here too.
  Every method is proved against a function on plain values. `Clients.Session` runs requests side
  by side, store call by store call, between arbitrary writes of clients to all they hold: what
  they passed in, were handed or were shown by a callback, and the slices a draft shares.
* **Values.** `TaskTypes`, `ResourceVersion`, `Strategy`, `StoreSpec` and `RegistrySpec` are those
  functions. `RegistrySpec.Handle` is one whole request running by itself; `Outcomes` tells how
  each request ends, with the exact condition of every answer and the whole effect on the store,
  from what its caller chose and what is stored alone.
* **Runs.** `Protocol` runs any number of requests side by side: one lock-protected store call,
  with the private work after it, is one step (`Begin` or `Finish`), and a run is any sequence of
  steps. `Journal` records the committed writes and draws the consequences; `Reduction` relates
  interleaved runs to serial ones; `Guarantees` states what clients may rely on; `Interference`
  has concrete runs in which something goes wrong.

What the proofs say, in short. Every interleaving keeps a journal that replays to the store, in
which each write consumed the next version and each update hangs off the version its client named,
and is what its request asked for (`WritesAreWhatWasAsked`). A run in which no other write to a key
comes between a request's two store calls has the store, versions and answers of a serial run;
`ListsAreSerialIff` says which Lists answer as in it. In every session nothing clients can reach is
part of the store, and if they leave alone what a request in flight is about to write, store and
answers are those of the protocol, which knows no memory (`Clients.Session.PlayAll`).

Each version is consumed by at most one writer **exactly** in the runs where nobody was overtaken:
the version check is not repeated when the store writes (pkg/storage/inmemory/store.go:126-128), so
two updates that both read before either writes both succeed, and a slow `/status` writer then
restores the old spec and generation (`StaleStatusWriteRevertsSpec`). For the same reason a delete
can remove another incarnation than its UID precondition names (`DeleteRemovesAnotherIncarnation`);
`PreconditionsMetIff` says when a precondition still holds at the write. Requests that run one by
one overtake nobody (`SerialRunOvertakesNone`), so serial runs lose no update and their views do
not interfere (`SerialRunsLoseNoUpdate`, `SerialViewsDoNotInterfere`).

Where the code and its comments disagree the model follows the code. The comment at
pkg/registry/tasks/task/storage.go:261-263 and :268-269 says the create path of an update is never
reached; `forceAllowCreate` reaches it (:294), on both views, and then files the object under the
request's key whatever name the object carries (`ForcedUpdateStrays`). An object is therefore stored
under its own name exactly if the create it descends from carried its key (`ObjectsAreFiledIff`).

Stated assumptions about code outside the repository: `rest.BeforeCreate` and `rest.BeforeUpdate`
prepare, then validate, and fail if and only if there are errors; `BeforeUpdate` also rejects a
changed name, namespace or UID. `ValidateObjectMeta` and `ValidateConditions` are arbitrary
functions (`Strategy.Library`), of which only one thing is used, that an empty list of conditions
has no errors (`Strategy.Lawful`). Admission callbacks, `UpdatedObject` and selectors are
arbitrary functions of the values they are shown; `UpdatedObject` may return a new object, the copy
it was shown or any object its client holds. `strconv.ParseUint` is modelled as the loop over
digits that it is, on a uint64 that wraps.

Integer widths are explicit. `rv` is a uint64 and `generation` an int64, and both wrap. Results
about versions are for journals of at most 2^64 - 1 writes; results about generations for objects
with fewer than 2^63 - 1 spec edits in their own history; `PutKeepsStampedIff` and
`UpdateIsWellFormedIff` say exactly what happens at the limit. `CleanRunIsSerial` needs no bound.

## Model

| member | source | states |
|---|---|---|
| `ResourceVersion.FormatThenValue` | pkg/registry/tasks/task/helpers.go:33-36 | the decimal form is canonical and denotes the number it was made from |
| `ResourceVersion.ParseFormat` | pkg/registry/tasks/task/helpers.go:21-36 | for every uint64, parsing its printed form gives it back |
| `ResourceVersion.FormatInjective` | pkg/registry/tasks/task/helpers.go:33-36 | two numbers print the same if and only if they are equal |
| `ResourceVersion.FormatParseIff` | pkg/registry/tasks/task/helpers.go:21-36 | printing what was parsed gives the string back exactly for canonical numerals below 2^64 |
| `ResourceVersion.ParseUint` | pkg/registry/tasks/task/helpers.go:25-31 | the digit loop, with its cut-off and its test for a wrapped sum, succeeds exactly on numerals below 2^64 and then gives their value |
| `ResourceVersion.ReadRVOrZero` | pkg/registry/tasks/task/helpers.go:21-31 | over that loop: 0 exactly for the empty string, a non-digit, a number of 2^64 or more, and zero itself |
| `ResourceVersion.ConflictCheckIsNumeric` | pkg/registry/tasks/task/storage.go:390-394 | string equality with a stamped version is numeric equality of canonical numerals |
| `TaskTypes.WrapInjective` | pkg/registry/tasks/task/strategy.go:75-79 | counts less than 2^64 apart never show the same int64 generation |
| `Strategy.SpecEqualIsEquality` | pkg/registry/tasks/task/strategy.go:194-212 | specEqual is equality up to nil-versus-empty slices, hence an equivalence |
| `Strategy.CreateIsWellFormed` | pkg/registry/tasks/task/strategy.go:56-64 | an accepted create satisfies the object invariant |
| `Strategy.UpdateIsWellFormedIff` | pkg/registry/tasks/task/strategy.go:66-80 | an accepted update through either view keeps the object invariant exactly unless the generation wraps |
| `StoreSpec.MaxRV` | pkg/registry/tasks/task/storage.go:141-154 | the result bounds every item's version and is attained, or is 0 |
| `StoreSpec.PutKeepsStampedIff` | pkg/storage/inmemory/store.go:177-186 | a write is stamped above every version issued before exactly until the counter wraps |
| `Outcomes.CreateOutcome` | pkg/registry/tasks/task/storage.go:163-181 | a create is Invalid, Forbidden, AlreadyExists or succeeds, each exactly when; what is stored is the client's object with the server's UID, generation 1, no status and the next version, and on error nothing changes |
| `Outcomes.NamelessOutcome` | pkg/registry/tasks/task/storage.go:358-367 | a Get, update or delete is a BadRequest exactly if name or namespace is empty |
| `Outcomes.UpdateMissingOutcome` | pkg/registry/tasks/task/storage.go:293-318 | an update of a missing object is NotFound exactly if not forced, else creates at the request's key what the client makes of an empty Task, with the outcomes of a create |
| `Outcomes.UpdateOutcome` | pkg/registry/tasks/task/storage.go:324-349 | an update of a stored object through either view is UpdateRejected, Conflict, Invalid, Forbidden or succeeds, each exactly when; what is stored is the client's object, labels included, but for the other view's half, generation and version |
| `Outcomes.DeleteOutcome` | pkg/registry/tasks/task/storage.go:192-217 | a delete is NotFound, Conflict, Forbidden or succeeds, each exactly when, by preconditions and the deletion callback; it then removes and answers the object as stored and moves the counter |
| `Outcomes.GetOutcome` | pkg/registry/tasks/task/storage.go:112-119 | a Get answers what is stored at the key, or NotFound, and changes nothing |
| `Outcomes.ListOutcome` | pkg/registry/tasks/task/storage.go:124-160 | a List answers exactly the objects in its namespace, or all if it names none, whose labels its selector accepts, nil labels being none; its version is the largest of theirs, or the counter |
| `TaskHeap.DeepCopySpec` | pkg/apis/tasks/v1alpha1/zz_generated.deepcopy.go:78-92 | new slices with equal content, nil kept nil, command and args apart even if the source shares them |
| `TaskHeap.DeepCopyStatus` | pkg/apis/tasks/v1alpha1/zz_generated.deepcopy.go:104-115 | every condition copied into a new slice, nil kept nil |
| `TaskHeap.DeepCopy` | pkg/apis/tasks/v1alpha1/zz_generated.deepcopy.go:17-35 | the copy is new in every part and equal in every field; nothing existing is modified |
| `TaskHeap.DeepCopyItems` | pkg/apis/tasks/v1alpha1/zz_generated.deepcopy.go:50-56 | every item copied, no two copies sharing anything |
| `TaskHeap.DeepCopyList` | pkg/apis/tasks/v1alpha1/zz_generated.deepcopy.go:46-68 | the same for a TaskList, nil items kept nil |
| `StrategyHeap.StringSliceEqual` | pkg/registry/tasks/task/strategy.go:202-212 | the index loop decides equality of the elements, nil and empty alike |
| `StrategyHeap.SpecStructEqual` | pkg/registry/tasks/task/strategy.go:194-200 | decides SpecEqual of the values |
| `StrategyHeap.PrepareCreate` | pkg/registry/tasks/task/strategy.go:56-64 | in place, status emptied and generation 1 |
| `StrategyHeap.PrepareUpdate` | pkg/registry/tasks/task/strategy.go:66-80 | in place, the other view's half is the old object's own, slices shared; generation as specified |
| `StoreHeap.Store.constructor` | pkg/storage/inmemory/store.go:64-72 | an empty store that owns nothing |
| `StoreHeap.Store.BumpAndStampLocked` | pkg/storage/inmemory/store.go:177-186 | increments the counter and stamps the object with it, nothing else |
| `StoreHeap.Store.Create` | pkg/storage/inmemory/store.go:74-90 | refines StoreCreate; the stored object and the one returned are separate new memory; on error nothing changes |
| `StoreHeap.Store.Get` | pkg/storage/inmemory/store.go:92-102 | refines StoreGet and hands out new memory |
| `StoreHeap.Store.List` | pkg/storage/inmemory/store.go:104-120 | in whatever order the map is visited, one new copy of each object in the namespace and of no other |
| `StoreHeap.Store.Update` | pkg/storage/inmemory/store.go:122-142 | refines StoreUpdate, with the same separation |
| `StoreHeap.Store.Delete` | pkg/storage/inmemory/store.go:144-158 | refines StoreDelete: removes, bumps the counter, returns the object with its last stamp |
| `StoreHeap.Store.CurrentResourceVersion` | pkg/storage/inmemory/store.go:160-167 | the counter |
| `StoreHeap.Store.Len` | pkg/storage/inmemory/store.go:169-175 | the number of objects |
| `RegistryHeap.DraftNew` | pkg/registry/tasks/task/storage.go:305-313 | fill, prepare, validate and admit in place give the specified draft or the specified error |
| `RegistryHeap.DraftChange` | pkg/registry/tasks/task/storage.go:329-343 | preconditions, version check, strategy and admission, in this order, give the specified draft or error; the draft is the client's object, sharing the existing object's slices, and all of it is within the clients' reach |
| `RegistryHeap.DecideWrite` | pkg/registry/tasks/task/storage.go:287-343 | the first half of an update comes to what DecideUpdate says, leaves the store alone, and whatever object the client submits, nothing within its reach is the store's |
| `RegistryHeap.CarryOut` | pkg/registry/tasks/task/storage.go:314-348 | the second half does what Carry says with what the object says now, and what clients reach stays apart from the store |
| `RegistryHeap.UpdateOnStore` | pkg/registry/tasks/task/storage.go:267-350 | does to the store and answers what UpdateAt says, for an object held, shown or new; that object, the shown copies and the answer end up apart from the store; on error the store is untouched |
| `RegistryHeap.SelectItems` | pkg/registry/tasks/task/storage.go:140-154 | the loop keeps each object whose labels match, once, and finds the largest version |
| `RegistryHeap.REST.Get` | pkg/registry/tasks/task/storage.go:112-119 | refines Handle |
| `RegistryHeap.REST.List` | pkg/registry/tasks/task/storage.go:121-160 | for any visiting order, each matching object of one moment's store exactly once, under the version Handle gives, in memory apart from the store |
| `RegistryHeap.REST.Create` | pkg/registry/tasks/task/storage.go:162-181 | refines Handle while mutating the client's own object in place, which stays the client's and apart from the store |
| `RegistryHeap.REST.Update` | pkg/registry/tasks/task/storage.go:183-188 | refines Handle for the main view |
| `RegistryHeap.REST.Delete` | pkg/registry/tasks/task/storage.go:190-217 | refines Handle; what the callback is shown is new memory apart from the store |
| `RegistryHeap.StatusREST.Update` | pkg/registry/tasks/task/storage.go:257-265 | refines Handle for the status view over the same store |
| `Clients.Session.Scribble` | pkg/storage/inmemory/store.go:53-56 | every write by clients to Tasks they hold, items of Lists among them (a struct or part of it assigned and its slices shared, any field, an element of a slice, a label map), does what it is meant to and touches neither the store nor, from patient clients, a request in flight |
| `Clients.Session.BeginUpdate` | pkg/registry/tasks/task/strategy.go:66-80 | an update's first half, with any object a client holds, leaves the session where the protocol's step leads although the draft shares the old object's slices |
| `Clients.Session.Play` | pkg/storage/inmemory/store.go:53-56 | every move, a step of a request or a client's write, keeps clients and store apart, follows the protocol and takes nothing from anyone's hands; a Task answered is in hand as it was answered, and so are the items of a List |
| `Clients.Session.PlayAll` | pkg/storage/inmemory/store.go:53-56 | over any interleaved session nothing the clients can reach is part of the store and they keep all they hold; and from patient clients the store, every answer, and the items and versions of every List are those of the protocol's run |
| `Journal.StampIsPosition` | pkg/storage/inmemory/store.go:177-186 | the write that consumed version n is journal entry n - 1 and stamped its object n |
| `Journal.ReplayHoldsVersions` | pkg/storage/inmemory/store.go:77-158 | everything stored is, field for field, a committed version of its key |
| `Journal.Conservation` | pkg/storage/inmemory/store.go:77-158 | versions consumed are creates plus updates plus deletes, objects stored are creates minus deletes |
| `Journal.LawfulIsForest` | pkg/registry/tasks/task/storage.go:292-345 | every update hangs off an earlier version of its key |
| `Journal.UpdateNamesItsBase` | pkg/registry/tasks/task/storage.go:372-395 | that version is the one the client named, and versions strictly increase along the link |
| `Journal.GenerationCountsEdits` | pkg/registry/tasks/task/strategy.go:69-80 | generation is 1 plus the spec edits on the version's own history, wrapped to int64 |
| `Journal.SameGenerationSameSpec` | pkg/registry/tasks/task/strategy.go:69-80 | two versions on one path with one generation have equal specs |
| `Journal.VersionsAreWellFormed` | pkg/registry/tasks/task/strategy.go:138-192 | every version satisfies the object invariant although each view validates only its half |
| `Journal.IdentityOfRoot` | pkg/registry/tasks/task/storage.go:336-338 | name, namespace and UID of a version are those of the create it descends from |
| `Journal.UidNamesIncarnation` | pkg/registry/tasks/task/storage.go:407-410 | with fresh UIDs, versions share a UID exactly when they descend from one create |
| `Journal.SerialHasNoLostUpdate` | pkg/registry/tasks/task/storage.go:329-345 | in a serial journal each version is consumed by at most one update or delete |
| `Journal.NoLostUpdateIffSerial` | pkg/registry/tasks/task/storage.go:329-345 | that holds if and only if every write replaced the version it had read |
| `Journal.SerialWritesChain` | pkg/registry/tasks/task/storage.go:329-345 | nothing happens to a key between a version and the write that consumed it |
| `Journal.DeletedVersionsStayDead` | pkg/registry/tasks/task/storage.go:192-217 | no version read before a delete is accepted after it, whatever was created under the name since |
| `Journal.PreconditionsHoldAtTheWrite` | pkg/registry/tasks/task/storage.go:397-416 | in a serial journal what is replaced or removed meets the client's UID and version preconditions |
| `Journal.PreconditionsHoldIff` | pkg/registry/tasks/task/storage.go:397-416 | in every lawful journal: what a write meets satisfies a UID precondition exactly if it is of the incarnation that was read, a version precondition exactly if nothing wrote the key since |
| `Journal.SpecIgnoresStatusWrites` | pkg/registry/tasks/task/strategy.go:120-129 | spec and generation are the fold of creates, deletes and main updates alone |
| `Journal.StatusIgnoresSpecWrites` | pkg/registry/tasks/task/strategy.go:66-73 | status is the fold of creates, deletes and /status updates alone |
| `Protocol.RunKeepsInv` | pkg/registry/tasks/task/storage.go:274-350 | every interleaving keeps the invariant: lawful journal, store equal to its replay, every copy in flight or handed out a committed version |
| `Reduction.CleanRunIsSerial` | pkg/registry/tasks/task/storage.go:192-217 | a run in which each request finds its key at its write as it found it before (or finds its object gone, or a delete meets a newer object that its checks accept too) has the store, versions and answers of the serial run in order of deciding steps |
| `Reduction.ListsAreSerialIff` | pkg/registry/tasks/task/storage.go:134-159 | a List has its place in that serial run, and answers as it would there exactly if it matched something or nothing was written before it read the counter |
| `Reduction.CurrentIffUndisturbed` | pkg/storage/inmemory/store.go:126-142 | the store still holds a request's snapshot exactly when nobody wrote the key since |
| `Reduction.NoLostUpdateIffNoneOvertaken` | pkg/storage/inmemory/store.go:126-142 | each version is consumed at most once exactly in the runs where no writer was overtaken |
| `Reduction.SerialRunIsClean` | pkg/registry/tasks/task/storage.go:192-217 | requests run one by one form a clean run with the store of the serial specification |
| `Reduction.SerialRunOvertakesNone` | pkg/registry/tasks/task/storage.go:192-217 | requests run one by one overtake nobody |
| `Guarantees.Accounting` | pkg/storage/inmemory/store.go:77-186 | in every run the store is the fold of the journal and the counter and the population are its counts |
| `Guarantees.VersionIdentity` | pkg/storage/inmemory/store.go:77-158 | any two copies ever handed out with one version have one key and agree in every field |
| `Guarantees.AnswersAreSeen` | pkg/storage/inmemory/store.go:77-158 | every Task ever answered, alone or in a List, is among the copies recorded, under its request's key |
| `Guarantees.ReadsAreSeen` | pkg/registry/tasks/task/storage.go:292-337 | so is every object a request reads first, whatever the request comes to |
| `Guarantees.ObservedVersionsArePast` | pkg/storage/inmemory/store.go:160-167 | no version observed on a Task or a List exceeds the counter |
| `Guarantees.StampsAreFresh` | pkg/storage/inmemory/store.go:177-186 | the next write takes the next version |
| `Guarantees.ListsAreBounded` | pkg/registry/tasks/task/storage.go:134-159 | a List is the selected part of one moment's store; item version <= list version <= counter at return; the version is the maximum if anything matched, else the counter read at the answer |
| `Guarantees.TasksAreWellFormed` | pkg/registry/tasks/task/strategy.go:138-192 | in every interleaving everything stored or handed out satisfies the object invariant |
| `Guarantees.InFlightIsWellFormed` | pkg/registry/tasks/task/storage.go:292-345 | so do the snapshot and the draft of every request in flight |
| `Guarantees.ViewsDoNotInterfere` | pkg/registry/tasks/task/strategy.go:66-80 | where nobody is overtaken each half of an object depends on its own view's writes alone |
| `Guarantees.WritesAreWhatWasAsked` | pkg/registry/tasks/task/storage.go:292-345 | in every interleaving each committed create or update is exactly what its request's client submitted, computed from the version it read, valid, admitted and stamped with the next version; each delete's preconditions and callback accepted the version it read |
| `Guarantees.SerialRunsLoseNoUpdate` | pkg/registry/tasks/task/storage.go:329-345 | in every serial run each version is consumed by at most one update or delete, the writes to a key chain, no version read before a delete succeeds after it, and preconditions hold at the write |
| `Guarantees.SerialViewsDoNotInterfere` | pkg/registry/tasks/task/strategy.go:66-80 | in every serial run spec and generation are the fold of creates, deletes and main updates alone, status that of creates, deletes and /status updates alone |
| `Guarantees.FailedStepsAreInert` | pkg/registry/tasks/task/storage.go:274-350 | a step that answers an error changes neither store nor journal |
| `Guarantees.UnforcedUpdatesAddNoKey` | pkg/registry/tasks/task/storage.go:287-296 | in every run a step of an update that may not create leaves the keys and every object but the one it names as they are |
| `Guarantees.RequestsAreConserved` | pkg/registry/tasks/task/storage.go:162-217 | in every run the requests begun are those in flight and those answered, each as often |
| `Guarantees.UidsNameIncarnations` | pkg/registry/tasks/task/storage.go:407-410 | in every run with UIDs from a fresh supply two versions share a UID exactly if they descend from one create |
| `Guarantees.PreconditionsMetIff` | pkg/registry/tasks/task/storage.go:397-416 | in every such run, exactly which writes still met their client's preconditions when they took effect |
| `Guarantees.ObjectsAreFiledIff` | pkg/registry/tasks/task/storage.go:358-367 | in every run an object is stored under its own namespace and name exactly if the create it descends from carried the key it was filed under |
| `Guarantees.ObjectsAreFiled` | pkg/registry/tasks/task/storage.go:358-367 | if forced updates carry the key they name, all objects are so stored and a List by namespace is a List by metadata |
| `Guarantees.ForcedCreateIsFiledIff` | pkg/registry/tasks/task/storage.go:293-318 | a forced create is filed under its own name exactly when the object carries the request's |
| `Interference.StaleStatusWriteRevertsSpec` | pkg/storage/inmemory/store.go:126-142 | a concrete run: two updates succeed from one version and the status writer undoes the spec edit |
| `Interference.ForcedUpdateStrays` | pkg/registry/tasks/task/storage.go:293-318 | a concrete run: a forced update stores an object under another name than its own |
| `Interference.DeleteRemovesAnotherIncarnation` | pkg/registry/tasks/task/storage.go:199-214 | a concrete run: a delete with a UID precondition succeeds and removes an object with another UID |

## Left out

- TaskHeap.DeepCopy: does not copy TypeMeta, whose two strings the registry never reads, nor annotations, owner references, finalizers, managed fields and timestamps, which `ObjectMeta.DeepCopyInto` copies outside the repository.
- TaskHeap.DeepCopyList: does not copy TypeMeta, nor the fields of ListMeta other than resourceVersion, which the registry never sets.
- Metadata other than name, namespace, UID, version, generation and labels (annotations, owner references, finalizers, managed fields, timestamps): carried by code outside the repository.
- generateName and the namespace defaulting of `rest.BeforeCreate`: outside the repository. Without the latter, `ForcedCreateIsFiledIff` speaks of namespace and name both.
- Clients.Session.PlayAll: of clients that write to an object while a request in flight is about to write it, it says that they stay apart from the store, and not what that request then stores; in Go that is a data race. The array of items of a List is modelled as its elements, each a Task in hand.
- Slices that share one backing array at different lengths: a slice here is a whole array.
- Watch, table conversion, short names, categories, `New`, `NewList`, `Destroy`, warnings, `Canonicalize`: constants or no-ops. `StatusREST.Get` is the same two lines as `REST.Get`.
- Objects that are not Tasks: the error paths of `meta.Accessor` and of the type assertion in `List` cannot be taken here.
- The read-write lock: each locked method is one atomic step.
- Error texts: errors are kinds.
- List versions over time: not claimed to be monotonic, for deleting the newest object lowers the maximum.
- Server wiring, TLS, authentication, generated OpenAPI data, scripts: no state of the registry.
