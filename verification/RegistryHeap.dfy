/** REST and StatusREST over one Store, step by step as storage.go does it, on objects in memory.
    Every method is proved to do to the store, and to answer, what RegistrySpec.Handle says. */
module RegistryHeap {
  import opened TaskTypes
  import opened ResourceVersion
  import opened Strategy
  import opened StoreSpec
  import opened RegistrySpec
  import opened TaskHeap
  import opened StoreHeap
  import opened StrategyHeap

  /** Nothing within the clients' reach is part of the store. */
  ghost predicate Apart(reach: Reach, store: Store)
    reads store`ledger, reach.memory
  {
    match reach case Reach(_, memory) => Sound(reach) && store !in memory && memory !! store.Repr()
  }

  /** Where a client puts the object it submits with an update: in a new object, in the very copy
      it is shown, in a new object that shares slices with that copy, or in an object it holds,
      which may share slices with others it holds. */
  datatype Place = NewObject | TheCopy | NewFromCopy | Held(p: TaskObject)

  /** The last of the objects that clients may keep is a copy that a callback was shown: it says t. */
  ghost predicate Shown(kept: seq<TaskObject>, t: Task)
    reads if kept == [] then {} else Footprint(kept[|kept| - 1])
  {
    kept != [] && ObjectValue(kept[|kept| - 1]) == t
  }

  method Pick(place: Place, shown: TaskObject, ghost reach: Reach) returns (obj: TaskObject, ghost reach': Reach)
    requires Sound(reach) && shown in reach.held && (place.Held? ==> place.p in reach.held)
    ensures obj == shown || fresh(obj) || place == Held(obj)
    ensures Sound(reach') && Widened(reach, reach') && obj in reach'.held
    ensures match place
            case NewObject => obj != shown
            case TheCopy => obj == shown
            case NewFromCopy => obj != shown && obj.v == shown.v
            case Held(p) => obj == p
  {
    match place {
      case NewObject => obj := new TaskObject(ZERO_TASK);
      case TheCopy => obj := shown;
      case NewFromCopy => obj := new TaskObject(shown.v);
      case Held(p) => obj := p;
    }
    reach' := Holding(reach, obj);
  }

  /** A client makes an object it holds say t. */
  method RewriteHeld(obj: TaskObject, t: Task, ghost reach: Reach) returns (ghost reach': Reach)
    requires Sound(reach) && obj in reach.held
    modifies obj
    ensures ObjectValue(obj) == t && (old(ObjectValue(obj)) == t ==> obj.v == old(obj.v))
    ensures Sound(reach') && Widened(reach, reach')
  {
    Rewrite(obj, t);
    reach' := Holding(reach, obj);
  }

  /** objInfo.UpdatedObject: the client computes its object from the copy it is shown. */
  method UpdatedObject(updated: Task -> Option<Task>, shown: TaskObject, place: Place, ghost reach: Reach)
    returns (obj: TaskObject, ok: bool, ghost reach': Reach)
    requires Sound(reach) && shown in reach.held && (place.Held? ==> place.p in reach.held)
    modifies shown, if place.Held? then {place.p} else {}
    ensures var t := updated(old(ObjectValue(shown)));
            ok == t.Some? && (ok ==> ObjectValue(obj) == t.value)
    ensures obj == shown || fresh(obj) || place == Held(obj)
    ensures Sound(reach') && Widened(reach, reach') && obj in reach'.held
    ensures (place.Held? ==> obj == place.p) && (place.TheCopy? ==> obj == shown)
  {
    var t := updated(ObjectValue(shown));
    ok := t.Some?;
    obj, reach' := Pick(place, shown, reach);
    if ok {
      reach' := RewriteHeld(obj, t.value, reach');
    }
  }

  /** The client's callback does not touch the object that the request keeps to itself. */
  method UpdatedBeside(updated: Task -> Option<Task>, shown: TaskObject, existing: TaskObject, place: Place,
                       ghost reach: Reach)
    returns (obj: TaskObject, ok: bool, ghost reach': Reach)
    requires Sound(reach) && shown in reach.held && (place.Held? ==> place.p in reach.held)
    requires existing !in reach.memory
    modifies shown, if place.Held? then {place.p} else {}
    ensures var t := updated(old(ObjectValue(shown)));
            ok == t.Some? && (ok ==> ObjectValue(obj) == t.value)
    ensures obj == shown || fresh(obj) || place == Held(obj)
    ensures Sound(reach') && Widened(reach, reach') && obj in reach'.held
    ensures ObjectValue(existing) == old(ObjectValue(existing))
    ensures (place.Held? ==> obj == place.p) && (place.TheCopy? ==> obj == shown)
  {
    ghost var was := ObjectValue(existing);
    obj, ok, reach' := UpdatedObject(updated, shown, place, reach);
    assert ObjectValue(existing) == was;
  }

  /** The existing object is shown as a copy. */
  method UpdatedFromCopy(updated: Task -> Option<Task>, existing: TaskObject, place: Place, ghost reach: Reach)
    returns (obj: TaskObject, shown: TaskObject, ok: bool, ghost reach': Reach)
    requires Sound(reach) && existing !in reach.memory && (place.Held? ==> place.p in reach.held)
    modifies if place.Held? then {place.p} else {}
    ensures var t := updated(old(ObjectValue(existing)));
            ok == t.Some? && (ok ==> ObjectValue(obj) == t.value)
    ensures (fresh(obj) || place == Held(obj)) && ObjectValue(existing) == old(ObjectValue(existing))
    ensures Sound(reach') && Widened(reach, reach') && {obj, shown} <= reach'.held
    ensures (place.Held? ==> obj == place.p) && (place.TheCopy? ==> obj == shown)
  {
    shown, reach' := ShowCopy(existing, reach);
    obj, ok, reach' := UpdatedBeside(updated, shown, existing, place, reach');
  }

  /** From a client's object to a draft to be created: fill in, prepare, validate, all in place. */
  method PrepareNew(lib: Library, obj: TaskObject, uid: string, ghost reach: Reach) returns (err: Option<Error>)
    requires Sound(reach) && obj in reach.held
    modifies obj
    ensures Drafted(BeforeCreate(lib, FillSystemFields(old(ObjectValue(obj)), uid)), err, obj)
    ensures Sound(reach)
  {
    obj.v := obj.v.(meta := obj.v.meta.(uid := uid));
    assert ObjectValue(obj) == FillSystemFields(old(ObjectValue(obj)), uid);
    err := RunBeforeCreate(lib, obj);
  }

  /** The admission callback is shown a copy. kept is what the client may keep. */
  method DraftNew(lib: Library, obj: TaskObject, uid: string, admit: Task -> bool, ghost reach: Reach)
    returns (err: Option<Error>, kept: seq<TaskObject>, ghost reach': Reach)
    requires Sound(reach) && obj in reach.held
    modifies obj
    ensures Drafted(TaskOf(DraftCreate(lib, old(ObjectValue(obj)), uid, admit)), err, obj)
    ensures Sound(reach') && Widened(reach, reach') && Has(reach', kept)
    ensures err != Some(Invalid) ==> |kept| == 1 && fresh(kept[0]) && ObjectValue(kept[0]) == ObjectValue(obj)
  {
    kept, reach' := [], reach;
    err := PrepareNew(lib, obj, uid, reach);
    if err.None? {
      var copy;
      copy, reach' := ShowCopy(obj, reach);
      kept := [copy];
      if !admit(ObjectValue(copy)) {
        err := Some(Forbidden);
      }
    }
  }

  /** updateValidation sees copies of both objects. */
  method AdmitUpdate(admit: (Task, Task) -> bool, obj: TaskObject, existing: TaskObject, ghost reach: Reach)
    returns (ok: bool, kept: seq<TaskObject>, ghost reach': Reach)
    requires Sound(reach)
    ensures ok == admit(ObjectValue(obj), ObjectValue(existing))
    ensures Sound(reach') && Widened(reach, reach') && Has(reach', kept)
    ensures |kept| == 2 && fresh(kept[0]) && fresh(kept[1])
    ensures ObjectValue(kept[0]) == ObjectValue(obj) && ObjectValue(kept[1]) == ObjectValue(existing)
  {
    var copy, oldCopy;
    copy, reach' := ShowCopy(obj, reach);
    oldCopy, reach' := ShowCopy(existing, reach');
    kept := [copy, oldCopy];
    ok := admit(ObjectValue(copy), ObjectValue(oldCopy));
  }

  /** BeforeUpdate leaves the client's object sharing slices of existing, so these are within the
      clients' reach. */
  method PrepareChange(lib: Library, view: View, obj: TaskObject, existing: TaskObject, ghost reach: Reach)
    returns (err: Option<Error>)
    requires Sound(reach) && obj in reach.held && existing !in reach.memory && Refs(existing.v) <= reach.memory
    modifies obj
    ensures Drafted(BeforeUpdate(lib, view, old(ObjectValue(obj)), old(ObjectValue(existing))), err, obj)
    ensures ObjectValue(existing) == old(ObjectValue(existing)) && Sound(reach)
    ensures SharesHalf(view, obj.v, existing.v) && Refs(obj.v) <= old(Refs(obj.v)) + Refs(existing.v)
  {
    err := RunBeforeUpdate(lib, view, obj, existing);
  }

  /** From a client's object to a draft that replaces existing, in the order of the checks. The
      draft is the client's object still, now with slices of existing's. */
  method DraftChange(lib: Library, c: Call, obj: TaskObject, existing: TaskObject, ghost reach: Reach)
    returns (err: Option<Error>, kept: seq<TaskObject>, ghost reach': Reach)
    requires c.UpdateCall?
    requires Sound(reach) && obj in reach.held && existing !in reach.memory && Refs(existing.v) <= reach.memory
    modifies obj
    ensures Drafted(TaskOf(DraftReplace(lib, c, old(ObjectValue(obj)), old(ObjectValue(existing)))), err, obj)
    ensures err.None? ==> SharesHalf(c.view, obj.v, existing.v)
    ensures Refs(obj.v) <= old(Refs(obj.v)) + Refs(existing.v)
    ensures Sound(reach') && Widened(reach, reach') && Has(reach', kept)
    ensures err.None? ==> |kept| == 2 && fresh(kept[0]) && ObjectValue(kept[0]) == ObjectValue(obj)
    ensures err.None? ==> fresh(kept[1]) && ObjectValue(kept[1]) == ObjectValue(existing)
  {
    kept, reach' := [], reach;
    if !PreconditionsHold(ObjectValue(existing), c.pre) {
      return Some(Conflict), kept, reach';
    }
    if !ResourceVersionHolds(ObjectValue(existing), ObjectValue(obj)) {
      return Some(Conflict), kept, reach';
    }
    err := PrepareChange(lib, c.view, obj, existing, reach);
    if err.None? {
      var admitted;
      admitted, kept, reach' := AdmitUpdate(c.admitUpdate, obj, existing, reach);
      err := if admitted then None else Some(Forbidden);
    }
  }

  /** The create path: nothing was found, and the caller may create. What the client may keep is the
      empty object it was shown, the one it submitted and the copy that admission saw. */
  method DecideCreation(lib: Library, c: Call, place: Place, ghost reach: Reach)
    returns (obj: TaskObject, err: Option<Error>, kept: seq<TaskObject>, ghost reach': Reach)
    requires c.UpdateCall? && (c.force || ALLOW_CREATE_ON_UPDATE)
    requires Sound(reach) && (place.Held? ==> place.p in reach.held)
    modifies if place.Held? then {place.p} else {}
    ensures Drafted(TaskOf(DraftUpdate(lib, c, None)), err, obj)
    ensures Sound(reach') && Widened(reach, reach') && obj in kept && Has(reach', kept)
    ensures err.None? ==> |kept| == 3
    ensures err.None? && place.Held? ==> obj == place.p
  {
    var ok, shown;
    var empty := Materialize(EMPTY_TASK);
    obj, ok, reach' := UpdatedObject(c.updated, empty, place, Holding(reach, empty));
    kept := [empty, obj];
    if !ok {
      return obj, Some(UpdateRejected), kept, reach';
    }
    err, shown, reach' := DraftNew(lib, obj, c.uid, c.admitCreate, reach');
    kept := kept + shown;
  }

  /** The update path, from a private copy of what the store held. What the client may keep is the
      copy it was shown, the object it submitted and the two copies that admission saw. */
  method DecideChange(lib: Library, c: Call, existing: TaskObject, place: Place, ghost reach: Reach)
    returns (obj: TaskObject, err: Option<Error>, kept: seq<TaskObject>, ghost reach': Reach)
    requires c.UpdateCall? && existing !in reach.memory && Refs(existing.v) <= reach.memory
    requires Sound(reach) && (place.Held? ==> place.p in reach.held)
    modifies if place.Held? then {place.p} else {}
    ensures Drafted(TaskOf(DraftUpdate(lib, c, Some(old(ObjectValue(existing))))), err, obj)
    ensures Sound(reach') && Widened(reach, reach') && obj in kept && Has(reach', kept)
    ensures err.None? ==> |kept| == 4
    ensures err.None? && place.Held? ==> obj == place.p
  {
    var ok, shown, copies;
    obj, shown, ok, reach' := UpdatedFromCopy(c.updated, existing, place, reach);
    kept := [shown, obj];
    if !ok {
      return obj, Some(UpdateRejected), kept, reach';
    }
    err, copies, reach' := DraftChange(lib, c, obj, existing, reach');
    kept := kept + copies;
  }

  /** An update between its two store calls, about to write obj. */
  datatype Write = Write(key: Key, obj: TaskObject, creates: bool)

  function WriteValue(w: Write): Intent
    reads Footprint(w.obj)
  {
    Intent(w.key, ObjectValue(w.obj), w.creates)
  }

  ghost function Decision(r: Result<Write>): Result<Intent>
    reads if r.Ok? then Footprint(r.value.obj) else {}
  {
    match r case Ok(w) => Ok(WriteValue(w)) case Err(e) => Err(e)
  }

  /** updateOnStore from what its Get answered to its write. */
  method DecideFrom(lib: Library, c: Call, key: Key, got: Result<TaskObject>, place: Place, ghost reach: Reach)
    returns (w: Result<Write>, kept: seq<TaskObject>, ghost reach': Reach)
    requires c.UpdateCall? && (got.Err? ==> got.error == NotFound)
    requires got.Ok? ==> got.value !in reach.memory && Refs(got.value.v) <= reach.memory
    requires Sound(reach) && (place.Held? ==> place.p in reach.held)
    modifies if place.Held? then {place.p} else {}
    ensures var existing := if got.Ok? then Some(old(ObjectValue(got.value))) else None;
            Decision(w) == IntentAt(lib, c, key, existing)
    ensures Sound(reach') && Widened(reach, reach')
    ensures (w.Ok? ==> w.value.obj in kept && |kept| == if w.value.creates then 3 else 4) && Has(reach', kept)
    ensures w.Ok? && place.Held? ==> w.value.obj == place.p
  {
    kept, reach' := [], reach;
    if got.Err? && !c.force && !ALLOW_CREATE_ON_UPDATE {
      return Err(got.error), kept, reach';
    }
    var obj, err;
    if got.Ok? {
      obj, err, kept, reach' := DecideChange(lib, c, got.value, place, reach);
    } else {
      obj, err, kept, reach' := DecideCreation(lib, c, place, reach);
    }
    w := if err.Some? then Err(err.value) else Ok(Write(key, obj, got.Err?));
  }

  /** None of this touches the store. */
  method DecideBeside(store: Store, lib: Library, c: Call, key: Key, got: Result<TaskObject>, place: Place,
                      ghost reach: Reach)
    returns (w: Result<Write>, kept: seq<TaskObject>, ghost reach': Reach)
    requires c.UpdateCall? && Outcome(got) == StoreGet(store.State(), key)
    requires got.Ok? ==> got.value !in reach.memory && Refs(got.value.v) <= reach.memory
    requires store.Valid() && Apart(reach, store) && (place.Held? ==> place.p in reach.held)
    modifies if place.Held? then {place.p} else {}
    ensures store.Valid() && unchanged(store)
    ensures Decision(w) == IntentAt(lib, c, key, Lookup(store.Contents(), key))
    ensures Apart(reach', store) && Widened(reach, reach')
    ensures (w.Ok? ==> w.value.obj in kept && |kept| == if w.value.creates then 3 else 4) && Has(reach', kept)
    ensures w.Ok? && place.Held? ==> w.value.obj == place.p
  {
    ghost var valid := store.Valid();
    w, kept, reach' := DecideFrom(lib, c, key, got, place, reach);
    assert store.Valid() == valid;
  }

  /** The first half of updateOnStore: its Get and all that follows up to its write. The Get's
      slices come within the clients' reach, for the draft may share them. */
  method DecideWrite(store: Store, lib: Library, c: Call, place: Place, ghost reach: Reach)
    returns (w: Result<Write>, kept: seq<TaskObject>, ghost reach': Reach)
    requires store.Valid() && Apart(reach, store) && c.UpdateCall? && (place.Held? ==> place.p in reach.held)
    modifies if place.Held? then {place.p} else {}
    ensures store.Valid() && unchanged(store) && Decision(w) == DecideUpdate(lib, store.State(), c)
    ensures Apart(reach', store) && Widened(reach, reach')
    ensures (w.Ok? ==> w.value.obj in kept && |kept| == if w.value.creates then 3 else 4) && Has(reach', kept)
    ensures w.Ok? && place.Held? ==> w.value.obj == place.p
  {
    var named := KeyFromContext(c.namespace, c.name);
    if named.Err? {
      return Err(named.error), [], reach;
    }
    var got;
    got, reach' := GetShared(store, named.value, reach);
    w, kept, reach' := DecideBeside(store, lib, c, named.value, got, place, reach');
  }

  /** Get, with the slices it returns, but not the struct, within the clients' reach. */
  method GetShared(store: Store, key: Key, ghost reach: Reach) returns (got: Result<TaskObject>, ghost reach': Reach)
    requires store.Valid() && Apart(reach, store)
    ensures Outcome(got) == StoreGet(store.State(), key)
    ensures got.Ok? ==> fresh(got.value) && got.value !in reach'.memory && Refs(got.value.v) <= reach'.memory
    ensures Apart(reach', store) && Widened(reach, reach')
  {
    got := store.Get(key);
    if got.Ok? {
      TasksAreNotParts(got.value, got.value.v);
    }
    reach' := if got.Ok? then Reach(reach.held, reach.memory + Refs(got.value.v)) else reach;
  }

  /** The second half: the write, which leaves alone what clients can reach. */
  method CarryOut(store: Store, w: Write, ghost i: Intent, ghost reach: Reach) returns (r: Result<TaskObject>)
    requires store.Valid() && Apart(reach, store) && WriteValue(w) == i
    modifies store
    ensures store.Isolated(r) && Apart(reach, store)
    ensures (store.State(), Outcome(r)) == Carry(old(store.State()), i)
  {
    ghost var sound := Sound(reach);
    if w.creates {
      r := store.Create(w.key, w.obj);
    } else {
      r := store.Update(w.key, w.obj);
    }
    assert Sound(reach) == sound;
  }

  /** The shared update of both views. created tells a create on update from a replacement. The
      clients' objects stay apart from the store, the submitted one and the shown copies included. */
  method UpdateOnStore(store: Store, lib: Library, c: Call, place: Place, ghost reach: Reach)
    returns (r: Result<TaskObject>, created: bool, kept: seq<TaskObject>, ghost reach': Reach)
    requires store.Valid() && Apart(reach, store) && c.UpdateCall? && (place.Held? ==> place.p in reach.held)
    modifies store, if place.Held? then {place.p} else {}
    ensures store.Isolated(r)
    ensures (store.State(), Outcome(r)) == UpdateAt(lib, old(store.State()), c)
    ensures created <==> r.Ok? && Key(c.namespace, c.name) !in old(store.Contents())
    ensures Apart(reach', store) && Widened(reach, reach') && Has(reach', kept)
  {
    var w;
    w, kept, reach' := DecideWrite(store, lib, c, place, reach);
    if w.Err? {
      return Err(w.error), false, kept, reach';
    }
    r := CarryOut(store, w.value, WriteValue(w.value), reach');
    created := r.Ok? && w.value.creates;
  }

  /** list holds, one for one in the order given, copies of the matched objects, none sharing
      anything with another. */
  ghost predicate ListHolds(items: seq<TaskStruct>, order: seq<Key>, matched: map<Key, Task>, made: set<object>)
    reads made
  {
    && |items| == |order|
    && (forall i :: 0 <= i < |items| ==> Refs(items[i]) <= made)
    && (forall i, j :: 0 <= i < j < |items| ==> Refs(items[i]) !! Refs(items[j]))
    && (forall i :: 0 <= i < |items| ==> order[i] in matched && TaskValue(items[i]) == matched[order[i]])
  }

  lemma ListHoldsWith(items: seq<TaskStruct>, order: seq<Key>, matched: map<Key, Task>, made: set<object>,
                      k: Key, t: TaskStruct)
    requires ListHolds(items, order, matched, made)
    requires Refs(t) !! made && k in matched && TaskValue(t) == matched[k]
    ensures ListHolds(items + [t], order + [k], matched, made + Refs(t))
  {}

  /** m is the largest version among the objects at the keys of order, or 0. */
  ghost predicate MaxOver(order: seq<Key>, matched: map<Key, Task>, m: Uint64) {
    && (forall k :: k in order ==> k in matched && RVOf(matched[k]) <= m)
    && (m == 0 || exists k :: k in order && k in matched && RVOf(matched[k]) == m)
  }

  lemma MaxOverWith(order: seq<Key>, matched: map<Key, Task>, m: Uint64, k: Key)
    requires MaxOver(order, matched, m) && k in matched
    ensures MaxOver(order + [k], matched, if RVOf(matched[k]) > m then RVOf(matched[k]) else m)
  {
    assert k in order + [k];
    assert forall j :: j in order ==> j in order + [k];
  }

  lemma MaxOverAll(order: seq<Key>, matched: map<Key, Task>, m: Uint64)
    requires MaxOver(order, matched, m) && Enumerates(order, matched.Keys)
    ensures m == MaxRV(matched)
  {
    assert IsMaxRV(matched, m);
    MaxRVIsUnique(matched, m);
  }

  /** The visited keys that match. */
  function Visited(order: seq<Key>, matched: map<Key, Task>): set<Key> {
    set k | k in order && k in matched
  }

  lemma VisitedStep(order: seq<Key>, i: nat, matched: map<Key, Task>)
    requires i < |order| && forall a, b :: 0 <= a < b < |order| ==> order[a] != order[b]
    ensures order[i] !in Visited(order[..i], matched)
    ensures Visited(order[..i + 1], matched) ==
            Visited(order[..i], matched) + if order[i] in matched then {order[i]} else {}
  {
    assert order[..i + 1] == order[..i] + [order[i]];
  }

  lemma VisitedAll(order: seq<Key>, contents: map<Key, Task>, namespace: string,
                   selector: map<string, string> -> bool)
    requires Enumerates(order, Wanted(contents.Keys, namespace, {}))
    ensures Visited(order, Matching(contents, namespace, selector)) == Matching(contents, namespace, selector).Keys
  {}

  /** What the loop of List has selected so far: the items, their keys, the largest of their
      versions, and the memory they refer to. */
  datatype Selection = Selection(items: seq<TaskStruct>, order: seq<Key>, maxRV: Uint64, memory: set<object>)

  /** The loop invariant of List, over the keys visited so far. */
  ghost predicate Selected(visited: seq<Key>, selection: Selection, matched: map<Key, Task>)
    reads selection.memory
  {
    match selection case Selection(items, order, maxRV, memory) =>
      && ListHolds(items, order, matched, memory)
      && Enumerates(order, Visited(visited, matched))
      && MaxOver(order, matched, maxRV)
  }

  lemma SelectedStep(all: seq<Key>, i: nat, s: Selection, matched: map<Key, Task>, t: TaskStruct)
    requires i < |all| && forall a, b :: 0 <= a < b < |all| ==> all[a] != all[b]
    requires Selected(all[..i], s, matched) && Refs(t) !! s.memory
    requires all[i] in matched ==> TaskValue(t) == matched[all[i]]
    ensures if all[i] in matched
            then var rv := RVOf(matched[all[i]]);
                 Selected(all[..i + 1],
                          Selection(s.items + [t], s.order + [all[i]], if rv > s.maxRV then rv else s.maxRV,
                                    s.memory + Refs(t)),
                          matched)
            else Selected(all[..i + 1], s, matched)
  {
    VisitedStep(all, i, matched);
    if all[i] in matched {
      ListHoldsWith(s.items, s.order, matched, s.memory, all[i], t);
      EnumeratesWith(s.order, Visited(all[..i], matched), all[i]);
      MaxOverWith(s.order, matched, s.maxRV, all[i]);
    }
  }

  /** The loop of List: struct copies of the raw objects whose labels the selector matches, and
      the largest of their versions. The objects are not copied again. */
  method SelectItems(c: Call, raw: seq<TaskObject>, ghost rawOrder: seq<Key>, ghost rawMade: set<object>,
                     ghost contents: map<Key, Task>)
    returns (items: seq<TaskStruct>, maxRV: Uint64, ghost order: seq<Key>, ghost made: set<object>)
    requires c.ListCall? && Copies(raw, rawOrder, contents, rawMade)
    requires Enumerates(rawOrder, Wanted(contents.Keys, c.namespace, {}))
    ensures var matched := Matching(contents, c.namespace, c.selector);
            && made <= rawMade && ListHolds(items, order, matched, made)
            && Enumerates(order, matched.Keys) && maxRV == MaxRV(matched)
  {
    ghost var matched := Matching(contents, c.namespace, c.selector);
    items, maxRV, order, made := [], 0, [], {};
    for i := 0 to |raw|
      invariant made <= rawMade && Selected(rawOrder[..i], Selection(items, order, maxRV, made), matched)
      invariant forall m :: i <= m < |raw| ==> Refs(raw[m].v) !! made
    {
      var t := raw[i];
      assert rawOrder[i] in rawOrder;
      SelectedStep(rawOrder, i, Selection(items, order, maxRV, made), matched, t.v);
      if c.selector(Labels(ObjectValue(t))) {
        items := items + [t.v];
        var rv := ReadRVOrZero(t.v.meta.resourceVersion);
        if rv > maxRV {
          maxRV := rv;
        }
        order, made := order + [rawOrder[i]], made + Refs(t.v);
      }
    }
    assert rawOrder[..|raw|] == rawOrder;
    VisitedAll(rawOrder, contents, c.namespace, c.selector);
    MaxOverAll(order, matched, maxRV);
  }

  method NewList(items: seq<TaskStruct>, resourceVersion: string) returns (list: TaskListObject)
    ensures fresh(list) && list.resourceVersion == resourceVersion
    ensures list.items != null && fresh(list.items) && list.items[..] == items
  {
    var elements := MaterializeSlice(Of(items), ZERO_TASK);
    list := new TaskListObject(resourceVersion, elements);
  }

  /** The object's own namespace and name make the key, unless err has settled the answer. */
  method CreateUnderOwnKey(store: Store, obj: TaskObject, err: Option<Error>,
                           ghost drafted: Result<Task>, ghost reach: Reach)
    returns (r: Result<TaskObject>)
    requires store.Valid() && Apart(reach, store) && Drafted(drafted, err, obj)
    modifies store
    ensures store.Isolated(r) && Apart(reach, store)
    ensures (store.State(), Outcome(r)) == InsertAt(old(store.State()), drafted)
  {
    if err.Some? {
      return Err(err.value);
    }
    ghost var sound := Sound(reach);
    var key := Key(obj.v.meta.namespace, obj.v.meta.name);
    r := store.Create(key, obj);
    assert Sound(reach) == sound;
  }

  /** Drafting touches the client's object and nothing of the store. */
  method DraftBeside(store: Store, lib: Library, obj: TaskObject, uid: string, admit: Task -> bool,
                     ghost reach: Reach)
    returns (err: Option<Error>, kept: seq<TaskObject>, ghost reach': Reach)
    requires store.Valid() && Apart(reach, store) && obj in reach.held
    modifies obj
    ensures store.Valid() && unchanged(store)
    ensures Drafted(TaskOf(DraftCreate(lib, old(ObjectValue(obj)), uid, admit)), err, obj)
    ensures Apart(reach', store) && Widened(reach, reach') && Has(reach', kept)
  {
    ghost var valid := store.Valid();
    err, kept, reach' := DraftNew(lib, obj, uid, admit, reach);
    assert store.Valid() == valid;
  }

  /** The client's object is filled in and prepared in place, and stays the client's, as does what
      its admission callback is shown. */
  method CreateOnStore(store: Store, lib: Library, obj: TaskObject, uid: string, admit: Task -> bool,
                       ghost reach: Reach)
    returns (r: Result<TaskObject>, kept: seq<TaskObject>, ghost reach': Reach)
    requires store.Valid() && Apart(reach, store) && obj in reach.held
    modifies store, obj
    ensures (store.State(), Outcome(r)) == CreateAt(lib, old(store.State()), old(ObjectValue(obj)), uid, admit)
    ensures store.Isolated(r)
    ensures Apart(reach', store) && Widened(reach, reach') && Has(reach', kept)
  {
    ghost var drafted := TaskOf(DraftCreate(lib, ObjectValue(obj), uid, admit));
    var err;
    err, kept, reach' := DraftBeside(store, lib, obj, uid, admit, reach);
    r := CreateUnderOwnKey(store, obj, err, drafted, reach');
  }

  /** REST: the main view. */
  class REST {
    const store: Store
    const lib: Library

    constructor (store: Store, lib: Library)
      ensures this.store == store && this.lib == lib
    {
      this.store, this.lib := store, lib;
    }

    method Get(c: Call) returns (r: Result<TaskObject>)
      requires store.Valid() && c.GetCall?
      ensures store.Isolated(r)
      ensures (store.State(), Reply(Outcome(r))) == Handle(lib, store.State(), c)
    {
      var named := KeyFromContext(c.namespace, c.name);
      if named.Err? {
        return Err(named.error);
      }
      r := store.Get(named.value);
    }

    /** The first half of List: everything but the version of a list that matched nothing. */
    method Gather(c: Call)
      returns (items: seq<TaskStruct>, maxRV: Uint64, ghost order: seq<Key>, ghost made: set<object>)
      requires store.Valid() && c.ListCall?
      ensures var matched := Matching(store.State().items, c.namespace, c.selector);
              && fresh(made) && ListHolds(items, order, matched, made)
              && Enumerates(order, matched.Keys) && maxRV == MaxRV(matched)
    {
      var raw, rawOrder, rawMade := store.List(c.namespace);
      items, maxRV, order, made := SelectItems(c, raw, rawOrder, rawMade, store.Contents());
    }

    /** The second half. */
    method Conclude(items: seq<TaskStruct>, maxRV: Uint64) returns (list: TaskListObject)
      requires store.Valid()
      ensures fresh(list) && list.items != null && fresh(list.items) && list.items[..] == items
      ensures list.resourceVersion == FormatRV(if maxRV == 0 then store.State().rv else maxRV)
    {
      var rv := maxRV;
      if rv == 0 {
        rv := store.CurrentResourceVersion();
      }
      list := NewList(items, FormatRV(rv));
    }

    /** Building the list leaves alone what its items refer to. */
    method ConcludeBeside(items: seq<TaskStruct>, maxRV: Uint64, ghost order: seq<Key>,
                          ghost matched: map<Key, Task>, ghost made: set<object>) returns (list: TaskListObject)
      requires store.Valid() && ListHolds(items, order, matched, made)
      ensures fresh(list) && list.items != null && fresh(list.items) && ListHolds(list.items[..], order, matched, made)
      ensures list.resourceVersion == FormatRV(if maxRV == 0 then store.State().rv else maxRV)
    {
      ghost var held := ListHolds(items, order, matched, made);
      list := Conclude(items, maxRV);
      assert ListHolds(items, order, matched, made) == held;
      assert list.items[..] == items;
    }

    method ListObjects(c: Call, ghost matched: map<Key, Task>)
      returns (list: TaskListObject, ghost order: seq<Key>, ghost made: set<object>)
      requires store.Valid() && c.ListCall? && matched == Matching(store.State().items, c.namespace, c.selector)
      ensures fresh(list) && fresh(made) && list.items != null && fresh(list.items)
      ensures ListHolds(list.items[..], order, matched, made) && Enumerates(order, matched.Keys)
      ensures list.resourceVersion == FormatRV(ListRV(matched, store.State().rv))
    {
      var items, maxRV;
      items, maxRV, order, made := Gather(c);
      list := ConcludeBeside(items, maxRV, order, matched, made);
    }

    /** Whatever order the store hands its objects out in, the list has each matching object of
        this moment's store once, in memory of its own, under the version that Handle says. */
    method List(c: Call) returns (r: Result<TaskListObject>, ghost order: seq<Key>, ghost made: set<object>)
      requires store.Valid() && c.ListCall?
      ensures r.Err? <==> c.fieldSelector
      ensures r.Err? ==> Failed(r.error) == Handle(lib, store.State(), c).1
      ensures r.Ok? ==>
                && fresh(r.value) && fresh(made) && r.value.items != null && fresh(r.value.items)
                && var answer := Handle(lib, store.State(), c).1;
                && ListHolds(r.value.items[..], order, answer.items, made)
                && Enumerates(order, answer.items.Keys)
                && r.value.resourceVersion == answer.resourceVersion
    {
      order, made := [], {};
      if c.fieldSelector {
        return Err(Unsupported), order, made;
      }
      var list;
      ghost var matched := Matching(store.State().items, c.namespace, c.selector);
      assert Handle(lib, store.State(), c).1 == Listed(matched, FormatRV(ListRV(matched, store.State().rv)));
      list, order, made := ListObjects(c, matched);
      r := Ok(list);
    }

    method Create(obj: TaskObject, uid: string, admit: Task -> bool, ghost reach: Reach)
      returns (r: Result<TaskObject>, kept: seq<TaskObject>, ghost reach': Reach)
      requires store.Valid() && Apart(reach, store) && obj in reach.held
      modifies store, obj
      ensures store.Isolated(r)
      ensures (store.State(), Reply(Outcome(r))) ==
              Handle(lib, old(store.State()), CreateCall(old(ObjectValue(obj)), uid, admit))
      ensures Apart(reach', store) && Widened(reach, reach') && Has(reach', kept)
    {
      r, kept, reach' := CreateOnStore(store, lib, obj, uid, admit, reach);
    }

    method Update(c: Call, place: Place, ghost reach: Reach)
      returns (r: Result<TaskObject>, created: bool, kept: seq<TaskObject>, ghost reach': Reach)
      requires store.Valid() && Apart(reach, store) && c.UpdateCall? && c.view.MainView?
      requires place.Held? ==> place.p in reach.held
      modifies store, if place.Held? then {place.p} else {}
      ensures store.Isolated(r)
      ensures (store.State(), Reply(Outcome(r))) == Handle(lib, old(store.State()), c)
      ensures created <==> r.Ok? && Key(c.namespace, c.name) !in old(store.Contents())
      ensures Apart(reach', store) && Widened(reach, reach') && Has(reach', kept)
    {
      r, created, kept, reach' := UpdateOnStore(store, lib, c, place, reach);
    }

    /** Delete's checks, on a private copy of what the store held. */
    method CheckRemoval(c: Call, existing: TaskObject, ghost reach: Reach)
      returns (err: Option<Error>, kept: seq<TaskObject>, ghost reach': Reach)
      requires c.DeleteCall? && Sound(reach)
      ensures err == CheckDelete(c, ObjectValue(existing))
      ensures Sound(reach') && Widened(reach, reach') && Has(reach', kept)
      ensures err != Some(Conflict) ==> Shown(kept, ObjectValue(existing))
    {
      kept, reach' := [], reach;
      if !PreconditionsHold(ObjectValue(existing), c.pre) {
        return Some(Conflict), kept, reach';
      }
      var shown;
      shown, reach' := ShowCopy(existing, reach);
      kept := [shown];
      err := if c.admitDelete(ObjectValue(shown)) then None else Some(Forbidden);
    }

    /** The first half of Delete: its Get and the checks. */
    method DecideRemoval(c: Call, ghost reach: Reach)
      returns (k: Result<Key>, kept: seq<TaskObject>, ghost reach': Reach)
      requires store.Valid() && Apart(reach, store) && c.DeleteCall?
      ensures k == DecideDelete(store.State(), c)
      ensures Apart(reach', store) && Widened(reach, reach') && Has(reach', kept)
      ensures k.Ok? ==> k.value in store.Contents() && Shown(kept, store.Contents()[k.value])
    {
      kept, reach' := [], reach;
      k := KeyFromContext(c.namespace, c.name);
      if k.Err? {
        return k, kept, reach';
      }
      var existing := store.Get(k.value);
      if existing.Err? {
        return Err(existing.error), kept, reach';
      }
      var err;
      err, kept, reach' := CheckRemoval(c, existing.value, reach);
      k := if err.Some? then Err(err.value) else k;
    }

    /** The second half. */
    method RemoveKey(key: Key, ghost reach: Reach) returns (r: Result<TaskObject>)
      requires store.Valid() && Apart(reach, store)
      modifies store
      ensures store.Isolated(r) && store.Repr() == old(store.Repr()) && Apart(reach, store)
      ensures (store.State(), Outcome(r)) == StoreDelete(old(store.State()), key)
    {
      ghost var sound := Sound(reach);
      r := store.Delete(key);
      assert Sound(reach) == sound;
    }

    method Remove(c: Call, ghost reach: Reach)
      returns (r: Result<TaskObject>, kept: seq<TaskObject>, ghost reach': Reach)
      requires store.Valid() && Apart(reach, store) && c.DeleteCall?
      modifies store
      ensures store.Isolated(r) && store.Repr() == old(store.Repr())
      ensures (store.State(), Outcome(r)) == DeleteAt(old(store.State()), c)
      ensures Apart(reach', store) && Widened(reach, reach') && Has(reach', kept)
    {
      var k;
      k, kept, reach' := DecideRemoval(c, reach);
      if k.Err? {
        return Err(k.error), kept, reach';
      }
      r := RemoveKey(k.value, reach');
    }

    method Delete(c: Call, ghost reach: Reach)
      returns (r: Result<TaskObject>, immediate: bool, kept: seq<TaskObject>, ghost reach': Reach)
      requires store.Valid() && Apart(reach, store) && c.DeleteCall?
      modifies store
      ensures store.Isolated(r) && store.Repr() == old(store.Repr())
      ensures (store.State(), Reply(Outcome(r))) == Handle(lib, old(store.State()), c)
      ensures immediate == r.Ok?
      ensures Apart(reach', store) && Widened(reach, reach') && Has(reach', kept)
    {
      r, kept, reach' := Remove(c, reach);
      immediate := r.Ok?;
    }
  }

  /** StatusREST: the /status view of the same store. */
  class StatusREST {
    const store: Store
    const lib: Library

    constructor (store: Store, lib: Library)
      ensures this.store == store && this.lib == lib
    {
      this.store, this.lib := store, lib;
    }

    method Update(c: Call, place: Place, ghost reach: Reach)
      returns (r: Result<TaskObject>, created: bool, kept: seq<TaskObject>, ghost reach': Reach)
      requires store.Valid() && Apart(reach, store) && c.UpdateCall? && c.view.StatusView?
      requires place.Held? ==> place.p in reach.held
      modifies store, if place.Held? then {place.p} else {}
      ensures store.Isolated(r)
      ensures (store.State(), Reply(Outcome(r))) == Handle(lib, old(store.State()), c)
      ensures created <==> r.Ok? && Key(c.namespace, c.name) !in old(store.Contents())
      ensures Apart(reach', store) && Widened(reach, reach') && Has(reach', kept)
    {
      r, created, kept, reach' := UpdateOnStore(store, lib, c, place, reach);
    }
  }
}
