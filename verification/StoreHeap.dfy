/** The store in memory: a map of pointers and a counter, changed in place. Each method is one
    lock-protected call of pkg/storage/inmemory/store.go. Isolation is where it deep-copies:
    what goes in is copied before it is kept, what comes out is a copy of what is kept. */
module StoreHeap {
  import opened TaskTypes
  import opened ResourceVersion
  import opened StoreSpec
  import opened TaskHeap

  ghost function Outcome(r: Result<TaskObject>): Result<Task>
    reads if r.Ok? then Footprint(r.value) else {}
  {
    match r case Ok(p) => Ok(ObjectValue(p)) case Err(e) => Err(e)
  }

  /** p consists of exactly the objects of own, and says t. */
  ghost predicate Holds(p: TaskObject, own: set<object>, t: Task)
    reads own
  {
    p in own && Footprint(p) == own && ObjectValue(p) == t
  }

  /** All memory that was ever kept; what each stored object says; the objects it consists of. */
  datatype Ledger = Ledger(repr: set<object>, contents: map<Key, Task>, owned: map<Key, set<object>>)

  /** Each stored object consists of its own objects, all within repr, shared with no other
      stored object, and says what contents has for its key. */
  ghost predicate Kept(items: map<Key, TaskObject>, l: Ledger)
    reads l.repr
  {
    match l case Ledger(repr, contents, owned) =>
      && contents.Keys == items.Keys && owned.Keys == items.Keys
      && (forall k {:trigger owned[k]} :: k in items ==> owned[k] <= repr && Holds(items[k], owned[k], contents[k]))
      && (forall j, k {:trigger owned[j], owned[k]} :: j in owned && k in owned && j != k ==> owned[j] !! owned[k])
  }

  ghost function LedgerWith(l: Ledger, key: Key, own: set<object>, t: Task): Ledger {
    Ledger(l.repr + own, l.contents[key := t], l.owned[key := own])
  }

  ghost function LedgerWithout(l: Ledger, key: Key): Ledger {
    Ledger(l.repr, l.contents - {key}, l.owned - {key})
  }

  lemma KeptWith(items: map<Key, TaskObject>, l: Ledger, key: Key, p: TaskObject, own: set<object>, t: Task)
    requires Kept(items, l) && Holds(p, own, t) && own !! l.repr
    ensures Kept(items[key := p], LedgerWith(l, key, own, t))
  {}

  lemma KeptWithout(items: map<Key, TaskObject>, l: Ledger, key: Key)
    requires Kept(items, l)
    ensures Kept(items - {key}, LedgerWithout(l, key))
  {}

  /** out holds one copy for each key of order, made of distinct objects of made. */
  ghost predicate Copies(out: seq<TaskObject>, order: seq<Key>, contents: map<Key, Task>, made: set<object>)
    reads made
  {
    && |out| == |order|
    && (forall i :: 0 <= i < |out| ==>
          && out[i] in made && Footprint(out[i]) <= made
          && order[i] in contents && ObjectValue(out[i]) == contents[order[i]])
    && (forall i, j :: 0 <= i < j < |out| ==> Footprint(out[i]) !! Footprint(out[j]))
  }

  lemma CopiesWith(out: seq<TaskObject>, order: seq<Key>, contents: map<Key, Task>, made: set<object>,
                   k: Key, p: TaskObject)
    requires Copies(out, order, contents, made) && Footprint(p) !! made
    requires k in contents && ObjectValue(p) == contents[k]
    ensures Copies(out + [p], order + [k], contents, made + Footprint(p))
  {}

  /** order enumerates keys, each once. */
  ghost predicate Enumerates(order: seq<Key>, keys: set<Key>) {
    && (forall i, j :: 0 <= i < j < |order| ==> order[i] != order[j])
    && (forall k :: k in order <==> k in keys)
  }

  lemma {:induction false} EnumerationLength(order: seq<Key>, keys: set<Key>)
    requires Enumerates(order, keys)
    ensures |order| == |keys|
  {
    if order == [] {
      assert keys == {};
    } else {
      var front, last := order[..|order| - 1], order[|order| - 1];
      assert forall k :: k in keys <==> k in front || k == last;
      EnumerationLength(front, keys - {last});
    }
  }

  /** The keys of the namespace that are not among those still to be visited. */
  function Wanted(all: set<Key>, namespace: string, left: set<Key>): set<Key> {
    set k | k in all && InNamespace(namespace, k) && k !in left
  }

  lemma WantedStep(all: set<Key>, namespace: string, left: set<Key>, k: Key)
    requires k in left && left <= all
    ensures k !in Wanted(all, namespace, left)
    ensures Wanted(all, namespace, left - {k}) ==
            Wanted(all, namespace, left) + if InNamespace(namespace, k) then {k} else {}
  {}

  lemma EnumeratesWith(order: seq<Key>, keys: set<Key>, k: Key)
    requires Enumerates(order, keys) && k !in keys
    ensures Enumerates(order + [k], keys + {k})
  {}

  /** The objects that List has copied so far, their keys, and the memory they are made of. */
  datatype Batch = Batch(objects: seq<TaskObject>, order: seq<Key>, memory: set<object>)

  /** The loop invariant of List: copies of the wanted objects other than those left to visit. */
  ghost predicate Gathered(b: Batch, contents: map<Key, Task>, namespace: string, left: set<Key>)
    reads b.memory
  {
    match b case Batch(objects, order, memory) =>
      Copies(objects, order, contents, memory) && Enumerates(order, Wanted(contents.Keys, namespace, left))
  }

  class Store {
    var items: map<Key, TaskObject>
    var rv: Uint64

    /** The abstract side of the store, which Valid ties to the memory. */
    ghost var ledger: Ledger

    /** Everything the store has ever kept. */
    ghost function Repr(): set<object>
      reads this`ledger
    {
      ledger.repr
    }

    ghost function Contents(): map<Key, Task>
      reads this`ledger
    {
      ledger.contents
    }

    /** Stored objects live inside Repr and share nothing with each other. */
    ghost predicate Valid()
      reads this`items, this`ledger, Repr()
    {
      this !in Repr() && Kept(items, ledger)
    }

    /** The store as the pure map that the specification speaks of. */
    ghost function State(): State
      reads this
    {
      StoreSpec.State(Contents(), rv)
    }

    /** How every call treats memory: what it answers is new and apart from what the store keeps,
        and an error changes nothing. */
    twostate predicate Isolated(new r: Result<TaskObject>)
      reads this, Repr(), if r.Ok? then Footprint(r.value) else {}
    {
      match r
      case Ok(p) => Valid() && fresh(Footprint(p)) && Footprint(p) !! Repr()
      case Err(_) => Valid() && unchanged(this)
    }

    constructor ()
      ensures Valid() && Repr() == {} && State() == EMPTY_STORE
    {
      items, rv := map[], 0;
      ledger := Ledger({}, map[], map[]);
    }

    method BumpAndStampLocked(obj: TaskObject)
      modifies this`rv, obj
      ensures rv == IncUint64(old(rv))
      ensures Refs(obj.v) == old(Refs(obj.v)) && ObjectValue(obj) == Stamp(old(ObjectValue(obj)), rv)
    {
      rv := IncUint64(rv);
      obj.v := obj.v.(meta := obj.v.meta.(resourceVersion := FormatRV(rv)));
    }

    method CopyIn(obj: TaskObject) returns (stored: TaskObject)
      modifies this`rv
      ensures rv == IncUint64(old(rv)) && fresh(Footprint(stored))
      ensures ObjectValue(stored) == Stamp(old(ObjectValue(obj)), rv)
    {
      stored := DeepCopy(obj);
      BumpAndStampLocked(stored);
    }

    /** s.items[key] = stored */
    method Keep(key: Key, stored: TaskObject, ghost t: Task)
      requires Valid() && Footprint(stored) !! Repr() && ObjectValue(stored) == t
      requires this !in Footprint(stored)
      modifies this`items, this`ledger
      ensures Valid() && Repr() == old(Repr()) + Footprint(stored) && Contents() == old(Contents())[key := t]
      ensures ObjectValue(stored) == t
    {
      KeptWith(items, ledger, key, stored, Footprint(stored), t);
      ledger := LedgerWith(ledger, key, Footprint(stored), t);
      items := items[key := stored];
    }

    lemma StoredSays(key: Key)
      requires Valid() && key in items
      ensures ObjectValue(items[key]) == Contents()[key] && this !in Footprint(items[key])
    {
      assert Holds(items[key], ledger.owned[key], ledger.contents[key]);
    }

    /** delete(s.items, key) */
    method Drop(key: Key, ghost rest: Ledger)
      requires Valid() && rest == LedgerWithout(ledger, key)
      modifies this`items, this`ledger
      ensures Valid() && ledger == rest
    {
      KeptWithout(items, ledger, key);
      var remaining := items - {key};
      ghost var kept := Kept(remaining, rest);
      ledger := rest;
      items := remaining;
      assert Kept(remaining, rest) == kept;
    }

    /** Delete's two changes of the store, which leave the object itself alone. */
    method DropAndBump(key: Key, ghost rest: Ledger, ghost obj: TaskObject, ghost t: Task)
      requires Valid() && rest == LedgerWithout(ledger, key)
      requires ObjectValue(obj) == t && this !in Footprint(obj)
      modifies this`items, this`rv, this`ledger
      ensures Valid() && ledger == rest && rv == IncUint64(old(rv))
      ensures ObjectValue(obj) == t
    {
      Drop(key, rest);
      ghost var valid := Valid();
      rv := IncUint64(rv);
      assert Valid() == valid;
    }

    /** The common tail of Create and Update: copy in, stamp, keep, copy out. */
    method Put(key: Key, obj: TaskObject) returns (p: TaskObject)
      requires Valid()
      modifies this
      ensures Valid() && (forall o :: o in Repr() ==> o in old(Repr()) || fresh(o))
      ensures rv == IncUint64(old(rv)) && ObjectValue(p) == Stamp(old(ObjectValue(obj)), rv)
      ensures Contents() == old(Contents())[key := ObjectValue(p)]
      ensures fresh(Footprint(p)) && Footprint(p) !! Repr()
    {
      var stored := CopyIn(obj);
      Keep(key, stored, ObjectValue(stored));
      p := DeepCopy(stored);
    }

    method Create(key: Key, obj: TaskObject) returns (r: Result<TaskObject>)
      requires Valid()
      modifies this
      ensures Isolated(r) && (forall o :: o in Repr() ==> o in old(Repr()) || fresh(o))
      ensures (State(), Outcome(r)) == StoreCreate(old(State()), key, old(ObjectValue(obj)))
    {
      if key in items {
        return Err(AlreadyExists);
      }
      var p := Put(key, obj);
      r := Ok(p);
    }

    method Get(key: Key) returns (r: Result<TaskObject>)
      requires Valid()
      ensures Isolated(r) && Outcome(r) == StoreGet(State(), key)
    {
      if key !in items {
        return Err(NotFound);
      }
      var p := DeepCopy(items[key]);
      r := Ok(p);
    }

    method Update(key: Key, obj: TaskObject) returns (r: Result<TaskObject>)
      requires Valid()
      modifies this
      ensures Isolated(r) && (forall o :: o in Repr() ==> o in old(Repr()) || fresh(o))
      ensures (State(), Outcome(r)) == StoreUpdate(old(State()), key, old(ObjectValue(obj)))
    {
      if key !in items {
        return Err(NotFound);
      }
      var p := Put(key, obj);
      r := Ok(p);
    }

    method Delete(key: Key) returns (r: Result<TaskObject>)
      requires Valid()
      modifies this
      ensures Isolated(r) && Repr() == old(Repr())
      ensures (State(), Outcome(r)) == StoreDelete(old(State()), key)
    {
      if key !in items {
        return Err(NotFound);
      }
      StoredSays(key);
      var obj := items[key];
      DropAndBump(key, LedgerWithout(ledger, key), obj, Contents()[key]);
      var p := DeepCopy(obj);
      r := Ok(p);
    }

    method CurrentResourceVersion() returns (current: Uint64)
      requires Valid()
      ensures current == State().rv
    {
      current := rv;
    }

    method Len() returns (n: nat)
      requires Valid()
      ensures n == |State().items|
    {
      n := |items|;
      assert |Contents()| == |Contents().Keys| == |items.Keys|;
    }

    /** out = append(out, v.DeepCopyObject()) */
    method AppendCopy(k: Key, out: seq<TaskObject>, ghost order: seq<Key>, ghost made: set<object>)
      returns (out': seq<TaskObject>, ghost more: set<object>)
      requires Valid() && k in items && Copies(out, order, Contents(), made)
      ensures fresh(more) && Copies(out', order + [k], Contents(), made + more)
    {
      assert Holds(items[k], ledger.owned[k], ledger.contents[k]);
      var p := DeepCopy(items[k]);
      ghost var copied := Copies(out, order, Contents(), made);
      assert copied && Footprint(p) !! made;
      CopiesWith(out, order, Contents(), made, k, p);
      out', more := out + [p], Footprint(p);
    }

    /** One turn of List's loop. */
    method Visit(k: Key, left: set<Key>, namespace: string,
                 out: seq<TaskObject>, ghost order: seq<Key>, ghost made: set<object>)
      returns (out': seq<TaskObject>, ghost order': seq<Key>, ghost more: set<object>)
      requires Valid() && k in left && left <= items.Keys
      requires Gathered(Batch(out, order, made), Contents(), namespace, left)
      ensures fresh(more) && Gathered(Batch(out', order', made + more), Contents(), namespace, left - {k})
    {
      out', order', more := out, order, {};
      WantedStep(Contents().Keys, namespace, left, k);
      if InNamespace(namespace, k) {
        EnumeratesWith(order, Wanted(Contents().Keys, namespace, left), k);
        out', more := AppendCopy(k, out, order, made);
        order' := order + [k];
      } else {
        assert made + more == made;
      }
    }

    /** The keys come in no particular order; order says in which they came. */
    method List(namespace: string) returns (out: seq<TaskObject>, ghost order: seq<Key>, ghost made: set<object>)
      requires Valid()
      ensures fresh(made) && Copies(out, order, Contents(), made)
      ensures Enumerates(order, Wanted(Contents().Keys, namespace, {}))
    {
      out, order, made := [], [], {};
      var keys := items.Keys;
      while keys != {}
        invariant keys <= items.Keys && fresh(made)
        invariant Gathered(Batch(out, order, made), Contents(), namespace, keys)
        decreases keys
      {
        var k :| k in keys;
        ghost var more;
        out, order, more := Visit(k, keys, namespace, out, order, made);
        keys, made := keys - {k}, made + more;
      }
    }
  }
}
