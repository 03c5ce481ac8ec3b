/** The store of pkg/storage/inmemory/store.go as a pure map with a counter. Each function is
    one lock-protected call, hence one atomic step. */
module StoreSpec {
  import opened TaskTypes
  import opened ResourceVersion

  datatype State = State(items: map<Key, Task>, rv: Uint64)

  const EMPTY_STORE := State(map[], 0)

  function Stamp(t: Task, rv: Uint64): Task {
    t.(meta := t.meta.(resourceVersion := FormatRV(rv)))
  }

  function Lookup(items: map<Key, Task>, key: Key): Option<Task> {
    if key in items then Some(items[key]) else None
  }

  function StoreGet(s: State, key: Key): Result<Task> {
    if key in s.items then Ok(s.items[key]) else Err(NotFound)
  }

  function StorePut(s: State, key: Key, t: Task): (State, Result<Task>) {
    var rv := IncUint64(s.rv);
    var stored := Stamp(t, rv);
    (State(s.items[key := stored], rv), Ok(stored))
  }

  function StoreCreate(s: State, key: Key, t: Task): (State, Result<Task>) {
    if key in s.items then (s, Err(AlreadyExists)) else StorePut(s, key, t)
  }

  function StoreUpdate(s: State, key: Key, t: Task): (State, Result<Task>) {
    if key in s.items then StorePut(s, key, t) else (s, Err(NotFound))
  }

  function StoreDelete(s: State, key: Key): (State, Result<Task>) {
    if key in s.items then (State(s.items - {key}, IncUint64(s.rv)), Ok(s.items[key]))
    else (s, Err(NotFound))
  }

  /** An empty namespace selects every namespace. */
  predicate InNamespace(namespace: string, key: Key) {
    namespace == "" || key.namespace == namespace
  }

  predicate Selects(namespace: string, selector: map<string, string> -> bool, key: Key, t: Task) {
    InNamespace(namespace, key) && selector(Labels(t))
  }

  function Matching(items: map<Key, Task>, namespace: string, selector: map<string, string> -> bool): map<Key, Task> {
    map k | k in items && Selects(namespace, selector, k, items[k]) :: items[k]
  }

  function RVOf(t: Task): Uint64 {
    ParseRVOrZero(t.meta.resourceVersion)
  }

  /** m is the largest version among the items, or 0 when there are none. */
  ghost predicate IsMaxRV(items: map<Key, Task>, m: Uint64) {
    && (forall k :: k in items ==> RVOf(items[k]) <= m)
    && (m == 0 || exists k :: k in items && RVOf(items[k]) == m)
  }

  ghost function MaxRV(items: map<Key, Task>): (m: Uint64)
    ensures IsMaxRV(items, m)
  {
    if items == map[] then 0 else
      var k :| k in items;
      var rest := MaxRV(items - {k});
      assert forall j :: j in items ==> j == k || j in items - {k};
      if RVOf(items[k]) > rest then RVOf(items[k]) else rest
  }

  lemma MaxRVIsUnique(items: map<Key, Task>, m: Uint64)
    requires IsMaxRV(items, m)
    ensures m == MaxRV(items)
  {}

  /** Every stored object carries a version between 1 and the counter. */
  ghost predicate Stamped(s: State) {
    forall k :: k in s.items ==> 1 <= RVOf(s.items[k]) <= s.rv
  }

  /** A write keeps the store stamped, and its stamp is above every version the store has ever
      issued, exactly until the counter wraps. */
  lemma PutKeepsStampedIff(s: State, key: Key, t: Task)
    requires Stamped(s)
    ensures s.rv < MAX_UINT64 <==> RVOf(StorePut(s, key, t).1.value) > s.rv
    ensures s.rv < MAX_UINT64 ==> Stamped(StorePut(s, key, t).0)
  {
    ParseFormat(IncUint64(s.rv));
  }
}
