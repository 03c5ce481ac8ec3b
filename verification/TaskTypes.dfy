/** The Task API as plain values: what a Task says, with no memory behind it.
    The heap layer (TaskHeap) maps every Go struct to one of these values. */
module TaskTypes {

  const MAX_UINT64: int := 0xFFFF_FFFF_FFFF_FFFF
  const MAX_INT64: int := 0x7FFF_FFFF_FFFF_FFFF
  const MIN_INT64: int := -0x8000_0000_0000_0000
  const TWO_TO_64: int := 0x1_0000_0000_0000_0000

  type Uint64 = n: int | 0 <= n <= MAX_UINT64
  type Int64 = n: int | MIN_INT64 <= n <= MAX_INT64

  datatype Option<+T> = None | Some(value: T)

  /** Kinds of failure a client can tell apart; message texts are not modelled. */
  datatype Error =
    | BadRequest | NotFound | AlreadyExists | Conflict | Invalid
    | Forbidden       // an admission callback said no
    | UpdateRejected  // the client's UpdatedObject callback failed
    | Unsupported     // a field selector on List

  datatype Result<+T> = Ok(value: T) | Err(error: Error)

  /** A Go slice seen as a value: nil and empty are different. */
  datatype Slice<+T> = Nil | Of(elems: seq<T>) {
    function Elems(): seq<T> {
      if Nil? then [] else elems
    }
  }

  datatype Key = Key(namespace: string, name: string)

  datatype Condition = Condition(
    kind: string, status: string, observedGeneration: Int64,
    lastTransitionTime: int, reason: string, message: string)

  datatype Spec = Spec(image: string, command: Slice<string>, args: Slice<string>)

  datatype Status = Status(phase: string, conditions: Slice<Condition>, observedGeneration: Int64)

  /** The part of ObjectMeta that the registry reads or writes. A nil label map is None. */
  datatype Meta = Meta(
    name: string, namespace: string, uid: string, resourceVersion: string,
    generation: Int64, labels: Option<map<string, string>>)

  datatype Task = Task(meta: Meta, spec: Spec, status: Status)

  const EMPTY_STATUS := Status("", Nil, 0)
  const EMPTY_TASK := Task(Meta("", "", "", "", 0, None), Spec("", Nil, Nil), EMPTY_STATUS)

  function OwnKey(t: Task): Key {
    Key(t.meta.namespace, t.meta.name)
  }

  function Labels(t: Task): map<string, string> {
    if t.meta.labels.None? then map[] else t.meta.labels.value
  }

  /** The Go int64 and uint64 increments, which wrap at the top of the range. */
  function IncInt64(n: Int64): Int64 {
    if n == MAX_INT64 then MIN_INT64 else n + 1
  }

  function IncUint64(n: Uint64): Uint64 {
    if n == MAX_UINT64 then 0 else n + 1
  }

  /** The int64 that a counter shows after counting up to n from zero. */
  function WrapInt64(n: nat): Int64 {
    (n + TWO_TO_64 / 2) % TWO_TO_64 - TWO_TO_64 / 2
  }

  lemma WrapStep(n: nat)
    ensures WrapInt64(n + 1) == IncInt64(WrapInt64(n))
  {
    var h := n + TWO_TO_64 / 2;
    var q, r := h / TWO_TO_64, h % TWO_TO_64;
    assert h == q * TWO_TO_64 + r;
    if r + 1 == TWO_TO_64 {
      assert h + 1 == (q + 1) * TWO_TO_64;
    } else {
      assert h + 1 == q * TWO_TO_64 + (r + 1);
    }
  }

  lemma WrapSmall(n: nat)
    requires n <= MAX_INT64
    ensures WrapInt64(n) == n
  {}

  /** Two counts less than 2^64 apart never show the same int64. */
  lemma WrapInjective(m: nat, n: nat)
    requires m <= n < m + TWO_TO_64
    requires WrapInt64(m) == WrapInt64(n)
    ensures m == n
  {
    var h, g := m + TWO_TO_64 / 2, n + TWO_TO_64 / 2;
    assert h == (h / TWO_TO_64) * TWO_TO_64 + h % TWO_TO_64;
    assert g == (g / TWO_TO_64) * TWO_TO_64 + g % TWO_TO_64;
    assert g - h == (g / TWO_TO_64 - h / TWO_TO_64) * TWO_TO_64;
  }
}
