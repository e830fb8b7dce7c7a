/** Small shared vocabulary: optional values, results, and sums over finite maps. */
module Common {

  datatype Option<+T> = None | Some(value: T)

  datatype Result<+T, +E> = Ok(value: T) | Err(error: E)
  {
    predicate IsFailure() { Err? }

    function PropagateFailure<U>(): Result<U, E>
      requires Err?
    {
      Err(error)
    }

    function Extract(): T
      requires Ok?
    {
      value
    }
  }

  function Or<T>(o: Option<T>, default: T): T { if o.Some? then o.value else default }

  type byte = b: int | 0 <= b < 256

  type bytes = seq<byte>

  const U32_LIMIT: nat := 0x1_0000_0000
  const U64_LIMIT: nat := 0x1_0000_0000_0000_0000

  type u32 = n: int | 0 <= n < U32_LIMIT
  type u64 = n: int | 0 <= n < U64_LIMIT

  function Min(a: int, b: int): int { if a <= b then a else b }

  function Max(a: int, b: int): int { if a >= b then a else b }

  function Zeros(n: nat): bytes { seq(n, _ => 0) }

  /** u64::saturating_add. */
  function SatAdd(a: u64, b: nat): u64 {
    if a + b < U64_LIMIT then a + b else U64_LIMIT - 1
  }

  /** usize/u64 saturating_sub. */
  function SatSub(a: nat, b: nat): nat {
    if b <= a then a - b else 0
  }

  /** The total weight of the values of a finite map. */
  ghost function Sum<K, V>(m: map<K, V>, w: V -> nat): nat
    decreases |m|
  {
    if m == map[] then 0
    else
      var k :| k in m;
      w(m[k]) + Sum(m - {k}, w)
  }

  /** Any key may be taken out of the sum first. */
  lemma {:induction false} SumRemove<K, V>(m: map<K, V>, k: K, w: V -> nat)
    requires k in m
    ensures Sum(m, w) == w(m[k]) + Sum(m - {k}, w)
    decreases |m|
  {
    var j :| j in m && Sum(m, w) == w(m[j]) + Sum(m - {j}, w);
    if j != k {
      SumRemove(m - {j}, k, w);
      SumRemove(m - {k}, j, w);
      assert (m - {j}) - {k} == (m - {k}) - {j};
    }
  }

  /** Storing a value replaces the weight its key had before. */
  lemma {:induction false} SumUpdate<K, V>(m: map<K, V>, k: K, v: V, w: V -> nat)
    ensures Sum(m[k := v], w) == Sum(m - {k}, w) + w(v)
    ensures k !in m ==> Sum(m[k := v], w) == Sum(m, w) + w(v)
  {
    SumRemove(m[k := v], k, w);
    assert m[k := v] - {k} == m - {k};
    assert k !in m ==> m - {k} == m;
  }
}
