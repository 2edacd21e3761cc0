/** Two's-complement 64-bit arithmetic, and the split instruction counter of
    `InstanceRuntimeData`: the count is `bound + adj`, and only `adj` is
    incremented by generated code. */
module Int64 {

  const MODULUS: int := 0x1_0000_0000_0000_0000
  const MAX: int := 0x7fff_ffff_ffff_ffff

  type i64 = x: int | -MAX - 1 <= x <= MAX

  /** The `i64` with the same bits as the unbounded sum `x`. */
  function Wrap(x: int): (r: i64)
    ensures -MAX - 1 <= x <= MAX ==> r == x
  {
    (x + MAX + 1) % MODULUS - MAX - 1
  }

  lemma WrapAbsorbs(a: int, b: int)
    ensures Wrap(Wrap(a) + b) == Wrap(a + b)
  {
  }

  lemma WrapShift(a: int, b: int, c: int)
    requires Wrap(a) == Wrap(b)
    ensures Wrap(a + c) == Wrap(b + c)
  {
  }

  /** The two counter fields of `InstanceRuntimeData`. */
  datatype Counter = Counter(adj: i64, bound: i64) {
    /** What `get_instruction_count` reports. */
    function Total(): i64 { Wrap(bound + adj) }
  }

  /** `set_instruction_bound_delta` for a delta that fits an `i64`; no bound is a delta of `MAX`. */
  function SetBoundDelta(c: Counter, delta: nat): Counter
    requires delta <= MAX
  {
    var sum := Wrap(c.adj + c.bound);
    Counter(0 - delta, Wrap(sum + delta))
  }

  /** Moving the bound never changes the count, whatever is still to be added to it. */
  lemma SetBoundDeltaPreservesTotal(c: Counter, delta: nat, pending: int)
    requires delta <= MAX
    ensures var d := SetBoundDelta(c, delta);
            && d.adj == 0 - delta
            && Wrap(d.adj + d.bound + pending) == Wrap(c.adj + c.bound + pending)
            && d.Total() == c.Total()
  {
  }
}
