/**
 * Definitions shared across the model: an optional value, the moduli of the
 * unsigned integer widths the sources compute in, and the sum of a sequence
 * of counts.
 */
module Basics {
  datatype Option<T> = None | Some(value: T)

  /** uint32_t (and vmesh::LocalID) arithmetic wraps modulo 2^32. */
  const UINT32_MODULUS: nat := 0x1_0000_0000
  /** uint64_t arithmetic wraps modulo 2^64. */
  const UINT64_MODULUS: nat := 0x1_0000_0000_0000_0000

  /** The sum of a sequence of counts. */
  function Sum(counts: seq<nat>): nat
  {
    if counts == [] then 0 else Sum(counts[..|counts| - 1]) + counts[|counts| - 1]
  }

  lemma SumSnoc(counts: seq<nat>, n: nat)
    ensures Sum(counts + [n]) == Sum(counts) + n
  {
    assert (counts + [n])[..|counts|] == counts;
  }
}
