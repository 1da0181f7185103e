/**
 * Java `long` bit masks, as the set of bit positions that are 1.
 * Bitwise OR is union, AND-NOT is difference, and `(mask & bits) == mask`
 * is inclusion.
 */
module Bits {

  /** The width of a Java `long`. */
  const Width: nat := 64

  /** The position of the sign bit of a Java `long`. */
  const SignPosition: nat := 63

  /** A 64-bit pattern: the positions, all below 64, at which it has a 1. */
  type Mask = m: set<nat> | forall i :: i in m ==> i < Width

  /** 2 to the power `k`. */
  function Pow2(k: nat): (p: nat)
    ensures p >= 1
  {
    if k == 0 then 1 else 2 * Pow2(k - 1)
  }

  /** The unsigned value of the positions of `m` below `k`: the sum of `2^i`. */
  function ValueBelow(m: Mask, k: nat): nat
    decreases k
  {
    if k == 0 then 0
    else ValueBelow(m, k - 1) + (if k - 1 in m then Pow2(k - 1) else 0)
  }

  /** The value a Java `long` with bit pattern `m` denotes (two's complement). */
  function ToSigned(m: Mask): int
  {
    ValueBelow(m, SignPosition) - (if SignPosition in m then Pow2(SignPosition) else 0)
  }

  /** Java's `x > 0` on a `long`, written on the bit pattern: some bit set, and not the sign bit. */
  predicate SignedPositive(m: Mask)
  {
    m != {} && SignPosition !in m
  }

  /** All bits of `mask` are set in `bits`: Java's `(mask & bits) == mask`. */
  predicate HasAll(bits: Mask, mask: Mask)
  {
    mask <= bits
  }

  /** `m` has exactly one bit set, as the bits a world hands to its systems do. */
  predicate IsSingleBit(m: Mask)
  {
    m != {} && forall i, j :: i in m && j in m ==> i == j
  }

  /** The positions below `k` add up to less than `2^k`. */
  lemma {:induction false} ValueBelowBound(m: Mask, k: nat)
    ensures ValueBelow(m, k) < Pow2(k)
    decreases k
  {
    if k > 0 {
      ValueBelowBound(m, k - 1);
    }
  }

  /** The positions below `k` add up to a positive value iff one of them is set. */
  lemma {:induction false} ValueBelowPositive(m: Mask, k: nat)
    ensures ValueBelow(m, k) > 0 <==> exists i :: i in m && i < k
    decreases k
  {
    if k > 0 {
      ValueBelowPositive(m, k - 1);
      if ValueBelow(m, k) > 0 && k - 1 !in m {
        var i :| i in m && i < k - 1;
        assert i in m && i < k;
      }
    }
  }

  /** The bit-pattern guard is exactly the signed comparison `x > 0`. */
  lemma SignedPositiveIsGreaterThanZero(m: Mask)
    ensures SignedPositive(m) <==> ToSigned(m) > 0
  {
    ValueBelowBound(m, SignPosition);
    ValueBelowPositive(m, SignPosition);
    if m != {} && SignPosition !in m {
      var i :| i in m;
      assert i < SignPosition;
    }
  }
}
