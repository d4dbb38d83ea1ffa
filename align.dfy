/** The alignment arithmetic the pool layout is computed with. */
module Align {
  /** ODP_ALIGN_ROUNDUP(x, a): the smallest multiple of a that is not below x. */
  function RoundUp(x: nat, a: nat): (r: nat)
    requires a > 0
    ensures x <= r < x + a
    ensures r % a == 0
  {
    var q := (x + a - 1) / a;
    MultipleHasNoRemainder(a, q);
    a * q
  }

  lemma MultipleHasNoRemainder(a: nat, q: nat)
    requires a > 0
    ensures (a * q) % a == 0
  {
    var d, r := (a * q) / a, (a * q) % a;
    assert a * d + r == a * q;
    var t := q - d;
    assert a * t == r by { assert a * q - a * d == a * (q - d); }
    if t >= 1 {
      ProductAtLeastFactor(a, t);
    } else if t <= -1 {
      ProductAtLeastFactor(a, -t);
    }
  }

  /** A multiple of a positive stride has the sign of its factor. */
  lemma SignOfMultiple(k: int, s: nat)
    requires s > 0
    ensures k >= 0 <==> k * s >= 0
  {
    if k < 0 {
      ProductAtLeastFactor(s, -k);
      assert k * s == -(s * -k);
    }
  }

  lemma MulDistributes(a: nat, b: nat, c: nat)
    ensures (a + b) * c == a * c + b * c
  {
  }

  lemma ProductAtLeastFactor(a: nat, t: int)
    requires t >= 1
    ensures a * t >= a
  {
    assert a * t == a + a * (t - 1);
  }

  /**
   * ODP_ALIGN_ROUNDDOWN_POWER_2(a, a), that is a & ~(a - 1): the lowest set
   * bit of a, or 0 when a is 0.
   */
  function LowestSetBit(a: nat): (b: nat)
    ensures b <= a
    ensures a > 0 ==> b > 0
  {
    if a == 0 then 0
    else if a % 2 == 1 then 1
    else 2 * LowestSetBit(a / 2)
  }

  function Pow2(k: nat): (p: nat)
    ensures p >= 1
  {
    if k == 0 then 1 else 2 * Pow2(k - 1)
  }

  ghost predicate IsPowerOfTwo(a: nat) {
    exists k: nat :: Pow2(k) == a
  }

  /** The source's alignment test accepts exactly zero and the powers of two. */
  lemma {:induction false} LowestSetBitCharacterisesPowers(a: nat)
    ensures a == LowestSetBit(a) <==> a == 0 || IsPowerOfTwo(a)
  {
    if a == LowestSetBit(a) && a > 0 {
      SelfLowestIsPower(a);
    }
    if IsPowerOfTwo(a) {
      var k: nat :| Pow2(k) == a;
      PowerIsSelfLowest(k);
    }
  }

  lemma {:induction false} SelfLowestIsPower(a: nat)
    requires a > 0 && a == LowestSetBit(a)
    ensures IsPowerOfTwo(a)
    decreases a
  {
    if a % 2 == 1 {
      assert Pow2(0) == a;
    } else {
      SelfLowestIsPower(a / 2);
      var k: nat :| Pow2(k) == a / 2;
      assert Pow2(k + 1) == a;
    }
  }

  lemma {:induction false} PowerIsSelfLowest(k: nat)
    ensures LowestSetBit(Pow2(k)) == Pow2(k)
  {
    if k > 0 {
      PowerIsSelfLowest(k - 1);
      assert Pow2(k) / 2 == Pow2(k - 1);
    }
  }
}
