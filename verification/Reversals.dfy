/**
 Proportional reversals: how many credits a refund or dispute takes back, in the 64-bit
 arithmetic of the program and exactly.
 */
module Reversals {
  import opened Basics
  import opened Int64

  /** Credits that must be reversed in total once `minor` of `amount` has been returned. */
  function Target(credits: int, amount: int, minor: int): int
    requires amount > 0
  {
    if minor <= 0 then credits else CeilDiv(credits * Min(minor, amount), amount)
  }

  /** The same total as the program computes it. */
  function ComputedTarget(credits: int, amount: int, minor: int): int
    requires amount > 0
  {
    if minor <= 0 then credits else Quot(Wrap(credits * Min(minor, amount) + amount - 1), amount)
  }

  /** No reversal of this purchase can wrap. */
  predicate Fits(credits: int, amount: int) { credits * amount + amount - 1 <= MAX }

  /** Dividing a number that lost at least one period gives a smaller quotient. */
  lemma WrappedQuotient(v: int, w: int, amount: int)
    requires 0 < amount <= MAX < v && w <= v - MODULUS
    ensures Quot(w, amount) < v / amount
  {
    DivBounds(v, amount);
    if w >= 0 {
      DivBounds(w, amount);
      assert (w / amount + 1) * amount == w / amount * amount + amount;
      MulReflectsLess(w / amount + 1, v / amount + 1, amount);
    } else {
      MulReflectsLess(1, v / amount + 1, amount);
    }
  }

  lemma WrapLosesPeriods(v: int)
    requires v > MAX
    ensures Wrap(v) <= v - MODULUS
  {
    DivBounds(v - MIN, MODULUS);
    var q := (v - MIN) / MODULUS;
    MulReflectsLess(0, q, MODULUS);
    assert Wrap(v) == v - q * MODULUS;
  }

  /** The program's total is the exact one precisely when its intermediate sum fits 64 bits. */
  lemma TargetExactIffFits(credits: int, amount: int, minor: int)
    requires 0 < credits <= MAX && 0 < amount <= MAX
    ensures ComputedTarget(credits, amount, minor) == Target(credits, amount, minor)
       <==> minor <= 0 || credits * Min(minor, amount) + amount - 1 <= MAX
  {
    if minor > 0 {
      var v := credits * Min(minor, amount) + amount - 1;
      assert credits * Min(minor, amount) >= 0;
      if v > MAX {
        WrapLosesPeriods(v);
        WrappedQuotient(v, Wrap(v), amount);
      }
    }
  }

  /** A purchase that fits never wraps, whatever the event says. */
  lemma FitsIsEnough(credits: int, amount: int, minor: int)
    requires 0 < credits && 0 < amount && Fits(credits, amount)
    ensures credits <= MAX && amount <= MAX
    ensures ComputedTarget(credits, amount, minor) == Target(credits, amount, minor)
  {
    assert credits * amount >= amount && credits * amount >= credits;
    if minor > 0 {
      MulMonotone(Min(minor, amount), amount, credits);
      TargetExactIffFits(credits, amount, minor);
    }
  }

  /** A large purchase for which a full refund takes back nothing. */
  lemma OverflowedRefundReversesNothing()
    ensures var credits, amount := 0x1_0000_0000, 0x1_0000_0000;
            Target(credits, amount, amount) == credits && ComputedTarget(credits, amount, amount) == 0
  {
    var c := 0x1_0000_0000;
    assert c * c == MODULUS;
    CeilDivUnique(MODULUS, c, c);
    WrapOnce(MODULUS + c - 1);
    DivUnique(c - 1, c, 0);
  }

  /** Totals lie between nothing and everything, and returning everything reverses everything. */
  lemma TargetBounds(credits: int, amount: int, minor: int)
    requires 0 < credits && 0 < amount
    ensures 0 < Target(credits, amount, minor) <= credits
    ensures minor >= amount ==> Target(credits, amount, minor) == credits
  {
    if minor > 0 {
      var n := credits * Min(minor, amount);
      MulMonotone(Min(minor, amount), amount, credits);
      assert n > 0;
      CeilDivBound(n, amount, credits);
      MulReflectsLess(0, CeilDiv(n, amount), amount);
      if minor >= amount {
        CeilDivUnique(credits * amount, amount, credits);
      }
    }
  }

  // ---- Purchases whose reversals add up -------------------------------------------------

  /** The program's total never exceeds the purchase, wrapped or not. */
  lemma ComputedAtMost(credits: int, amount: int, minor: int)
    requires 0 < credits <= MAX && 0 < amount <= MAX
    ensures ComputedTarget(credits, amount, minor) <= credits
  {
    TargetBounds(credits, amount, minor);
    TargetExactIffFits(credits, amount, minor);
    if minor > 0 {
      var v := credits * Min(minor, amount) + amount - 1;
      if v > MAX {
        WrapLosesPeriods(v);
        WrappedQuotient(v, Wrap(v), amount);
      }
    }
  }

  /** And it is not far below zero. */
  lemma ComputedAtLeast(credits: int, amount: int, minor: int)
    requires 0 < credits <= MAX && 0 < amount <= MAX
    ensures ComputedTarget(credits, amount, minor) >= MIN / 2
  {
    if minor > 0 && amount > 1 {
      HalfQuotient(Wrap(credits * Min(minor, amount) + amount - 1), amount);
    }
  }

  lemma HalfQuotient(w: int, amount: int)
    requires InRange(w) && amount > 1
    ensures Quot(w, amount) >= MIN / 2
  {
    if w < 0 {
      DivBounds(-w, amount);
      if (-w) / amount > -(MIN / 2) {
        MulMonotone(-(MIN / 2) + 1, (-w) / amount, amount);
        MulMonotone(2, amount, -(MIN / 2) + 1);
        assert false;
      }
    } else {
      DivShrinks(w, amount);
    }
  }

  /**
   No reversal asks for so little that the difference to a fully reversed purchase leaves
   64 bits.
   */
  ghost predicate Steady(credits: int, amount: int)
    requires amount > 0
  {
    forall minor :: ComputedTarget(credits, amount, minor) >= credits + MIN
  }

  /** Half of the 64-bit range. */
  const HALF: int := 0x4000_0000_0000_0000

  /** Every purchase of up to 2^62 credits is steady, whatever its amount. */
  lemma SteadyUpToHalf(credits: int, amount: int)
    requires 0 < credits <= HALF && 0 < amount <= MAX
    ensures Steady(credits, amount)
  {
    forall minor ensures ComputedTarget(credits, amount, minor) >= credits + MIN {
      ComputedAtLeast(credits, amount, minor);
    }
  }

  /** So is every purchase whose reversals never wrap. */
  lemma SteadyIfFits(credits: int, amount: int)
    requires 0 < credits && 0 < amount && Fits(credits, amount)
    ensures Steady(credits, amount)
  {
    forall minor ensures ComputedTarget(credits, amount, minor) >= credits + MIN {
      FitsIsEnough(credits, amount, minor);
      TargetBounds(credits, amount, minor);
    }
  }

  /** Not every purchase is: three quarters of the largest one wrap to a negative total. */
  lemma LargestIsUnsteady()
    ensures ComputedTarget(MAX, 4, 3) == MIN / 4
    ensures !Steady(MAX, 4)
  {
    assert MAX * 3 + 4 - 1 == MODULUS - MIN;
    DivUnique(2 * MODULUS, MODULUS, 2);
    assert Wrap(MODULUS - MIN) == MIN;
    assert ComputedTarget(MAX, 4, 3) < MAX + MIN;
  }
}
