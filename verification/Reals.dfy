/** Facts about products of reals, and the powers of 0.7 that both moving averages decay by. */
module Reals {

  lemma Scale(x: real, y: real, k: real)
    requires x <= y && k >= 0.0
    ensures x * k <= y * k
  {
  }

  lemma ScaleStrictly(x: real, y: real, k: real)
    requires x < y && k > 0.0
    ensures x * k < y * k
  {
  }

  /** A part of a whole is a number between 0 and 1. */
  lemma Proportion(part: real, whole: real)
    requires 0.0 <= part <= whole && whole > 0.0
    ensures 0.0 <= part / whole <= 1.0
  {
    var q := part / whole;
    assert q * whole == part;
    if q < 0.0 {
      ScaleStrictly(q, 0.0, whole);
    } else if q > 1.0 {
      ScaleStrictly(1.0, q, whole);
    }
  }

  /** 0.7^n. */
  function Power(n: nat): real {
    if n == 0 then 1.0 else 0.7 * Power(n - 1)
  }

  lemma {:induction false} PowerRange(n: nat)
    ensures 0.0 < Power(n) <= 1.0
  {
    if n > 0 {
      PowerRange(n - 1);
    }
  }

  lemma NotNegative(p: real, e: real)
    requires 0.0 <= p && 0.0 <= e
    ensures 0.0 <= p * e
  {
    Scale(0.0, p, e);
  }

  lemma AtMostOne(p: real, e: real)
    requires 0.0 <= p <= 1.0 && 0.0 <= e <= 1.0
    ensures p * e <= 1.0
  {
    Scale(p, 1.0, e);
    assert p * e <= 1.0 * e;
    assert p * e <= e;
  }

  lemma Regroup(p: real, q: real, e: real, x: real)
    requires q == 0.7 * p && x == p * e
    ensures 0.7 * x == q * e
  {
  }

  lemma PowerTimes(n: nat, e: real)
    requires 0.0 < e <= 1.0
    ensures 0.0 <= Power(n) * e <= 1.0
  {
    PowerRange(n);
    NotNegative(Power(n), e);
    AtMostOne(Power(n), e);
  }
}
