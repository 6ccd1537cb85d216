/** Exact decimal arithmetic as `java.math.BigDecimal` performs it for the
    aggregations: additions are exact (Dafny's `real` is an exact rational),
    and a result is brought to `IND_SCALE` fractional digits with
    `setScale(IND_SCALE, ROUND_HALF_UP)`. */
module Decimals {

  /** `Aggregations.IND_SCALE`: fractional digits of every sum. */
  const IND_SCALE: nat := 8

  /** `x * 10^n`, one decimal place at a time (so that every step is linear). */
  function Shift(x: real, n: nat): real {
    if n == 0 then x else Shift(x, n - 1) * 10.0
  }

  /** `y / 10^n`. */
  function Unshift(y: real, n: nat): real {
    if n == 0 then y else Unshift(y, n - 1) / 10.0
  }

  predicate IsInt(y: real) {
    y.Floor as real == y
  }

  /** `x` has at most `scale` fractional digits (its BigDecimal scale can be
      set to `scale` without rounding). */
  predicate AtScale(x: real, scale: nat) {
    IsInt(Shift(x, scale))
  }

  /** The integer nearest to `y`, a tie going away from zero. */
  function NearestHalfUp(y: real): (u: int)
    ensures y >= 0.0 ==> y - 0.5 < u as real <= y + 0.5
    ensures y < 0.0 ==> y - 0.5 <= u as real < y + 0.5
  {
    if y >= 0.0 then (y + 0.5).Floor else -((-y + 0.5).Floor)
  }

  /** `x.setScale(scale, BigDecimal.ROUND_HALF_UP)`. */
  function RoundHalfUp(x: real, scale: nat): real {
    Unshift(NearestHalfUp(Shift(x, scale)) as real, scale)
  }

  /** The aggregations' final rounding step. */
  function Round(x: real): real {
    RoundHalfUp(x, IND_SCALE)
  }

  lemma {:induction false} ShiftAdd(a: real, b: real, n: nat)
    ensures Shift(a + b, n) == Shift(a, n) + Shift(b, n)
  {
    if n > 0 {
      ShiftAdd(a, b, n - 1);
    }
  }

  lemma {:induction false} ShiftSign(x: real, n: nat)
    ensures x >= 0.0 <==> Shift(x, n) >= 0.0
    ensures x <= 0.0 <==> Shift(x, n) <= 0.0
  {
    if n > 0 {
      ShiftSign(x, n - 1);
    }
  }

  lemma {:induction false} ShiftDivTen(x: real, n: nat)
    ensures Shift(x / 10.0, n) == Shift(x, n) / 10.0
  {
    if n > 0 {
      ShiftDivTen(x, n - 1);
    }
  }

  lemma {:induction false} ShiftUnshift(y: real, n: nat)
    ensures Shift(Unshift(y, n), n) == y
  {
    if n > 0 {
      ShiftUnshift(y, n - 1);
      ShiftDivTen(Unshift(y, n - 1), n - 1);
    }
  }

  /** Two values with the same shift are equal. */
  lemma {:induction false} ShiftInjective(a: real, b: real, n: nat)
    requires Shift(a, n) == Shift(b, n)
    ensures a == b
  {
    if n > 0 {
      ShiftInjective(a, b, n - 1);
    }
  }

  /** The rounded value has exactly `scale` fractional digits, lies within
      half a unit of the last place from `x`, and keeps the sign of `x`. */
  lemma RoundHalfUpSpec(x: real, scale: nat)
    ensures AtScale(RoundHalfUp(x, scale), scale)
    ensures -0.5 <= Shift(RoundHalfUp(x, scale), scale) - Shift(x, scale) <= 0.5
    ensures x >= 0.0 ==> RoundHalfUp(x, scale) >= 0.0
    ensures x <= 0.0 ==> RoundHalfUp(x, scale) <= 0.0
  {
    var u := NearestHalfUp(Shift(x, scale));
    ShiftUnshift(u as real, scale);
    assert (u as real).Floor == u;
    ShiftSign(x, scale);
    ShiftSign(RoundHalfUp(x, scale), scale);
  }

  /** Rounding a value that already has `scale` digits changes nothing, so
      rescaling sums of already rounded values is exact. */
  lemma RoundHalfUpExact(x: real, scale: nat)
    requires AtScale(x, scale)
    ensures RoundHalfUp(x, scale) == x
  {
    var y := Shift(x, scale);
    assert NearestHalfUp(y) == y.Floor;
    ShiftUnshift(y, scale);
    ShiftInjective(RoundHalfUp(x, scale), x, scale);
  }

  /** A tie is broken away from zero: half a unit of the last place above
      `k` units rounds up to `k + 1` units when `k >= 0`, down to `k` units
      (towards minus infinity is away from zero) when `k < 0`. */
  lemma RoundHalfUpTie(k: int, scale: nat)
    ensures RoundHalfUp(Unshift(k as real + 0.5, scale), scale)
         == Unshift(if k >= 0 then k as real + 1.0 else k as real, scale)
  {
    ShiftUnshift(k as real + 0.5, scale);
    if k >= 0 {
      assert (k as real + 1.0).Floor == k + 1;
    } else {
      assert (-k as real).Floor == -k;
    }
  }

  /** Sums of values with at most `scale` digits have at most `scale` digits. */
  lemma AtScaleAdd(a: real, b: real, scale: nat)
    requires AtScale(a, scale) && AtScale(b, scale)
    ensures AtScale(a + b, scale)
  {
    ShiftAdd(a, b, scale);
    var n := Shift(a, scale).Floor + Shift(b, scale).Floor;
    assert Shift(a + b, scale) == n as real;
  }

  lemma RoundAtScale(x: real)
    ensures AtScale(Round(x), IND_SCALE)
  {
    RoundHalfUpSpec(x, IND_SCALE);
  }

  // ---------------------------------------------------------------- sums

  /** Exact sum, as `reduce(new BigDecimal(0), BigDecimal::add)`. */
  function Total(xs: seq<real>): real {
    if xs == [] then 0.0 else Total(xs[..|xs| - 1]) + xs[|xs| - 1]
  }

  lemma {:induction false} TotalAppend(xs: seq<real>, ys: seq<real>)
    ensures Total(xs + ys) == Total(xs) + Total(ys)
  {
    if ys != [] {
      TotalAppend(xs, ys[..|ys| - 1]);
      assert (xs + ys)[..|xs + ys| - 1] == xs + ys[..|ys| - 1];
    } else {
      assert xs + ys == xs;
    }
  }

  /** A sum of values that all have `scale` digits has `scale` digits. */
  lemma {:induction false} TotalAtScale(xs: seq<real>, scale: nat)
    requires forall i :: 0 <= i < |xs| ==> AtScale(xs[i], scale)
    ensures AtScale(Total(xs), scale)
  {
    if xs == [] {
      ShiftSign(0.0, scale);
    } else {
      TotalAtScale(xs[..|xs| - 1], scale);
      AtScaleAdd(Total(xs[..|xs| - 1]), xs[|xs| - 1], scale);
    }
  }
}
