/**
 * Python's `round(x, n)` on exact reals: the multiple of 10^-n nearest to `x`,
 * ties going to the even multiple. The model uses exact decimal arithmetic, so
 * the binary representation error of IEEE doubles plays no part.
 *
 * Scaling by 10^n is written as `n` multiplications (or divisions) by ten, so
 * that every proof below stays within linear arithmetic.
 */
module Rounding {

  /** `x * 10^n`. */
  function Shift(x: real, n: nat): real
    decreases n
  {
    if n == 0 then x else Shift(x * 10.0, n - 1)
  }

  /** `x / 10^n`. */
  function Unshift(x: real, n: nat): real
    decreases n
  {
    if n == 0 then x else Unshift(x / 10.0, n - 1)
  }

  /** The integer nearest to `y`; of two equally near ones, the even one. */
  function RoundHalfEven(y: real): (k: int)
    ensures -0.5 <= k as real - y <= 0.5
    ensures y == y.Floor as real ==> k == y.Floor
    ensures y - y.Floor as real == 0.5 ==> k % 2 == 0
  {
    var f := y.Floor;
    var d := y - f as real;
    if d < 0.5 then f
    else if d > 0.5 then f + 1
    else if f % 2 == 0 then f
    else f + 1
  }

  /** `round(x, n)`. */
  function RoundTo(x: real, n: nat): real {
    Unshift(RoundHalfEven(Shift(x, n)) as real, n)
  }

  lemma {:induction false} UnshiftShift(x: real, n: nat)
    ensures Unshift(Shift(x, n), n) == x
    decreases n
  {
    if n > 0 {
      UnshiftShift(x * 10.0, n - 1);
      UnshiftSplit(Shift(x * 10.0, n - 1), n - 1);
    }
  }

  /** Dividing by `10^n` can be done one ten at either end. */
  lemma {:induction false} UnshiftSplit(x: real, n: nat)
    ensures Unshift(x, n + 1) == Unshift(x, n) / 10.0
    decreases n
  {
    if n > 0 { UnshiftSplit(x / 10.0, n - 1); }
  }

  lemma {:induction false} UnshiftLinear(a: real, b: real, n: nat)
    ensures Unshift(a, n) - Unshift(b, n) == Unshift(a - b, n)
    decreases n
  {
    if n > 0 { UnshiftLinear(a / 10.0, b / 10.0, n - 1); }
  }

  lemma {:induction false} UnshiftMonotone(a: real, b: real, n: nat)
    requires a <= b
    ensures Unshift(a, n) <= Unshift(b, n)
    decreases n
  {
    if n > 0 { UnshiftMonotone(a / 10.0, b / 10.0, n - 1); }
  }

  lemma {:induction false} UnshiftNegate(a: real, n: nat)
    ensures Unshift(-a, n) == -Unshift(a, n)
    decreases n
  {
    if n > 0 { UnshiftNegate(a / 10.0, n - 1); }
  }

  /** Rounding to `n` decimals moves a value by at most half a unit in the `n`-th decimal. */
  lemma RoundToError(x: real, n: nat)
    ensures -Unshift(0.5, n) <= RoundTo(x, n) - x <= Unshift(0.5, n)
  {
    var y := Shift(x, n);
    var k := RoundHalfEven(y) as real;
    UnshiftShift(x, n);
    UnshiftLinear(k, y, n);
    UnshiftMonotone(k - y, 0.5, n);
    UnshiftMonotone(-0.5, k - y, n);
    UnshiftNegate(0.5, n);
  }

  /** A value that already has at most `n` decimals is left unchanged. */
  lemma RoundToExact(x: real, n: nat)
    requires Shift(x, n) == Shift(x, n).Floor as real
    ensures RoundTo(x, n) == x
  {
    UnshiftShift(x, n);
  }

  lemma RoundToZero(n: nat)
    ensures RoundTo(0.0, n) == 0.0
  {
    ShiftZero(n);
    RoundToExact(0.0, n);
  }

  lemma {:induction false} ShiftZero(n: nat)
    ensures Shift(0.0, n) == 0.0
    decreases n
  {
    if n > 0 { ShiftZero(n - 1); }
  }
}
