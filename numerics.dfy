/**
 * The scalar arithmetic the core relies on: Python's `round` and numpy's
 * `np.round` (both round half to even), `np.ceil`, the arithmetic mean and
 * the decimal rendering of an integer used by f-strings such as `f'ROI_{n}'`.
 * Floating point is modelled by exact reals.
 */
module Numerics {

  /** Nearest integer, ties to the even neighbour. */
  function RoundHalfEven(x: real): (n: int)
    ensures x - 0.5 <= n as real <= x + 0.5
    ensures (n as real - x == 0.5 || x - n as real == 0.5) ==> n % 2 == 0
  {
    var f := x.Floor;
    var d := x - f as real;
    if d < 0.5 then f
    else if d > 0.5 then f + 1
    else if f % 2 == 0 then f
    else f + 1
  }

  /** The two clauses of RoundHalfEven determine it: no other integer satisfies both. */
  lemma RoundHalfEvenUnique(x: real, n: int)
    requires x - 0.5 <= n as real <= x + 0.5
    requires (n as real - x == 0.5 || x - n as real == 0.5) ==> n % 2 == 0
    ensures RoundHalfEven(x) == n
  {
  }

  /** Smallest integer not below x. */
  function Ceil(x: real): (n: int)
    ensures n as real - 1.0 < x <= n as real
  {
    -((-x).Floor)
  }

  function Abs(x: real): (a: real)
    ensures a >= 0.0 && (a == x || a == -x)
  {
    if x < 0.0 then -x else x
  }

  /** The j-th multiple of step. */
  function Multiple(j: int, step: real): real
  {
    j as real * step
  }

  /** How far m lies from the multiple j * step. */
  function MultipleGap(j: int, step: real, m: real): real
  {
    Abs(Multiple(j, step) - m)
  }

  /** The gap to a multiple, measured in steps: |j * step - m| = |j - m / step| * |step|. */
  lemma ScaledGap(j: int, step: real, m: real)
    requires step != 0.0
    ensures MultipleGap(j, step, m) == Abs(j as real - m / step) * Abs(step)
  {
    var d := j as real - m / step;
    assert j as real * step - m == d * step;
    if d < 0.0 {
      assert (-d) * step == -(d * step);
    }
    if step < 0.0 {
      assert d * (-step) == -(d * step);
    }
  }

  /** A multiple at most d steps from m lies within d * |step| of m. */
  lemma GapWithinSteps(j: int, step: real, m: real, d: real)
    requires step != 0.0 && Abs(j as real - m / step) <= d
    ensures MultipleGap(j, step, m) <= d * Abs(step)
  {
    ScaledGap(j, step, m);
    var x, t := Abs(j as real - m / step), Abs(step);
    assert d - x >= 0.0 && t > 0.0;
    assert (d - x) * t >= 0.0;
  }

  /**
   * Rounding m / step to an integer k and scaling back gives the multiple of
   * step nearest to m: within half a step of m, and no other multiple is closer.
   */
  lemma NearestMultiple(m: real, step: real, k: int)
    requires step != 0.0
    requires m / step - 0.5 <= k as real <= m / step + 0.5
    ensures MultipleGap(k, step, m) <= Abs(step) / 2.0
    ensures forall j: int :: MultipleGap(k, step, m) <= MultipleGap(j, step, m)
  {
    var q := m / step;
    GapWithinSteps(k, step, m, 0.5);
    forall j: int
      ensures MultipleGap(k, step, m) <= MultipleGap(j, step, m)
    {
      var dj := Abs(j as real - q);
      assert Abs(k as real - q) <= dj by {
        if j != k {
          assert j <= k - 1 || j >= k + 1;
        }
      }
      GapWithinSteps(k, step, m, dj);
      ScaledGap(j, step, m);
    }
  }

  function Sum(s: seq<real>): real
  {
    if |s| == 0 then 0.0 else Sum(s[..|s| - 1]) + s[|s| - 1]
  }

  /** `np.mean` of a non-empty sequence. */
  function Mean(s: seq<real>): real
    requires |s| > 0
  {
    Sum(s) / |s| as real
  }

  lemma {:induction false} SumBounds(s: seq<real>, lo: real, hi: real)
    requires forall i :: 0 <= i < |s| ==> lo <= s[i] <= hi
    ensures |s| as real * lo <= Sum(s) <= |s| as real * hi
  {
    if |s| > 0 {
      SumBounds(s[..|s| - 1], lo, hi);
    }
  }

  /** The mean of values that all lie in [lo, hi] lies in [lo, hi]; for a planar contour it is its plane. */
  lemma MeanBounds(s: seq<real>, lo: real, hi: real)
    requires |s| > 0
    requires forall i :: 0 <= i < |s| ==> lo <= s[i] <= hi
    ensures lo <= Mean(s) <= hi
  {
    SumBounds(s, lo, hi);
    var n := |s| as real;
    assert n * lo <= Sum(s) <= n * hi;
    assert lo == (n * lo) / n;
    assert hi == (n * hi) / n;
  }

  /** The mean of a sequence whose values are all equal is that value. */
  lemma MeanConstant(s: seq<real>)
    requires |s| > 0
    requires forall i :: 0 <= i < |s| ==> s[i] == s[0]
    ensures Mean(s) == s[0]
  {
    SumBounds(s, s[0], s[0]);
    assert Sum(s) == |s| as real * s[0];
  }

  function DigitChar(d: nat): (c: char)
    requires d < 10
    ensures '0' <= c <= '9'
  {
    "0123456789"[d]
  }

  function DigitValue(c: char): nat
  {
    if '0' <= c <= '9' then (c as int - '0' as int) as nat else 0
  }

  predicate IsDigits(s: string)
  {
    |s| > 0 && forall i :: 0 <= i < |s| ==> '0' <= s[i] <= '9'
  }

  /** Decimal digits of a natural number, most significant first, no leading zero. */
  function Digits(n: nat): string
  {
    if n < 10 then [DigitChar(n)] else Digits(n / 10) + [DigitChar(n % 10)]
  }

  lemma {:induction false} DigitsShape(n: nat)
    ensures IsDigits(Digits(n))
    ensures n > 0 ==> Digits(n)[0] != '0'
  {
    if n >= 10 {
      DigitsShape(n / 10);
    }
  }

  /** Reads a string of decimal digits back as a natural number. */
  function DigitsValue(s: string): nat
  {
    if |s| == 0 then 0 else 10 * DigitsValue(s[..|s| - 1]) + DigitValue(s[|s| - 1])
  }

  lemma {:induction false} DigitsRoundTrip(n: nat)
    ensures DigitsValue(Digits(n)) == n
  {
    if n >= 10 {
      DigitsRoundTrip(n / 10);
      var s := Digits(n);
      assert s[..|s| - 1] == Digits(n / 10);
    }
  }

  /** Python's `str(n)` for an integer. */
  function DecimalString(n: int): string
  {
    if n < 0 then "-" + Digits(-n) else Digits(n)
  }

  /** A minus sign exactly for negative numbers, then the digits without leading zero. */
  lemma DecimalStringShape(n: int)
    ensures |DecimalString(n)| > 0
    ensures DecimalString(n)[0] == '-' <==> n < 0
    ensures n < 0 ==> IsDigits(DecimalString(n)[1..]) && (DecimalString(n)[1] != '0')
    ensures n >= 0 ==> IsDigits(DecimalString(n)) && (n > 0 ==> DecimalString(n)[0] != '0')
  {
    if n < 0 {
      DigitsShape(-n);
      assert DecimalString(n)[1..] == Digits(-n);
    } else {
      DigitsShape(n);
    }
  }

  lemma DigitsInjective(a: nat, b: nat)
    requires Digits(a) == Digits(b)
    ensures a == b
  {
    DigitsRoundTrip(a);
    DigitsRoundTrip(b);
  }

  /** Distinct integers are rendered differently, so fallback names `ROI_<n>` never collide. */
  lemma DecimalStringInjective(a: int, b: int)
    requires DecimalString(a) == DecimalString(b)
    ensures a == b
  {
    var s := DecimalString(a);
    DecimalStringShape(a);
    DecimalStringShape(b);
    if a < 0 && b < 0 {
      assert s[1..] == Digits(-a);
      assert s[1..] == Digits(-b);
      DigitsInjective(-a, -b);
    } else if a >= 0 && b >= 0 {
      DigitsInjective(a, b);
    }
  }
}
