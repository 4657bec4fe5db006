/** The percentage arithmetic of the screens. `Math.round` rounds to the nearest integer with
    halves going up, i.e. `floor(x + 1/2)`; on a quotient `n / d` with `d > 0` that is
    `(2n + d) div 2d`. Percentages are computed exactly on rationals, not on binary floats. */
module Rounding {
  import opened Seqs
  import opened Text

  /** `Math.round(n / d)` for a positive divisor: the integer nearest to `n / d`, halves up. */
  function RoundHalfUp(n: int, d: int): (r: int)
    requires d > 0
    ensures 2 * d * r <= 2 * n + d < 2 * d * (r + 1)
  {
    (2 * n + d) / (2 * d)
  }

  /** The same bound read on rationals: `r - 1/2 <= n / d < r + 1/2`. */
  lemma RoundHalfUpNearest(n: int, d: int)
    requires d > 0
    ensures var r := RoundHalfUp(n, d);
      r as real - 0.5 <= n as real / d as real < r as real + 0.5
  {
    var r := RoundHalfUp(n, d);
    var q, dr := n as real / d as real, d as real;
    if r as real - 0.5 > q {
      ScaleStrict(q, r as real - 0.5, dr);
    }
    if q >= r as real + 0.5 {
      ScaleWeak(r as real + 0.5, q, dr);
    }
  }

  lemma ScaleStrict(a: real, b: real, c: real)
    requires a < b && c > 0.0
    ensures a * c < b * c
  {
  }

  lemma ScaleWeak(a: real, b: real, c: real)
    requires a <= b && c > 0.0
    ensures a * c <= b * c
  {
  }

  lemma MulNonneg(a: int, b: int)
    requires a >= 0 && b >= 0
    ensures a * b >= 0
  {
  }

  /** Rounding is monotone in the numerator. */
  lemma RoundHalfUpMonotone(n1: int, n2: int, d: int)
    requires d > 0 && n1 <= n2
    ensures RoundHalfUp(n1, d) <= RoundHalfUp(n2, d)
  {
    var r1, r2 := RoundHalfUp(n1, d), RoundHalfUp(n2, d);
    if r1 > r2 {
      MulNonneg(2 * d, r1 - r2 - 1);
    }
  }

  /** A whole number of units rounds to itself. */
  lemma RoundHalfUpExact(k: int, d: int)
    requires d > 0
    ensures RoundHalfUp(k * d, d) == k
  {
    var r := RoundHalfUp(k * d, d);
    if r > k {
      MulNonneg(2 * d, r - k - 1);
    } else if r < k {
      MulNonneg(2 * d, k - r - 1);
    }
  }

  /** `total > 0 ? Math.round((part / total) * 100) : 0`: the zero-guarded rounded percentage
      of the up-to-date and with-teacher summaries; when it is not 0 it is the integer nearest
      to `100 * part / total`. */
  function GuardedPercent(part: int, total: int): (r: int)
    ensures total <= 0 ==> r == 0
    ensures total > 0 ==> 2 * total * r <= 200 * part + total < 2 * total * (r + 1)
  {
    if total > 0 then RoundHalfUp(100 * part, total) else 0
  }

  /** A part of a positive total gives a percentage between 0 and 100, with 0 for no part and
      100 for the whole. */
  lemma GuardedPercentRange(part: int, total: int)
    requires 0 <= part <= total
    ensures 0 <= GuardedPercent(part, total) <= 100
    ensures part == 0 ==> GuardedPercent(part, total) == 0
    ensures 0 < part == total ==> GuardedPercent(part, total) == 100
  {
    if total > 0 {
      RoundHalfUpMonotone(0, 100 * part, total);
      RoundHalfUpExact(0, total);
      RoundHalfUpMonotone(100 * part, 100 * total, total);
      RoundHalfUpExact(100, total);
    }
  }

  /** `Math.round((part / whole) * 100)` with no guard: None when `whole` is 0, where the
      source computes NaN or Infinity. A negative whole flips both signs of the quotient. */
  function RoundedPercent(part: int, whole: int): (r: Option<int>)
    ensures r.None? <==> whole == 0
    ensures whole > 0 ==> r == Some(GuardedPercent(part, whole))
  {
    if whole == 0 then None
    else if whole > 0 then Some(RoundHalfUp(100 * part, whole))
    else Some(RoundHalfUp(-100 * part, -whole))
  }

  /** `whole > 0 ? (part / whole) * 100 : 0`, exactly: the percentage share of a payment method
      or type in the finance screen. */
  function GuardedShare(part: real, whole: real): (r: real)
    ensures whole <= 0.0 ==> r == 0.0
    ensures whole > 0.0 ==> r * whole == 100.0 * part
    ensures whole > 0.0 && 0.0 <= part <= whole ==> 0.0 <= r <= 100.0
  {
    if whole > 0.0 then
      ShareScaling(part, whole);
      part / whole * 100.0
    else 0.0
  }

  /** The share of a positive whole times the whole is 100 times the part, and a part within
      the whole has a share within 0 and 100. */
  lemma ShareScaling(part: real, whole: real)
    requires whole > 0.0
    ensures (part / whole * 100.0) * whole == 100.0 * part
    ensures 0.0 <= part <= whole ==> 0.0 <= part / whole * 100.0 <= 100.0
  {
    var q := part / whole;
    assert q * whole == part;
    var r := q * 100.0;
    assert r * whole == 100.0 * (q * whole);
    if 0.0 <= part <= whole {
      if r > 100.0 {
        ScaleStrict(100.0, r, whole);
        assert false;
      }
      if r < 0.0 {
        ScaleStrict(r, 0.0, whole);
        assert false;
      }
    }
  }

  /** The text `${Math.round((part / whole) * 100)}%`: the rounded percentage followed by `%`,
      and for a zero whole the texts JavaScript prints for NaN and the infinities. */
  function PercentText(part: int, whole: int): (r: string)
    ensures |r| > 1 && r[|r| - 1] == '%'
    ensures whole != 0 ==> r == IntToString(RoundedPercent(part, whole).value) + "%"
    ensures whole == 0 ==> r == (if part > 0 then "Infinity%" else if part == 0 then "NaN%" else "-Infinity%")
  {
    match RoundedPercent(part, whole)
    case Some(p) => IntToString(p) + "%"
    case None => if part > 0 then "Infinity%" else if part == 0 then "NaN%" else "-Infinity%"
  }

  /** The percentage text is made of digits, a minus sign, `%` and the letters of NaN and
      Infinity: any other character is absent from it. */
  lemma PercentTextFree(part: int, whole: int, c: char)
    requires !IsDigit(c) && c !in "-%InfinityNa"
    ensures c !in PercentText(part, whole)
  {
    var r := PercentText(part, whole);
    if whole != 0 {
      var t := IntToString(RoundedPercent(part, whole).value);
      assert r == t + "%";
      assert forall i :: 0 <= i < |t| ==> t[i] != c;
    }
  }

  /** The percentage text holds no line break, so it is safe in a CSV line. */
  lemma PercentTextSingleLine(part: int, whole: int)
    ensures '\n' !in PercentText(part, whole)
  {
  }
}
