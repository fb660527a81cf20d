/** Printing a duration in its largest fitting unit, and parsing it back. */
module Ttl {
  import opened Wrappers

  const SECOND: nat := 1000
  const MINUTE: nat := 60000
  const HOUR: nat := 3600000
  const DAY: nat := 86400000

  function Digit(c: char): (d: nat)
    requires IsDigit(c)
    ensures d < 10
  {
    (c as int) - ('0' as int)
  }

  predicate IsDigit(c: char) {
    '0' <= c <= '9'
  }

  function Decimal(n: nat): string {
    if n < 10 then [('0' as int + n) as char] else Decimal(n / 10) + [('0' as int + n % 10) as char]
  }

  function Number(digits: string): nat
    requires forall i :: 0 <= i < |digits| ==> IsDigit(digits[i])
  {
    if digits == "" then 0 else Number(digits[..|digits| - 1]) * 10 + Digit(digits[|digits| - 1])
  }

  /** The length of the longest run of digits at the front. */
  function DigitRun(s: string): (n: nat)
    ensures n <= |s| && forall i :: 0 <= i < n ==> IsDigit(s[i])
    ensures n < |s| ==> !IsDigit(s[n])
  {
    if s == "" || !IsDigit(s[0]) then 0 else 1 + DigitRun(s[1..])
  }

  function UnitOf(suffix: string): Option<nat> {
    if suffix == "ms" then Some(1)
    else if suffix == "s" then Some(SECOND)
    else if suffix == "m" then Some(MINUTE)
    else if suffix == "h" then Some(HOUR)
    else if suffix == "d" then Some(DAY)
    else None
  }

  /** One or more digits, then a unit, and nothing else. */
  function ParseTtl(input: string): Option<nat> {
    var n := DigitRun(input);
    var unit := UnitOf(input[n..]);
    if n == 0 || unit.None? then None else Some(Number(input[..n]) * unit.value)
  }

  /** Math.round of ms / unit. */
  function RoundTo(ms: nat, unit: nat): nat
    requires unit > 0
  {
    (2 * ms + unit) / (2 * unit)
  }

  function FormatTtl(ms: nat): string {
    if ms < SECOND then Decimal(ms) + "ms"
    else if ms < MINUTE then Decimal(RoundTo(ms, SECOND)) + "s"
    else if ms < HOUR then Decimal(RoundTo(ms, MINUTE)) + "m"
    else if ms < DAY then Decimal(RoundTo(ms, HOUR)) + "h"
    else Decimal(RoundTo(ms, DAY)) + "d"
  }

  // -------------------------------------------------------------- print and parse

  lemma {:induction false} DecimalIsDigits(n: nat)
    ensures |Decimal(n)| > 0 && forall i :: 0 <= i < |Decimal(n)| ==> IsDigit(Decimal(n)[i])
    ensures Number(Decimal(n)) == n
  {
    if n < 10 {
      assert Decimal(n)[..0] == "";
    } else {
      DecimalIsDigits(n / 10);
      assert Decimal(n)[..|Decimal(n)| - 1] == Decimal(n / 10);
    }
  }

  lemma {:induction false} RunStopsAtUnit(digits: string, suffix: string)
    requires forall i :: 0 <= i < |digits| ==> IsDigit(digits[i])
    requires suffix != "" && !IsDigit(suffix[0])
    ensures DigitRun(digits + suffix) == |digits|
  {
    if digits == "" {
      assert digits + suffix == suffix;
    } else {
      RunStopsAtUnit(digits[1..], suffix);
      assert (digits + suffix)[1..] == digits[1..] + suffix;
    }
  }

  lemma ParsesBack(n: nat, suffix: string)
    requires UnitOf(suffix).Some?
    ensures ParseTtl(Decimal(n) + suffix) == Some(n * UnitOf(suffix).value)
  {
    DecimalIsDigits(n);
    RunStopsAtUnit(Decimal(n), suffix);
    assert (Decimal(n) + suffix)[..|Decimal(n)|] == Decimal(n);
    assert (Decimal(n) + suffix)[|Decimal(n)|..] == suffix;
  }

  function UnitFor(ms: nat): nat {
    if ms < SECOND then 1 else if ms < MINUTE then SECOND else if ms < HOUR then MINUTE else if ms < DAY then HOUR else DAY
  }

  /** What is left of a duration that is printed and parsed back. */
  function Rounded(ms: nat): nat {
    RoundTo(ms, UnitFor(ms)) * UnitFor(ms)
  }

  /** parseTtl accepts whatever formatTtl prints, and reads it as the rounded duration. */
  lemma FormatThenParse(ms: nat)
    ensures ParseTtl(FormatTtl(ms)) == Some(Rounded(ms))
  {
    if ms < SECOND {
      ParsesBack(ms, "ms");
      assert RoundTo(ms, 1) == ms;
    } else if ms < MINUTE {
      ParsesBack(RoundTo(ms, SECOND), "s");
    } else if ms < HOUR {
      ParsesBack(RoundTo(ms, MINUTE), "m");
    } else if ms < DAY {
      ParsesBack(RoundTo(ms, HOUR), "h");
    } else {
      ParsesBack(RoundTo(ms, DAY), "d");
    }
  }

  /** The input is one or more digits and then a unit. */
  predicate IsTtl(input: string, digits: string, suffix: string) {
    && input == digits + suffix
    && digits != "" && (forall i :: 0 <= i < |digits| ==> IsDigit(digits[i]))
    && UnitOf(suffix).Some?
  }

  /** parseTtl accepts exactly digits followed by a unit, in the one way there is to read them, and scales them by it. */
  lemma ParseAcceptsExactly(input: string)
    ensures ParseTtl(input).Some? <==> exists digits, suffix :: IsTtl(input, digits, suffix)
    ensures forall digits, suffix :: IsTtl(input, digits, suffix) ==>
              ParseTtl(input) == Some(Number(digits) * UnitOf(suffix).value)
  {
    if ParseTtl(input).Some? {
      var n := DigitRun(input);
      assert input == input[..n] + input[n..];
      assert IsTtl(input, input[..n], input[n..]);
    }
    forall digits, suffix | IsTtl(input, digits, suffix)
      ensures ParseTtl(input) == Some(Number(digits) * UnitOf(suffix).value)
    {
      RunStopsAtUnit(digits, suffix);
      assert input[..|digits|] == digits && input[|digits|..] == suffix;
    }
  }

  // ------------------------------------------------------------ numbers and units

  /** The units, in milliseconds. */
  lemma UnitsAre(suffix: string)
    ensures UnitOf("ms") == Some(1) && UnitOf("s") == Some(1000) && UnitOf("m") == Some(60 * 1000)
    ensures UnitOf("h") == Some(60 * 60 * 1000) && UnitOf("d") == Some(24 * 60 * 60 * 1000)
    ensures UnitOf(suffix).Some? ==> suffix in {"ms", "s", "m", "h", "d"}
  {
  }

  predicate AllDigits(s: string) {
    forall i :: 0 <= i < |s| ==> IsDigit(s[i])
  }

  function Pow10(n: nat): nat {
    if n == 0 then 1 else 10 * Pow10(n - 1)
  }

  /** Digits are read by their places. */
  lemma {:induction false} NumberByPlaces(a: string, b: string)
    requires AllDigits(a) && AllDigits(b)
    ensures AllDigits(a + b) && Number(a + b) == Number(a) * Pow10(|b|) + Number(b)
    ensures |a| == 1 ==> Number(a) == (a[0] as int) - ('0' as int)
  {
    if b == "" {
      assert a + b == a;
    } else {
      var n := |b| - 1;
      NumberByPlaces(a, b[..n]);
      assert (a + b)[..|a + b| - 1] == a + b[..n];
      TenTimes(Number(a), Pow10(n), Number(b[..n]));
    }
    if |a| == 1 {
      assert a[..0] == "";
    }
  }

  lemma TenTimes(x: nat, p: nat, y: nat)
    ensures (x * p + y) * 10 == x * (10 * p) + y * 10
  {
    assert x * (10 * p) == 10 * (x * p);
  }

  /** A number is printed without leading zeros, so that it is read back from the only such digits. */
  lemma {:induction false} NoLeadingZero(n: nat)
    ensures Decimal(n) != "" && (n > 0 ==> Decimal(n)[0] != '0') && (n == 0 ==> Decimal(n) == "0")
  {
    if n >= 10 {
      NoLeadingZero(n / 10);
    }
  }

  /** A duration is printed in the largest unit that fits, as the nearest number of them, halves upwards. */
  lemma FormatIs(ms: nat)
    ensures ms < 1000 ==> FormatTtl(ms) == Decimal(ms) + "ms"
    ensures 1000 <= ms < 60 * 1000 ==> PrintsNearest(ms, 1000, "s")
    ensures 60 * 1000 <= ms < 60 * 60 * 1000 ==> PrintsNearest(ms, 60 * 1000, "m")
    ensures 60 * 60 * 1000 <= ms < 24 * 60 * 60 * 1000 ==> PrintsNearest(ms, 60 * 60 * 1000, "h")
    ensures 24 * 60 * 60 * 1000 <= ms ==> PrintsNearest(ms, 24 * 60 * 60 * 1000, "d")
  {
    if ms >= 1000 {
      RoundToBounds(ms, UnitFor(ms));
      assert FormatTtl(ms) == Decimal(RoundTo(ms, UnitFor(ms))) + (
        if ms < MINUTE then "s" else if ms < HOUR then "m" else if ms < DAY then "h" else "d");
    }
  }

  ghost predicate PrintsNearest(ms: nat, unit: nat, suffix: string) {
    exists n: nat :: FormatTtl(ms) == Decimal(n) + suffix && 2 * ms - unit < 2 * (n * unit) <= 2 * ms + unit
  }

  // ---------------------------------------------------------------- the rounding

  function Abs(x: int): nat {
    if x < 0 then -x else x
  }

  lemma RoundToBounds(ms: nat, unit: nat)
    requires unit > 0
    ensures 2 * ms - unit < 2 * (RoundTo(ms, unit) * unit) <= 2 * ms + unit
  {
    var q := RoundTo(ms, unit);
    assert 2 * ms + unit == q * (2 * unit) + (2 * ms + unit) % (2 * unit);
    assert q * (2 * unit) == 2 * (q * unit);
  }

  /** Products with the unit are a unit apart. */
  lemma UnitApart(p: nat, q: nat, unit: nat)
    requires p < q
    ensures p * unit + unit <= q * unit
  {
    assert q * unit == p * unit + (q - p) * unit;
    assert (q - p - 1) * unit >= 0;
  }

  /** Multiples of a unit are not moved. */
  lemma RoundToMultiple(k: nat, unit: nat)
    requires unit > 0
    ensures RoundTo(k * unit, unit) * unit == k * unit
  {
    RoundToBounds(k * unit, unit);
    var q := RoundTo(k * unit, unit);
    if q > k {
      UnitApart(k, q, unit);
    } else if q < k {
      UnitApart(q, k, unit);
    }
  }

  /** Nearest multiples are ordered as what they are nearest to. */
  lemma NearestAreOrdered(a: nat, b: nat, p: nat, q: nat, unit: nat)
    requires a <= b
    requires 2 * (p * unit) <= 2 * a + unit && 2 * b - unit < 2 * (q * unit)
    ensures p * unit <= q * unit
  {
    if q < p {
      UnitApart(q, p, unit);
    }
  }

  lemma RoundToMonotone(a: nat, b: nat, unit: nat)
    requires a <= b && unit > 0
    ensures RoundTo(a, unit) * unit <= RoundTo(b, unit) * unit
  {
    RoundToBounds(a, unit);
    RoundToBounds(b, unit);
    NearestAreOrdered(a, b, RoundTo(a, unit), RoundTo(b, unit), unit);
  }

  lemma RoundingError(ms: nat)
    ensures ms < SECOND ==> Rounded(ms) == ms
    ensures 2 * Abs(Rounded(ms) - ms) <= UnitFor(ms)
    ensures 3 * Abs(Rounded(ms) - ms) <= ms
  {
    RoundToBounds(ms, UnitFor(ms));
    // Between one unit and one and a half the value falls to the unit, so the error is ms - unit.
    if ms >= SECOND && 2 * ms < 3 * UnitFor(ms) {
      assert RoundTo(ms, UnitFor(ms)) == 1;
    }
  }

  /** The next larger unit, which bounds what is printed in this one. */
  function NextUnit(ms: nat): nat {
    if ms < SECOND then SECOND else if ms < MINUTE then MINUTE else if ms < HOUR then HOUR else DAY
  }

  lemma StaysBetweenUnits(ms: nat)
    ensures ms >= SECOND ==> Rounded(ms) >= UnitFor(ms)
    ensures ms < DAY ==> Rounded(ms) <= NextUnit(ms)
  {
    var unit := UnitFor(ms);
    if ms >= SECOND {
      RoundToMonotone(unit, ms, unit);
      RoundToMultiple(1, unit);
    }
    if ms < DAY {
      RoundToMonotone(ms, NextUnit(ms), unit);
      RoundToMultiple(NextUnit(ms) / unit, unit);
      assert NextUnit(ms) / unit * unit == NextUnit(ms);
    }
  }

  lemma RoundedMonotone(a: nat, b: nat)
    requires a <= b
    ensures Rounded(a) <= Rounded(b)
  {
    if UnitFor(a) == UnitFor(b) {
      RoundToMonotone(a, b, UnitFor(a));
    } else {
      StaysBetweenUnits(a);
      StaysBetweenUnits(b);
    }
  }

  lemma RoundedIdempotent(ms: nat)
    ensures Rounded(Rounded(ms)) == Rounded(ms)
  {
    if ms >= SECOND {
      StaysBetweenUnits(ms);
      RoundToMultiple(RoundTo(ms, UnitFor(ms)), UnitFor(ms));
      if Rounded(ms) == NextUnit(ms) {
        RoundToMultiple(1, NextUnit(ms));
      } else {
        assert UnitFor(Rounded(ms)) == UnitFor(ms);
      }
    }
  }

  /** Whatever is printed parses: exactly below a second, else within half the unit and a third of the duration. */
  lemma RoundTripError(ms: nat)
    ensures var back := ParseTtl(FormatTtl(ms));
            && back.Some?
            && (ms < SECOND ==> back.value == ms)
            && 2 * Abs(back.value - ms) <= UnitFor(ms)
            && 3 * Abs(back.value - ms) <= ms
  {
    FormatThenParse(ms);
    RoundingError(ms);
  }

  /** A longer duration never comes back shorter. */
  lemma RoundTripMonotone(a: nat, b: nat)
    requires a <= b
    ensures var backA, backB := ParseTtl(FormatTtl(a)), ParseTtl(FormatTtl(b));
            backA.Some? && backB.Some? && backA.value <= backB.value
  {
    FormatThenParse(a);
    FormatThenParse(b);
    RoundedMonotone(a, b);
  }

  /** Printing and parsing again changes nothing more. */
  lemma RoundTripIdempotent(ms: nat)
    ensures var back := ParseTtl(FormatTtl(ms));
            back.Some? && ParseTtl(FormatTtl(back.value)) == back
  {
    FormatThenParse(ms);
    FormatThenParse(Rounded(ms));
    RoundedIdempotent(ms);
  }
}
