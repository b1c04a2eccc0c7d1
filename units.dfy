/**
 * Unit conversion and text formatting helpers (app/utils.ts).
 * JavaScript numbers are modelled as `real`; `Math.round(x)` is `Floor(x + 0.5)`
 * (round half up, as JavaScript does for negative halves too).
 */
module Units {
  import opened Wrappers
  import opened Program

  // ------------------------------------------------------------ decimal text

  predicate IsDigit(c: char) { '0' <= c <= '9' }

  predicate AllDigits(s: string) { forall i :: 0 <= i < |s| ==> IsDigit(s[i]) }

  function DigitChar(d: nat): (c: char)
    requires d < 10
    ensures IsDigit(c) && c as int - '0' as int == d
  {
    ('0' as int + d) as char
  }

  function DigitValue(c: char): nat
    requires IsDigit(c)
  {
    c as int - '0' as int
  }

  /** The text JavaScript prints for a non-negative integer: decimal, no leading zero. */
  function DecimalString(n: nat): (s: string)
    ensures 1 <= |s| && AllDigits(s)
    ensures |s| > 1 ==> s[0] != '0'
    ensures n < 10 ==> |s| == 1
    ensures 10 <= n < 100 ==> |s| == 2
    decreases n
  {
    if n < 10 then [DigitChar(n)] else DecimalString(n / 10) + [DigitChar(n % 10)]
  }

  /** The value of a string of decimal digits (an independent reading of the text). */
  function DigitsValue(s: string): nat
    requires AllDigits(s)
  {
    if s == [] then 0 else 10 * DigitsValue(s[..|s| - 1]) + DigitValue(s[|s| - 1])
  }

  lemma {:induction false} DecimalStringRoundTrip(n: nat)
    ensures DigitsValue(DecimalString(n)) == n
  {
    if n >= 10 {
      var s := DecimalString(n);
      assert s[..|s| - 1] == DecimalString(n / 10);
      DecimalStringRoundTrip(n / 10);
    }
  }

  /** `padStart(2, "0")`. */
  function PadStart2(s: string): (r: string)
  {
    if |s| >= 2 then s else seq(2 - |s|, _ => '0') + s
  }

  lemma PadStart2Digit(c: char)
    requires IsDigit(c)
    ensures PadStart2([c]) == ['0', c] && AllDigits(['0', c]) && DigitsValue(['0', c]) == DigitValue(c)
  {
    assert ['0', c][..1] == ['0'];
    assert ['0'][..0] == [];
  }

  // ------------------------------------------------------------ formatTime

  /**
   * `${mins}:${secs padded to two digits}`: the text before the colon reads as the
   * whole minutes, the two digits after it as the seconds within the minute.
   */
  function FormatTime(seconds: nat): (r: string)
    ensures |r| >= 4 && r[|r| - 3] == ':'
    ensures AllDigits(r[..|r| - 3]) && AllDigits(r[|r| - 2..])
    ensures DigitsValue(r[|r| - 2..]) < 60
    ensures 60 * DigitsValue(r[..|r| - 3]) + DigitsValue(r[|r| - 2..]) == seconds
    ensures |r| == 4 || r[0] != '0'
  {
    var mins := DecimalString(seconds / 60);
    var secsText := DecimalString(seconds % 60);
    DecimalStringRoundTrip(seconds / 60);
    DecimalStringRoundTrip(seconds % 60);
    var secs := PadStart2(secsText);
    assert |secs| == 2 && AllDigits(secs) && DigitsValue(secs) == seconds % 60 by {
      if |secsText| == 1 {
        PadStart2Digit(secsText[0]);
        assert secsText == [secsText[0]];
        assert [secsText[0]][..0] == [];
      }
    }
    ColonSplit(mins, secs);
    mins + ":" + secs
  }

  /** Where the colon sits in `${mins}:${secs}` for two-digit seconds. */
  lemma ColonSplit(mins: string, secs: string)
    requires |mins| >= 1 && |secs| == 2
    ensures var r := mins + ":" + secs;
      |r| >= 4 && r[|r| - 3] == ':' && r[..|r| - 3] == mins && r[|r| - 2..] == secs
  {
    var r := mins + ":" + secs;
    assert r[..|r| - 3] == mins;
    assert r[|r| - 2..] == secs;
  }

  lemma FormatTimeExample()
    ensures FormatTime(65) == "1:05"
    ensures FormatTime(0) == "0:00"
    ensures FormatTime(600) == "10:00"
  {
    FormatTimeOf(65, "1", "5", "1:05");
    FormatTimeOf(0, "0", "0", "0:00");
    assert DecimalString(10) == DecimalString(1) + "0";
    FormatTimeOf(600, "10", "0", "10:00");
  }

  lemma FormatTimeOf(seconds: nat, mins: string, secs: string, r: string)
    requires DecimalString(seconds / 60) == mins && DecimalString(seconds % 60) == secs
    requires r == mins + ":" + PadStart2(secs)
    ensures FormatTime(seconds) == r
  {
  }

  // ------------------------------------------------------------ rep buttons

  datatype ButtonStyle = Complete | Empty

  function RepButtonStyle(reps: int): (r: ButtonStyle)
    ensures r == Complete <==> reps > -1
  {
    if reps > -1 then Complete else Empty
  }

  function RepButtonTextStyle(reps: int): (r: ButtonStyle)
    ensures r == Complete <==> reps > -1
  {
    if reps > -1 then Complete else Empty
  }

  /** Over the values a set can hold (-1, then reps done), only the sentinel is shown empty. */
  lemma OnlySentinelIsEmpty(reps: int)
    requires reps >= EmptySet
    ensures RepButtonStyle(reps) == Empty <==> reps == EmptySet
    ensures RepButtonTextStyle(reps) == RepButtonStyle(reps)
  {
  }

  // ------------------------------------------------------------ formatWeight

  function UnitLabel(u: Unit): string {
    match u
    case Lbs => "lbs"
    case Kg => "kg"
  }

  /**
   * The text JavaScript prints for a non-negative number that is a whole number of
   * hundredths `h`: the whole part, then `.` and the fraction without trailing zeros.
   */
  function NumberText(h: nat): string {
    var f := h % 100;
    DecimalString(h / 100) +
      (if f == 0 then ""
       else if f % 10 == 0 then ['.', DigitChar(f / 10)]
       else ['.', DigitChar(f / 10), DigitChar(f % 10)])
  }

  /** `s.indexOf(c)`: the index of the first `c`, or -1. */
  function IndexOf<T(==)>(s: seq<T>, c: T): (k: int)
    ensures -1 <= k < |s|
    ensures k >= 0 ==> s[k] == c
    ensures forall j :: 0 <= j < |s| && (k < 0 || j < k) ==> s[j] != c
  {
    if s == [] then -1
    else if s[0] == c then 0
    else
      var k := IndexOf(s[1..], c);
      if k < 0 then -1 else k + 1
  }

  /** Reads hundredths back from `digits[.d[d]]`. */
  function ParseHundredths(s: string): Option<nat> {
    var k := IndexOf(s, '.');
    if k < 0 then ParseWhole(s) else ParseDecimal(s[..k], s[k + 1..])
  }

  /** Digits only: whole units. */
  function ParseWhole(s: string): Option<nat> {
    if s != [] && AllDigits(s) then Some(100 * DigitsValue(s)) else None
  }

  /** Digits, a dot (already split off) and one or two digits of fraction. */
  function ParseDecimal(whole: string, frac: string): Option<nat> {
    if whole != [] && AllDigits(whole) && 1 <= |frac| <= 2 && AllDigits(frac) then
      Some(100 * DigitsValue(whole) + (if |frac| == 1 then 10 * DigitsValue(frac) else DigitsValue(frac)))
    else None
  }

  lemma DigitsHaveNoDot(w: string)
    requires AllDigits(w)
    ensures '.' !in w
  {
    forall i | 0 <= i < |w| ensures w[i] != '.' { assert IsDigit(w[i]); }
  }

  lemma FirstDotAfterDigits(w: string, rest: string)
    requires AllDigits(w)
    ensures IndexOf(w + ['.'] + rest, '.') == |w|
  {
    var t := w + ['.'] + rest;
    assert t[|w|] == '.';
    forall j | 0 <= j < |w| ensures t[j] != '.' {
      assert t[j] == w[j] && IsDigit(w[j]);
    }
  }

  lemma ParseWithFraction(w: string, frac: string)
    requires w != [] && AllDigits(w) && 1 <= |frac| <= 2 && AllDigits(frac)
    ensures ParseHundredths(w + ['.'] + frac) == ParseDecimal(w, frac)
  {
    var t := w + ['.'] + frac;
    FirstDotAfterDigits(w, frac);
    assert t[..|w|] == w;
    assert t[|w| + 1..] == frac;
  }

  lemma TwoDigitsValue(a: char, b: char)
    requires IsDigit(a) && IsDigit(b)
    ensures AllDigits([a]) && DigitsValue([a]) == DigitValue(a)
    ensures AllDigits([a, b]) && DigitsValue([a, b]) == 10 * DigitValue(a) + DigitValue(b)
  {
    assert [a][..0] == [];
    assert [a, b][..1] == [a];
  }

  lemma NumberTextRoundTrip(h: nat)
    ensures ParseHundredths(NumberText(h)) == Some(h)
  {
    var w := DecimalString(h / 100);
    DecimalStringRoundTrip(h / 100);
    var f := h % 100;
    if f == 0 {
      DigitsHaveNoDot(w);
      assert NumberText(h) == w;
    } else if f % 10 == 0 {
      var frac := [DigitChar(f / 10)];
      TwoDigitsValue(DigitChar(f / 10), DigitChar(0));
      assert NumberText(h) == w + ['.'] + frac;
      ParseWithFraction(w, frac);
    } else {
      var frac := [DigitChar(f / 10), DigitChar(f % 10)];
      TwoDigitsValue(DigitChar(f / 10), DigitChar(f % 10));
      assert NumberText(h) == w + ['.'] + frac;
      ParseWithFraction(w, frac);
    }
  }

  /** `${weight} ${unit}` for a weight of `h` hundredths: the number, a space, the unit. */
  function FormatWeight(h: nat, u: Unit): (r: string)
    ensures |r| > |UnitLabel(u)| && r[|r| - |UnitLabel(u)|..] == UnitLabel(u)
    ensures r[|r| - |UnitLabel(u)| - 1] == ' '
    ensures ParseHundredths(r[..|r| - |UnitLabel(u)| - 1]) == Some(h)
  {
    NumberTextRoundTrip(h);
    var r := NumberText(h) + " " + UnitLabel(u);
    assert r[..|r| - |UnitLabel(u)| - 1] == NumberText(h);
    r
  }

  // ------------------------------------------------------------ conversion

  const KgPerLb: real := 0.453592

  /** `Math.round(x)`. */
  function Round(x: real): (r: int)
    ensures x - 0.5 < r as real <= x + 0.5
  {
    (x + 0.5).Floor
  }

  ghost predicate IsMultipleOf(x: real, step: real)
    requires step > 0.0
  {
    (x / step).Floor as real == x / step
  }

  /** Pounds to kilograms, rounded to the nearest 2.5 kg. */
  function LbsToKg(lbs: real): (kg: real)
    ensures IsMultipleOf(kg, 2.5)
    ensures lbs * KgPerLb - 1.25 < kg <= lbs * KgPerLb + 1.25
  {
    Round(lbs * KgPerLb / 2.5) as real * 2.5
  }

  /** Kilograms to pounds, rounded to the nearest 5 lbs. */
  function KgToLbs(kg: real): (lbs: real)
    ensures IsMultipleOf(lbs, 5.0)
    ensures kg / KgPerLb - 2.5 < lbs <= kg / KgPerLb + 2.5
  {
    Round(kg / KgPerLb / 5.0) as real * 5.0
  }

  /** The exact value of `w` in unit `to`, before any rounding. */
  function ExactConversion(w: real, from: Unit, to: Unit): real {
    if from == to then w else if from == Lbs then w * KgPerLb else w / KgPerLb
  }

  function ConvertWeight(w: real, from: Unit, to: Unit): (r: real)
    ensures from == to ==> r == w
    ensures from != to ==> IsMultipleOf(r, MinimumIncrement(to))
    ensures from != to ==>
      ExactConversion(w, from, to) - MinimumIncrement(to) / 2.0 < r <= ExactConversion(w, from, to) + MinimumIncrement(to) / 2.0
  {
    if from == to then w
    else if from == Lbs && to == Kg then LbsToKg(w)
    else KgToLbs(w)
  }

  lemma ConvertWeightDispatch(w: real)
    ensures ConvertWeight(w, Lbs, Kg) == LbsToKg(w)
    ensures ConvertWeight(w, Kg, Lbs) == KgToLbs(w)
    ensures ConvertWeight(w, Lbs, Lbs) == w && ConvertWeight(w, Kg, Kg) == w
  {
  }

  lemma RoundIsMonotone(x: real, y: real)
    requires x <= y
    ensures Round(x) <= Round(y)
  {
    var i, j := Round(x), Round(y);
    assert i as real <= x + 0.5 <= y + 0.5 < j as real + 1.0;
  }

  /** Heavier in, never lighter out. */
  lemma ConversionIsMonotone(a: real, b: real)
    requires a <= b
    ensures LbsToKg(a) <= LbsToKg(b)
    ensures KgToLbs(a) <= KgToLbs(b)
  {
    RoundIsMonotone(a * KgPerLb / 2.5, b * KgPerLb / 2.5);
    RoundIsMonotone(a / KgPerLb / 5.0, b / KgPerLb / 5.0);
  }

  lemma ConversionExamples()
    ensures LbsToKg(45.0) == 20.0
    ensures KgToLbs(20.0) == 45.0
    ensures LbsToKg(0.0) == 0.0 && KgToLbs(0.0) == 0.0
  {
    assert 45.0 * KgPerLb / 2.5 + 0.5 == 8.664656;
    assert 20.0 / KgPerLb / 5.0 + 0.5 > 9.0 && 20.0 / KgPerLb / 5.0 + 0.5 < 10.0;
  }
}
