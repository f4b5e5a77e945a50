/**
 * JavaScript numbers as the dashboard uses them: a finite value or NaN,
 * and `parseFloat`, which reads the longest decimal prefix of a string.
 * Values are exact reals; floating-point rounding is not modelled.
 * The readers scan a string by position, as the JavaScript engine does.
 */
module JsNumber {
  import opened JsText

  /** A JavaScript number: finite, or the poison value NaN. */
  datatype Num = Finite(value: real) | NaN {
    /** `a + b`: NaN as soon as either side is NaN. */
    function Plus(other: Num): (r: Num)
      ensures r.Finite? <==> Finite? && other.Finite?
      ensures r.Finite? ==> r.value == value + other.value
    {
      if Finite? && other.Finite? then Finite(value + other.value) else NaN
    }
  }

  function DigitValue(c: char): (d: nat)
    requires IsDigit(c)
    ensures d <= 9
  {
    c as int - '0' as int
  }

  /** The end of the run of decimal digits that starts at position `i` of `s`. */
  function DigitsEnd(s: string, i: nat): (e: nat)
    requires i <= |s|
    ensures i <= e <= |s|
    ensures forall k :: i <= k < e ==> IsDigit(s[k])
    ensures e < |s| ==> !IsDigit(s[e])
    decreases |s| - i
  {
    if i < |s| && IsDigit(s[i]) then DigitsEnd(s, i + 1) else i
  }

  /** The digits at positions `i` to `e` of `s` read as a whole number (0 when there are none). */
  function WholeValue(s: string, i: nat, e: nat): nat
    requires i <= e <= |s|
    requires forall k :: i <= k < e ==> IsDigit(s[k])
    decreases e - i
  {
    if e == i then 0 else WholeValue(s, i, e - 1) * 10 + DigitValue(s[e - 1])
  }

  /** The digits at positions `i` to `e` of `s` read after a decimal point, as `0.d1d2...`. */
  function FracValue(s: string, i: nat, e: nat): (r: real)
    requires i <= e <= |s|
    requires forall k :: i <= k < e ==> IsDigit(s[k])
    ensures 0.0 <= r < 1.0
    decreases e - i
  {
    if i == e then 0.0 else (DigitValue(s[i]) as real + FracValue(s, i + 1, e)) / 10.0
  }

  /** Where fraction digits start: after a decimal point at `e`, or at `e` when there is none. */
  function FractionStart(s: string, e: nat): (p: nat)
    requires e <= |s|
    ensures p <= |s|
  {
    if e < |s| && s[e] == '.' then e + 1 else e
  }

  /** Where the unsigned number at position `i` ends: its digits, then a point and the fraction's digits. */
  function UnsignedEnd(s: string, i: nat): (f: nat)
    requires i <= |s|
    ensures DigitsEnd(s, i) <= FractionStart(s, DigitsEnd(s, i)) <= f <= |s|
    ensures forall k :: FractionStart(s, DigitsEnd(s, i)) <= k < f ==> IsDigit(s[k])
  {
    var e := DigitsEnd(s, i);
    var p := FractionStart(s, e);
    if p == e then e else DigitsEnd(s, p)
  }

  /** The unsigned decimal number at position `i`: digits, then an optional fraction; NaN without a digit. */
  function UnsignedAt(s: string, i: nat): Num
    requires i <= |s|
  {
    var e := DigitsEnd(s, i);
    var p := FractionStart(s, e);
    var f := UnsignedEnd(s, i);
    if e == i && f == p then NaN
    else Finite(WholeValue(s, i, e) as real + FracValue(s, p, f))
  }

  /** An optional sign at position `j`, then the unsigned number after it. */
  function SignedAt(s: string, j: nat): Num
    requires j <= |s|
  {
    if j < |s| && s[j] == '-' then
      match UnsignedAt(s, j + 1)
      case Finite(m) => Finite(-m)
      case NaN => NaN
    else if j < |s| && s[j] == '+' then UnsignedAt(s, j + 1)
    else UnsignedAt(s, j)
  }

  /**
   * `parseFloat(s)`: skip leading white space, read an optional sign, then
   * digits with an optional fraction; NaN when no digit is read. What follows
   * the number is ignored.
   */
  function ParseFloat(s: string): Num {
    SignedAt(s, SkipSpace(s, 0))
  }

  /** From position `j` on, `t` is a decimal number and nothing else. */
  predicate WholeDecimal(t: string, j: nat)
    requires j <= |t|
  {
    UnsignedAt(t, j).Finite? && UnsignedEnd(t, j) == |t|
  }

  /**
   * `Number(s)`, the conversion behind `a - b` on strings: the trimmed text
   * must be a signed decimal number and nothing else; blank text is 0.
   */
  function ToNumber(s: string): Num {
    var t := Trim(s);
    if t == "" then Finite(0.0)
    else if t[0] == '-' && WholeDecimal(t, 1) then Finite(-UnsignedAt(t, 1).value)
    else if t[0] == '+' && WholeDecimal(t, 1) then UnsignedAt(t, 1)
    else if WholeDecimal(t, 0) then UnsignedAt(t, 0)
    else NaN
  }

  /** A run of digits from `i` that stops at `e` ends at `e`. */
  lemma {:induction false} DigitsEndAt(s: string, i: nat, e: nat)
    requires i <= e <= |s|
    requires forall k :: i <= k < e ==> IsDigit(s[k])
    requires e < |s| ==> !IsDigit(s[e])
    ensures DigitsEnd(s, i) == e
    decreases e - i
  {
    if i < e {
      DigitsEndAt(s, i + 1, e);
    }
  }

  /** The whole value of a run of digits depends only on those digits. */
  lemma {:induction false} WholeValueSame(a: string, i: nat, b: string, j: nat, n: nat)
    requires i + n <= |a| && j + n <= |b|
    requires forall k :: j <= k < j + n ==> IsDigit(b[k])
    requires forall k :: i <= k < i + n ==> b[k - i + j] == a[k]
    ensures WholeValue(a, i, i + n) == WholeValue(b, j, j + n)
  {
    if n > 0 {
      WholeValueSame(a, i, b, j, n - 1);
      assert b[j + n - 1] == a[i + n - 1];
    }
  }

  /** The fraction value of a run of digits depends only on those digits. */
  lemma {:induction false} FracValueSame(a: string, i: nat, b: string, j: nat, n: nat)
    requires i + n <= |a| && j + n <= |b|
    requires forall k :: j <= k < j + n ==> IsDigit(b[k])
    requires forall k :: i <= k < i + n ==> b[k - i + j] == a[k]
    ensures FracValue(a, i, i + n) == FracValue(b, j, j + n)
    decreases n
  {
    if n > 0 {
      assert b[j] == a[i];
      FracValueSame(a, i + 1, b, j + 1, n - 1);
    }
  }

  /** A text without any decimal digit from position `i` on has no number there. */
  lemma {:induction false} NoDigitUnsigned(s: string, i: nat)
    requires i <= |s|
    requires forall k :: i <= k < |s| ==> !IsDigit(s[k])
    ensures UnsignedAt(s, i) == NaN
  {
    assert DigitsEnd(s, i) == i;
    if i < |s| && s[i] == '.' {
      assert DigitsEnd(s, i + 1) == i + 1;
    }
  }

  /** A cell without any decimal digit, such as `N/A`, does not parse. */
  lemma {:induction false} ParseFloatNoDigit(s: string)
    requires forall k :: 0 <= k < |s| ==> !IsDigit(s[k])
    ensures ParseFloat(s) == NaN
  {
    var j := SkipSpace(s, 0);
    NoDigitUnsigned(s, j);
    if j < |s| {
      NoDigitUnsigned(s, j + 1);
    }
  }

  /** Reading the decimal notation of `n` as a whole number gives `n` back. */
  lemma {:induction false} WholeValueOfNat(n: nat)
    ensures WholeValue(NatToString(n), 0, |NatToString(n)|) == n
  {
    var s := NatToString(n);
    if n < 10 {
      assert WholeValue(s, 0, 0) == 0;
    } else {
      var p := NatToString(n / 10);
      assert s == p + [DigitChar(n % 10)];
      WholeValueOfNat(n / 10);
      WholeValueSame(s, 0, p, 0, |p|);
    }
  }

  /** A non-empty run of digits reads as its whole value, to its end. */
  lemma {:induction false} UnsignedDigits(s: string)
    requires |s| > 0 && forall i :: 0 <= i < |s| ==> IsDigit(s[i])
    ensures UnsignedAt(s, 0) == Finite(WholeValue(s, 0, |s|) as real)
    ensures UnsignedEnd(s, 0) == |s|
  {
    DigitsEndAt(s, 0, |s|);
  }

  /** A number without fraction digits reads as its whole part. */
  lemma {:induction false} UnsignedWhole(s: string, i: nat)
    requires i < |s| && IsDigit(s[i])
    requires UnsignedEnd(s, i) <= DigitsEnd(s, i) + 1
    ensures UnsignedAt(s, i) == Finite(WholeValue(s, i, DigitsEnd(s, i)) as real)
  {
    var e := DigitsEnd(s, i);
    var f := UnsignedEnd(s, i);
    assert FracValue(s, FractionStart(s, e), f) == 0.0;
  }

  /** A number with fraction digits reads as its whole part plus its fraction. */
  lemma {:induction false} UnsignedFraction(s: string, i: nat)
    requires i <= |s|
    requires UnsignedEnd(s, i) > DigitsEnd(s, i) + 1
    ensures FractionStart(s, DigitsEnd(s, i)) == DigitsEnd(s, i) + 1
    ensures UnsignedAt(s, i) == Finite(WholeValue(s, i, DigitsEnd(s, i)) as real
      + FracValue(s, DigitsEnd(s, i) + 1, UnsignedEnd(s, i)))
  {
  }

  /** The digits of a number without fraction digits, cut out, read as that number. */
  lemma {:induction false} WholeCut(s: string, i: nat)
    requires i < |s| && IsDigit(s[i])
    requires UnsignedEnd(s, i) <= DigitsEnd(s, i) + 1
    ensures UnsignedAt(s[i..DigitsEnd(s, i)], 0) == UnsignedAt(s, i)
  {
    var e := DigitsEnd(s, i);
    var t := s[i..e];
    assert forall k :: 0 <= k < |t| ==> t[k] == s[k + i];
    UnsignedDigits(t);
    UnsignedWhole(s, i);
    WholeValueSame(t, 0, s, i, e - i);
    assert UnsignedAt(t, 0) == Finite(WholeValue(t, 0, |t|) as real);
    assert UnsignedAt(s, i) == Finite(WholeValue(s, i, e) as real);
    assert WholeValue(t, 0, |t|) == WholeValue(s, i, e);
  }

  /** A number with fraction digits, cut out to its end, reads as that number. */
  lemma {:induction false} FractionCut(s: string, i: nat)
    requires i < |s| && IsDigit(s[i])
    requires UnsignedEnd(s, i) > DigitsEnd(s, i) + 1
    ensures UnsignedAt(s[i..UnsignedEnd(s, i)], 0) == UnsignedAt(s, i)
  {
    var t := s[i..UnsignedEnd(s, i)];
    assert forall k :: 0 <= k < |t| ==> t[k] == s[k + i];
    FractionCopy(s, i, t);
  }

  /** A copy `t` of the number with fraction digits at position `i` of `s` reads as that number. */
  lemma {:induction false} FractionCopy(s: string, i: nat, t: string)
    requires i < |s| && IsDigit(s[i])
    requires UnsignedEnd(s, i) > DigitsEnd(s, i) + 1
    requires |t| == UnsignedEnd(s, i) - i
    requires forall k :: 0 <= k < |t| ==> t[k] == s[k + i]
    ensures UnsignedAt(t, 0) == UnsignedAt(s, i)
  {
    var e := DigitsEnd(s, i);
    var f := UnsignedEnd(s, i);
    var m := e - i;
    UnsignedFraction(s, i);
    FractionShape(s, i, t);
    UnsignedFraction(t, 0);
    WholeValueSame(t, 0, s, i, m);
    FracValueSame(t, m + 1, s, e + 1, f - (e + 1));
  }

  /** The copy has its decimal point where the original has it, and ends with the number. */
  lemma {:induction false} FractionShape(s: string, i: nat, t: string)
    requires i < |s| && IsDigit(s[i])
    requires UnsignedEnd(s, i) > DigitsEnd(s, i) + 1
    requires |t| == UnsignedEnd(s, i) - i
    requires forall k :: 0 <= k < |t| ==> t[k] == s[k + i]
    ensures DigitsEnd(t, 0) == DigitsEnd(s, i) - i
    ensures UnsignedEnd(t, 0) == |t| > DigitsEnd(t, 0) + 1
  {
    var e := DigitsEnd(s, i);
    var m := e - i;
    UnsignedFraction(s, i);
    assert t[m] == s[e] == '.';
    DigitsEndAt(t, 0, m);
    DigitsEndAt(t, m + 1, |t|);
  }

  lemma {:induction false} ParseFloatDigits(s: string)
    requires |s| > 0 && forall i :: 0 <= i < |s| ==> IsDigit(s[i])
    ensures ParseFloat(s) == Finite(WholeValue(s, 0, |s|) as real)
  {
    assert IsDigit(s[0]);
    assert !IsSpace(s[0]) && s[0] != '-' && s[0] != '+';
    assert SkipSpace(s, 0) == 0;
    UnsignedDigits(s);
  }

  /** Printing a whole number and reading it back with `parseFloat` gives that number. */
  lemma {:induction false} ParseFloatNatToString(n: nat)
    ensures ParseFloat(NatToString(n)) == Finite(n as real)
  {
    ParseFloatDigits(NatToString(n));
    WholeValueOfNat(n);
  }

  /** `Number` reads a string of digits as its decimal value. */
  lemma {:induction false} ToNumberDigits(s: string)
    requires |s| > 0 && forall i :: 0 <= i < |s| ==> IsDigit(s[i])
    ensures ToNumber(s) == Finite(WholeValue(s, 0, |s|) as real)
  {
    assert IsDigit(s[0]) && IsDigit(s[|s| - 1]);
    assert Trimmed(s);
    UnsignedDigits(s);
  }

  /** `Number` reads a printed whole number back as that number. */
  lemma {:induction false} ToNumberNatToString(n: nat)
    ensures ToNumber(NatToString(n)) == Finite(n as real)
  {
    ToNumberDigits(NatToString(n));
    WholeValueOfNat(n);
  }
}
