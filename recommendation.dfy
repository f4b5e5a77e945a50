/**
 * The React recommendations page (`RecommendationPage.js`): the backend's
 * records come in pairs per appliance (one about usage hours, one about
 * its `(Units)` column); the page merges records whose appliance names are
 * similar into one card, pulls the first number out of each message and
 * classifies the card by that number.
 */
module Recommendation {
  import opened Common
  import opened JsText
  import opened JsNumber

  // ---- isSimilarName ----

  /** `s.replace(/\(units\)|\s/g, "")`: one left-to-right pass removing `(units)` and white space. */
  function Squeeze(s: string): (r: string)
    ensures forall i :: 0 <= i < |r| ==> !IsSpace(r[i])
    ensures |r| <= |s|
    ensures NoParen(s) ==> r == DropSpace(s)
  {
    if |s| == 0 then ""
    else if StartsWith(s, "(units)") then
      assert s[..7][0] == s[0];
      Squeeze(s[7..])
    else if IsSpace(s[0]) then Squeeze(s[1..])
    else [s[0]] + Squeeze(s[1..])
  }

  /** The characters of `s` that are not white space, in order. */
  function DropSpace(s: string): string {
    if |s| == 0 then "" else (if IsSpace(s[0]) then "" else [s[0]]) + DropSpace(s[1..])
  }

  /** A name with inner spaces is similar to its synonym: `Air Conditioner` and `AC`. */
  lemma {:induction false} AirConditionerIsAC(name: string, short: string)
    requires name == "Air Conditioner" && short == "AC"
    ensures IsSimilarName(name, short)
  {
    NormalAirConditioner(name);
    NormalAC(short);
    SimilarBySynonym(name, short, "airconditioner", "ac");
  }

  lemma {:induction false} NormalAirConditioner(name: string)
    requires name == "Air Conditioner"
    ensures Normal(name) == "airconditioner"
  {
    var air, conditioner := "air", "conditioner";
    LowerTo(name, air + [' '] + conditioner);
    NormalTwoWords(name, air, ' ', conditioner);
    JoinedWords();
  }

  lemma {:induction false} JoinedWords()
    ensures "air" + "conditioner" == "airconditioner"
  {
  }

  lemma {:induction false} NormalAC(short: string)
    requires short == "AC"
    ensures Normal(short) == "ac"
  {
    LowerTo(short, "ac");
    NormalOneWord(short, "ac");
  }

  /** A name that lower-cases to one word has that word as its normal form. */
  lemma {:induction false} NormalOneWord(s: string, a: string)
    requires ToLower(s) == a
    requires forall i :: 0 <= i < |a| ==> !IsSpace(a[i]) && a[i] != '('
    ensures Normal(s) == a
  {
    SqueezePlain(a);
  }

  /** A name that lower-cases to two words and one space between them: the normal form joins the words. */
  lemma {:induction false} NormalTwoWords(s: string, a: string, c: char, b: string)
    requires ToLower(s) == a + [c] + b && IsSpace(c)
    requires forall i :: 0 <= i < |a| ==> !IsSpace(a[i]) && a[i] != '('
    requires forall i :: 0 <= i < |b| ==> !IsSpace(b[i]) && b[i] != '('
    ensures Normal(s) == a + b
  {
    var l := a + [c] + b;
    assert NoParen(l) by {
      forall i | 0 <= i < |l| ensures l[i] != '(' {
        if i < |a| { assert l[i] == a[i]; }
        else if i > |a| { assert l[i] == b[i - |a| - 1]; }
      }
    }
    DropOneSpace(a, c, b);
  }

  lemma {:induction false} SimilarBySynonym(a: string, b: string, x: string, y: string)
    requires Normal(a) == x && Normal(b) == y && Synonym(y) == Some(x)
    ensures IsSimilarName(a, b)
  {
  }

  /** Lower-casing character by character gives `t`. */
  lemma {:induction false} LowerTo(s: string, t: string)
    requires |s| == |t| && forall i :: 0 <= i < |s| ==> LowerChar(s[i]) == t[i]
    ensures ToLower(s) == t
  {
  }

  /** Dropping white space distributes over joined texts. */
  lemma {:induction false} DropSpaceAppend(a: string, b: string)
    ensures DropSpace(a + b) == DropSpace(a) + DropSpace(b)
    decreases |a|
  {
    if |a| == 0 {
      assert a + b == b;
    } else {
      assert (a + b)[0] == a[0];
      assert (a + b)[1..] == a[1..] + b;
      DropSpaceAppend(a[1..], b);
    }
  }

  /** A text without white space keeps all its characters. */
  lemma {:induction false} DropSpaceNone(s: string)
    requires forall i :: 0 <= i < |s| ==> !IsSpace(s[i])
    ensures DropSpace(s) == s
  {
    if |s| > 0 {
      DropSpaceNone(s[1..]);
    }
  }

  /** One white-space character between two words without any is dropped. */
  lemma {:induction false} DropOneSpace(a: string, c: char, b: string)
    requires forall i :: 0 <= i < |a| ==> !IsSpace(a[i])
    requires forall i :: 0 <= i < |b| ==> !IsSpace(b[i])
    requires IsSpace(c)
    ensures DropSpace(a + [c] + b) == a + b
  {
    DropSpaceAppend(a + [c], b);
    DropSpaceAppend(a, [c]);
    DropSpaceNone(a);
    DropSpaceNone(b);
    assert DropSpace([c]) == [] by { assert [c][1..] == []; }
  }

  /** Both names are lower-cased, then squeezed. */
  function Normal(s: string): string {
    Squeeze(ToLower(s))
  }

  /** The `synonyms` object: only its four own properties hold strings. */
  function Synonym(s: string): Option<string> {
    if s == "tv" then Some("television")
    else if s == "ac" then Some("airconditioner")
    else if s == "fridge" then Some("refrigerator")
    else if s == "motor" then Some("motorpump")
    else None
  }

  /** `isSimilarName(a, b)`. */
  predicate IsSimilarName(a: string, b: string) {
    var x := Normal(a);
    var y := Normal(b);
    x == y || Synonym(x) == Some(y) || Synonym(y) == Some(x)
  }

  /** The four synonym pairs, in either order. */
  predicate SynonymPair(x: string, y: string) {
    || (x == "tv" && y == "television") || (x == "television" && y == "tv")
    || (x == "ac" && y == "airconditioner") || (x == "airconditioner" && y == "ac")
    || (x == "fridge" && y == "refrigerator") || (x == "refrigerator" && y == "fridge")
    || (x == "motor" && y == "motorpump") || (x == "motorpump" && y == "motor")
  }

  /** Similar names are equal once normalised, or one of the four synonym pairs; the relation is symmetric and reflexive. */
  lemma {:induction false} SimilarNames(a: string, b: string)
    ensures IsSimilarName(a, b) <==> Normal(a) == Normal(b) || SynonymPair(Normal(a), Normal(b))
    ensures IsSimilarName(a, b) <==> IsSimilarName(b, a)
    ensures IsSimilarName(a, a)
  {
  }

  /** No character of `s` is `(`. */
  predicate NoParen(s: string) {
    forall i :: 0 <= i < |s| ==> s[i] != '('
  }

  /** A `(` never comes out of lower-casing unless it went in. */
  lemma {:induction false} ToLowerParen(s: string)
    ensures NoParen(ToLower(s)) <==> NoParen(s)
  {
  }

  /** A text does not start with a pattern whose first character it lacks. */
  lemma {:induction false} NotStarting(s: string, p: string)
    requires |s| > 0 && |p| > 0 && s[0] != p[0]
    ensures !StartsWith(s, p)
  {
    if |p| <= |s| {
      assert s[..|p|][0] == s[0];
    }
  }

  /** No `(units)` can start inside a part without `(`, so such a part is squeezed on its own. */
  lemma {:induction false} SqueezeAppend(a: string, b: string)
    requires NoParen(a)
    ensures Squeeze(a + b) == Squeeze(a) + Squeeze(b)
  {
    if |a| == 0 {
      assert a + b == b;
    } else {
      assert (a + b)[0] == a[0];
      assert (a + b)[1..] == a[1..] + b;
      NotStarting(a + b, "(units)");
      NotStarting(a, "(units)");
      SqueezeAppend(a[1..], b);
    }
  }

  /** A name without white space, `(` or capitals is its own normal form. */
  lemma {:induction false} NormalPlain(s: string)
    requires Plain(s)
    ensures Normal(s) == s
  {
    assert ToLower(s) == s;
    SqueezePlain(s);
  }

  lemma {:induction false} SqueezePlain(s: string)
    requires forall i :: 0 <= i < |s| ==> !IsSpace(s[i]) && s[i] != '('
    ensures Squeeze(s) == s
  {
    if |s| > 0 {
      NotStarting(s, "(units)");
      SqueezePlain(s[1..]);
    }
  }

  /** A ` (Units)` or `(Units)` suffix does not change a name without `(`. */
  lemma {:induction false} NormalUnitsSuffix(s: string)
    requires NoParen(s)
    ensures Normal(s + " (Units)") == Normal(s)
    ensures Normal(s + "(Units)") == Normal(s)
  {
    NormalUnitsTag(s, "(Units)", "(units)");
    SpacedTag(" (Units)", "(Units)");
  }

  lemma {:induction false} SpacedTag(spaced: string, tag: string)
    requires spaced == " (Units)" && tag == "(Units)"
    ensures spaced == [' '] + tag
  {
  }

  lemma {:induction false} NormalUnitsTag(s: string, tag: string, lowered: string)
    requires NoParen(s) && tag == "(Units)" && lowered == "(units)"
    ensures Normal(s + tag) == Normal(s) && Normal(s + ([' '] + tag)) == Normal(s)
  {
    ToLowerParen(s);
    LowerUnits(tag, lowered);
    SqueezeUnits(lowered);
    NormalSuffix(s, [' '] + tag, [' '] + lowered);
    NormalSuffix(s, tag, lowered);
  }

  lemma {:induction false} LowerUnits(tag: string, lowered: string)
    requires tag == "(Units)" && lowered == "(units)"
    ensures ToLower(tag) == lowered && ToLower([' '] + tag) == [' '] + lowered
  {
    LowerTo(tag, lowered);
    LowerTo([' '] + tag, [' '] + lowered);
  }

  /** `(units)`, with or without a space before it, is removed entirely. */
  lemma {:induction false} SqueezeUnits(u: string)
    requires u == "(units)"
    ensures Squeeze(u) == "" && Squeeze([' '] + u) == ""
  {
    assert StartsWith(u, "(units)");
    assert ([' '] + u)[1..] == u;
  }

  lemma {:induction false} NormalSuffix(s: string, suffix: string, lowered: string)
    requires NoParen(ToLower(s))
    requires ToLower(suffix) == lowered && Squeeze(lowered) == ""
    ensures Normal(s + suffix) == Normal(s)
  {
    var l := ToLower(s);
    calc {
      Normal(s + suffix);
      Squeeze(ToLower(s + suffix));
      { ToLowerAppend(s, suffix); }
      Squeeze(l + lowered);
      { SqueezeAppend(l, lowered); }
      Squeeze(l) + Squeeze(lowered);
      { assert Squeeze(l) + [] == Squeeze(l); }
      Squeeze(l);
    }
  }

  lemma {:induction false} ToLowerAppend(a: string, b: string)
    ensures ToLower(a + b) == ToLower(a) + ToLower(b)
  {
  }

  /** A name without white space, `(` or capital letters. */
  predicate Plain(s: string) {
    forall i :: 0 <= i < |s| ==> !IsSpace(s[i]) && s[i] != '(' && !('A' <= s[i] <= 'Z')
  }

  /** Plain names are similar exactly when equal or one of the four synonym pairs. */
  lemma {:induction false} PlainSimilar(a: string, b: string)
    requires Plain(a) && Plain(b)
    ensures IsSimilarName(a, b) <==> a == b || SynonymPair(a, b)
  {
    NormalPlain(a);
    NormalPlain(b);
    SimilarNames(a, b);
  }

  /** A column name and the same name with ` (Units)` or `(Units)` after it are similar. */
  lemma {:induction false} UnitsSuffixSimilar(s: string)
    requires NoParen(s)
    ensures IsSimilarName(s + " (Units)", s) && IsSimilarName(s + "(Units)", s)
  {
    NormalUnitsSuffix(s);
  }

  // ---- Records and cards ----

  /** One record of the `/recommendations` response. */
  datatype Rec = Rec(appliance: string, recommendation: string)

  /** One merged card. */
  datatype Card = Card(
    appliance: string,
    usageMessage: string,
    unitMessage: string,
    avgUsage: Option<real>,
    avgUnits: Option<real>)

  /** `rec.appliance.replace(/\(Units\)/, "").trim()`: the first `(Units)` removed. */
  function BaseName(appliance: string): string {
    Trim(RemoveFirst(appliance, "(Units)"))
  }

  /** Removal of the first `(Units)` skips a part without `(`. */
  lemma {:induction false} RemoveFirstAppend(a: string, b: string)
    requires NoParen(a)
    ensures RemoveFirst(a + b, "(Units)") == a + RemoveFirst(b, "(Units)")
  {
    assert "(Units)"[0] == '(';
    RemoveFirstSkip(a, b, "(Units)");
  }

  /** Removal of the first `pat` skips a part that lacks the first character of `pat`. */
  lemma {:induction false} RemoveFirstSkip(a: string, b: string, pat: string)
    requires |pat| > 0 && forall i :: 0 <= i < |a| ==> a[i] != pat[0]
    ensures RemoveFirst(a + b, pat) == a + RemoveFirst(b, pat)
    decreases |a|
  {
    if |a| == 0 {
      assert a + b == b;
    } else {
      var t := a[1..] + b;
      var r := RemoveFirst(b, pat);
      assert a + b == [a[0]] + t;
      RemoveFirstCons(a[0], t, pat);
      RemoveFirstSkip(a[1..], b, pat);
      assert RemoveFirst(a + b, pat) == [a[0]] + (a[1..] + r);
      HeadTail(a, r);
    }
  }

  lemma {:induction false} HeadTail<T>(a: seq<T>, r: seq<T>)
    requires |a| > 0
    ensures [a[0]] + (a[1..] + r) == a + r
  {
    assert a == [a[0]] + a[1..];
  }

  /** A first character that cannot start `pat` is kept. */
  lemma {:induction false} RemoveFirstCons(c: char, t: string, pat: string)
    requires |pat| > 0 && c != pat[0]
    ensures RemoveFirst([c] + t, pat) == [c] + RemoveFirst(t, pat)
  {
    var s := [c] + t;
    assert s[0] == c && s[1..] == t;
    NotStarting(s, pat);
  }

  /** A name without `(` has no `(Units)` to remove. */
  lemma {:induction false} NoUnitsInPlain(s: string)
    requires NoParen(s)
    ensures RemoveFirst(s, "(Units)") == s && !Contains(s, "(Units)")
  {
    RemoveFirstAppend(s, "");
    assert s + "" == s;
    assert !StartsWith("", "(Units)");
  }

  /** A ` (Units)` suffix is where the first `(Units)` of such a name is. */
  lemma {:induction false} UnitsSuffixRemoved(s: string)
    requires NoParen(s)
    ensures RemoveFirst(s + " (Units)", "(Units)") == s + " " && Contains(s + " (Units)", "(Units)")
  {
    RemoveFirstAppend(s, " (Units)");
    assert RemoveFirst(" (Units)", "(Units)") == " " by {
      assert StartsWith("(Units)", "(Units)");
      assert !StartsWith(" (Units)", "(Units)");
      assert " (Units)"[1..] == "(Units)";
    }
  }

  /** The two records the backend could send about one appliance share their base name. */
  lemma {:induction false} BaseNameUnits(s: string)
    requires NoParen(s) && Trimmed(s)
    ensures BaseName(s) == s
    ensures BaseName(s + " (Units)") == s
  {
    NoUnitsInPlain(s);
    UnitsSuffixRemoved(s);
    TrimSpaceAfter(s);
  }

  /** A trimmed name with one space after it trims back to the name. */
  lemma {:induction false} TrimSpaceAfter(s: string)
    requires Trimmed(s)
    ensures Trim(s + " ") == s
  {
    var t := s + " ";
    if |s| == 0 {
      assert AllSpace(t);
    } else {
      assert t[0] == s[0] && t[|s| - 1] == s[|s| - 1];
      assert SkipSpace(t, 0) == 0;
      assert SpaceStart(t, |t|) == SpaceStart(t, |s|) == |s|;
      assert TrimStart(t) == t;
      assert t[..|s|] == s;
    }
  }

  /**
   * `combined.find((r) => similar(r.appliance, base))`, as a position (-1:
   * none). The merge is stated for any name test `similar`; the page passes
   * `IsSimilarName`.
   */
  function FindSimilar(combined: seq<Card>, base: string, similar: (string, string) -> bool): (k: int)
    ensures -1 <= k < |combined|
    ensures k == -1 <==> forall i :: 0 <= i < |combined| ==> !similar(combined[i].appliance, base)
    ensures k >= 0 ==> similar(combined[k].appliance, base)
    ensures forall i :: 0 <= i < k ==> !similar(combined[i].appliance, base)
  {
    if |combined| == 0 then -1
    else if similar(combined[0].appliance, base) then 0
    else
      var k := FindSimilar(combined[1..], base, similar);
      assert forall i :: 1 <= i < |combined| ==> combined[1..][i - 1] == combined[i];
      if k == -1 then -1 else k + 1
  }

  // ---- The first number of a message ----

  /** The first position holding a digit, or -1. */
  function FirstDigit(s: string): (d: int)
    ensures -1 <= d < |s|
    ensures d == -1 <==> forall i :: 0 <= i < |s| ==> !IsDigit(s[i])
    ensures d >= 0 ==> IsDigit(s[d]) && forall i :: 0 <= i < d ==> !IsDigit(s[i])
  {
    if |s| == 0 then -1
    else if IsDigit(s[0]) then 0
    else
      var d := FirstDigit(s[1..]);
      assert forall i :: 1 <= i < |s| ==> s[1..][i - 1] == s[i];
      if d == -1 then -1 else d + 1
  }

  /** The first digit of a text whose first part has none lies in its second part. */
  lemma {:induction false} FirstDigitAppend(a: string, b: string)
    requires forall i :: 0 <= i < |a| ==> !IsDigit(a[i])
    requires FirstDigit(b) >= 0
    ensures FirstDigit(a + b) == |a| + FirstDigit(b)
  {
    var s := a + b;
    var d := |a| + FirstDigit(b);
    assert s[d] == b[FirstDigit(b)];
    assert forall i :: 0 <= i < d ==> !IsDigit(s[i]) by {
      forall i | 0 <= i < d ensures !IsDigit(s[i]) {
        if i >= |a| {
          assert s[i] == b[i - |a|];
        }
      }
    }
    FirstDigitAt(s, d);
  }

  /** The first digit is where the digits start. */
  lemma {:induction false} FirstDigitAt(s: string, d: nat)
    requires d < |s| && IsDigit(s[d])
    requires forall i :: 0 <= i < d ==> !IsDigit(s[i])
    ensures FirstDigit(s) == d
  {
    if d > 0 {
      FirstDigitAt(s[1..], d - 1);
    }
  }

  /** Where the match of `\d+(\.\d+)?` at position `d` ends: after the fraction when a digit follows the point. */
  function MatchEnd(s: string, d: nat): (g: nat)
    requires d <= |s|
    ensures d <= g <= |s|
  {
    var e := DigitsEnd(s, d);
    var f := UnsignedEnd(s, d);
    if f > e + 1 then f else e
  }

  /** What `\d+(\.\d+)?` matches at position `d` of `s`: its digits, and a fraction when a digit follows the point. */
  function MatchAt(s: string, d: nat): string
    requires d <= |s|
  {
    s[d..MatchEnd(s, d)]
  }

  /** `s.match(/(\d+(\.\d+)?)/)`: the leftmost match starts at the first digit. */
  function NumberMatch(s: string): (m: Option<string>)
    ensures m.None? <==> FirstDigit(s) == -1
  {
    var d := FirstDigit(s);
    if d == -1 then None else Some(MatchAt(s, d))
  }

  /** `numericMatch ? parseFloat(numericMatch[1]) : null`. */
  function NumericValue(s: string): (v: Option<real>)
    ensures v.None? <==> forall i :: 0 <= i < |s| ==> !IsDigit(s[i])
    ensures v.Some? ==> ParseFloat(NumberMatch(s).value) == Finite(v.value)
    ensures v.Some? ==> UnsignedAt(s, FirstDigit(s)) == Finite(v.value) && v.value >= 0.0
  {
    match NumberMatch(s)
    case None => None
    case Some(text) =>
      MatchAtValue(s, FirstDigit(s));
      ParseDigitStart(text);
      Some(ParseFloat(text).value)
  }

  /** `parseFloat` of a text that starts with a digit reads the unsigned number there. */
  lemma {:induction false} ParseDigitStart(t: string)
    requires |t| > 0 && IsDigit(t[0])
    ensures ParseFloat(t) == UnsignedAt(t, 0)
  {
    assert !IsSpace(t[0]) && t[0] != '-' && t[0] != '+';
    assert SkipSpace(t, 0) == 0;
  }

  /** The matched text reads as the number at position `d`, which is never negative. */
  lemma {:induction false} MatchAtValue(s: string, d: nat)
    requires d < |s| && IsDigit(s[d])
    ensures |MatchAt(s, d)| > 0 && IsDigit(MatchAt(s, d)[0])
    ensures UnsignedAt(MatchAt(s, d), 0) == UnsignedAt(s, d)
    ensures UnsignedAt(s, d).Finite? && UnsignedAt(s, d).value >= 0.0
  {
    var e := DigitsEnd(s, d);
    assert MatchAt(s, d)[0] == s[d];
    if UnsignedEnd(s, d) > e + 1 {
      MatchFraction(s, d);
    } else {
      MatchWhole(s, d);
    }
  }

  /** Without fraction digits the match is the digits, which read as the number there. */
  lemma {:induction false} MatchWhole(s: string, d: nat)
    requires d < |s| && IsDigit(s[d])
    requires UnsignedEnd(s, d) <= DigitsEnd(s, d) + 1
    ensures UnsignedAt(s[d..DigitsEnd(s, d)], 0) == UnsignedAt(s, d)
  {
    WholeCut(s, d);
  }

  /** With fraction digits the match runs to the end of the number, and reads as it. */
  lemma {:induction false} MatchFraction(s: string, d: nat)
    requires d < |s| && IsDigit(s[d])
    requires UnsignedEnd(s, d) > DigitsEnd(s, d) + 1
    ensures UnsignedAt(s[d..UnsignedEnd(s, d)], 0) == UnsignedAt(s, d)
  {
    FractionCut(s, d);
  }

  // ---- Combining ----

  /** What the loop body reads off one record. */
  datatype Parsed = Parsed(base: string, units: bool, message: string, value: Option<real>)

  function ParseRec(rec: Rec): (p: Parsed)
    ensures p.base == BaseName(rec.appliance) && p.message == rec.recommendation
    ensures p.units <==> Contains(rec.appliance, "(Units)")
    ensures p.value == NumericValue(rec.recommendation)
  {
    Parsed(BaseName(rec.appliance), Contains(rec.appliance, "(Units)"),
      rec.recommendation, NumericValue(rec.recommendation))
  }

  function ParseAll(items: seq<Rec>): (ps: seq<Parsed>)
    ensures |ps| == |items|
    ensures forall k :: 0 <= k < |items| ==> ps[k] == ParseRec(items[k])
  {
    seq(|items|, k requires 0 <= k < |items| => ParseRec(items[k]))
  }

  /** A card for a name seen for the first time. */
  function NewCard(base: string): Card {
    Card(base, "", "", None, None)
  }

  /**
   * Stores a record on its card: a `(Units)` record sets the unit message
   * and `avgUnits`, any other the usage message and `avgUsage`; the name
   * and the other two fields stay.
   */
  function Absorb(c: Card, p: Parsed): (r: Card)
    ensures r.appliance == c.appliance
    ensures p.units ==>
      r.unitMessage == p.message && r.avgUnits == p.value && r.usageMessage == c.usageMessage && r.avgUsage == c.avgUsage
    ensures !p.units ==>
      r.usageMessage == p.message && r.avgUsage == p.value && r.unitMessage == c.unitMessage && r.avgUnits == c.avgUnits
  {
    if p.units then c.(unitMessage := p.message, avgUnits := p.value)
    else c.(usageMessage := p.message, avgUsage := p.value)
  }

  /** `combined` after the `forEach` has visited records reading as `ps`. */
  function Combine(ps: seq<Parsed>, similar: (string, string) -> bool): seq<Card> {
    if |ps| == 0 then []
    else
      var n := |ps| - 1;
      var c := Combine(ps[..n], similar);
      var k := FindSimilar(c, ps[n].base, similar);
      if k == -1 then c + [Absorb(NewCard(ps[n].base), ps[n])]
      else c[k := Absorb(c[k], ps[n])]
  }

  /** The merge loop: finds the first similar card, or appends a new one, and stores the record on it. */
  method CombineRecords(items: seq<Rec>) returns (combined: seq<Card>)
    ensures combined == Combine(ParseAll(items), IsSimilarName)
  {
    ghost var ps := ParseAll(items);
    combined := [];
    var i := 0;
    while i < |items|
      invariant 0 <= i <= |items|
      invariant combined == Combine(ps[..i], IsSimilarName)
    {
      var p := ParseRec(items[i]);
      assert p == ps[i];
      var found := FindSimilar(combined, p.base, IsSimilarName);
      ghost var c := combined;
      if found == -1 {
        combined := combined + [NewCard(p.base)];
        found := |combined| - 1;
      }
      ghost var extended := combined;
      combined := combined[found := Absorb(combined[found], p)];
      CombineStep(ps, i, IsSimilarName, c, extended, found, combined);
      i := i + 1;
    }
    assert ps[..|items|] == ps;
  }

  /** One turn of the merge loop, in the loop's own shape, extends the merge by one record. */
  lemma {:induction false} CombineStep(ps: seq<Parsed>, i: nat, similar: (string, string) -> bool,
                                       c: seq<Card>, extended: seq<Card>, found: int, next: seq<Card>)
    requires i < |ps| && c == Combine(ps[..i], similar)
    requires FindSimilar(c, ps[i].base, similar) == -1 ==> extended == c + [NewCard(ps[i].base)] && found == |c|
    requires FindSimilar(c, ps[i].base, similar) != -1 ==> extended == c && found == FindSimilar(c, ps[i].base, similar)
    requires 0 <= found < |extended| && next == extended[found := Absorb(extended[found], ps[i])]
    ensures next == Combine(ps[..i + 1], similar)
  {
    CombineSnoc(ps, i, similar);
    if FindSimilar(c, ps[i].base, similar) == -1 {
      assert next == c + [Absorb(NewCard(ps[i].base), ps[i])];
    }
  }

  /** One more record: the cards before it, with that record merged in. */
  lemma {:induction false} CombineSnoc(ps: seq<Parsed>, i: nat, similar: (string, string) -> bool)
    requires i < |ps|
    ensures var c := Combine(ps[..i], similar);
      var k := FindSimilar(c, ps[i].base, similar);
      Combine(ps[..i + 1], similar) ==
        if k == -1 then c + [Absorb(NewCard(ps[i].base), ps[i])] else c[k := Absorb(c[k], ps[i])]
  {
    assert ps[..i + 1][..i] == ps[..i];
  }

  /** `c'` begins with cards named as the cards of `c`, in the same order. */
  ghost predicate NamesExtend(c: seq<Card>, c': seq<Card>) {
    |c| <= |c'| && forall k :: 0 <= k < |c| ==> c'[k].appliance == c[k].appliance
  }

  lemma {:induction false} NamesExtendTrans(a: seq<Card>, b: seq<Card>, c: seq<Card>)
    requires NamesExtend(a, b) && NamesExtend(b, c)
    ensures NamesExtend(a, c)
  {
  }

  /** A record only ever adds a card at the end: the earlier cards keep their names and order. */
  lemma {:induction false} CombineGrows(ps: seq<Parsed>, similar: (string, string) -> bool)
    requires |ps| > 0
    ensures NamesExtend(Combine(ps[..|ps| - 1], similar), Combine(ps, similar))
  {
  }

  /** Cards appear in first-appearance order: the cards of any prefix of the records begin the final list. */
  lemma {:induction false} CombinePrefix(ps: seq<Parsed>, i: nat, similar: (string, string) -> bool)
    requires i <= |ps|
    ensures |Combine(ps[..i], similar)| <= |Combine(ps, similar)|
    ensures forall k :: 0 <= k < |Combine(ps[..i], similar)| ==>
      Combine(ps, similar)[k].appliance == Combine(ps[..i], similar)[k].appliance
  {
    CombinePrefixExtends(ps, i, similar);
  }

  lemma {:induction false} CombinePrefixExtends(ps: seq<Parsed>, i: nat, similar: (string, string) -> bool)
    requires i <= |ps|
    ensures NamesExtend(Combine(ps[..i], similar), Combine(ps, similar))
  {
    if i < |ps| {
      var n := |ps| - 1;
      assert ps[..n][..i] == ps[..i];
      CombinePrefixExtends(ps[..n], i, similar);
      CombineGrows(ps, similar);
      NamesExtendTrans(Combine(ps[..i], similar), Combine(ps[..n], similar), Combine(ps, similar));
    } else {
      assert ps[..i] == ps;
    }
  }

  /** At most one card per record. */
  lemma {:induction false} CombineBound(ps: seq<Parsed>, similar: (string, string) -> bool)
    ensures |Combine(ps, similar)| <= |ps|
  {
    if |ps| > 0 {
      CombineBound(ps[..|ps| - 1], similar);
    }
  }

  /** No card's name passes the name test against a later card's name. */
  lemma {:induction false} CombineApart(ps: seq<Parsed>, similar: (string, string) -> bool)
    ensures forall i, j :: 0 <= i < j < |Combine(ps, similar)| ==>
      !similar(Combine(ps, similar)[i].appliance, Combine(ps, similar)[j].appliance)
  {
    if |ps| > 0 {
      var n := |ps| - 1;
      CombineApart(ps[..n], similar);
      CombineGrows(ps, similar);
      var c := Combine(ps[..n], similar);
      var c' := Combine(ps, similar);
      var k := FindSimilar(c, ps[n].base, similar);
      forall i, j | 0 <= i < j < |c'| ensures !similar(c'[i].appliance, c'[j].appliance) {
        if j >= |c| {
          assert k == -1 && c'[j].appliance == ps[n].base;
          assert c'[i].appliance == c[i].appliance;
        } else {
          assert c'[i].appliance == c[i].appliance && c'[j].appliance == c[j].appliance;
        }
      }
    }
  }

  /** Every card is named after the base name of some record. */
  lemma {:induction false} CombineNamesFrom(ps: seq<Parsed>, similar: (string, string) -> bool)
    ensures forall k :: 0 <= k < |Combine(ps, similar)| ==>
      exists j :: 0 <= j < |ps| && Combine(ps, similar)[k].appliance == ps[j].base
  {
    if |ps| > 0 {
      var n := |ps| - 1;
      var prev := ps[..n];
      CombineNamesFrom(prev, similar);
      CombineGrows(ps, similar);
      var c := Combine(prev, similar);
      var c' := Combine(ps, similar);
      forall q | 0 <= q < |c'| ensures exists j :: 0 <= j < |ps| && c'[q].appliance == ps[j].base {
        if q < |c| {
          var j :| 0 <= j < n && c[q].appliance == prev[j].base;
          assert prev[j] == ps[j];
          assert c'[q].appliance == ps[j].base;
        } else {
          assert c'[q].appliance == ps[n].base;
        }
      }
      assert c' == Combine(ps, similar);
    } else {
      assert Combine(ps, similar) == [];
    }
  }

  /** Some card's name passes the name test against `name`. */
  ghost predicate Covered(c: seq<Card>, name: string, similar: (string, string) -> bool) {
    exists k :: 0 <= k < |c| && similar(c[k].appliance, name)
  }

  /** With a reflexive name test (as `IsSimilarName` is), every record's base name passes it against some card. */
  lemma {:induction false} CombineCovers(ps: seq<Parsed>, similar: (string, string) -> bool)
    requires forall x :: similar(x, x)
    ensures forall j :: 0 <= j < |ps| ==> Covered(Combine(ps, similar), ps[j].base, similar)
  {
    if |ps| > 0 {
      var n := |ps| - 1;
      var prev := ps[..n];
      CombineCovers(prev, similar);
      CombineGrows(ps, similar);
      var c := Combine(prev, similar);
      var c' := Combine(ps, similar);
      var f := FindSimilar(c, ps[n].base, similar);
      forall j | 0 <= j < |ps| ensures Covered(c', ps[j].base, similar) {
        if j < n {
          assert prev[j] == ps[j];
          assert Covered(c, ps[j].base, similar);
          var q :| 0 <= q < |c| && similar(c[q].appliance, ps[j].base);
          assert c'[q].appliance == c[q].appliance;
        } else if f == -1 {
          assert c'[|c|].appliance == ps[n].base;
          assert similar(c'[|c|].appliance, ps[j].base);
        } else {
          assert c'[f].appliance == c[f].appliance;
        }
      }
    }
  }

  /** When no record is a `(Units)` record, no card gets a unit message or `avgUnits`. */
  lemma {:induction false} CombineNoUnits(ps: seq<Parsed>, similar: (string, string) -> bool)
    requires forall j :: 0 <= j < |ps| ==> !ps[j].units
    ensures forall k :: 0 <= k < |Combine(ps, similar)| ==>
      Combine(ps, similar)[k].avgUnits.None? && Combine(ps, similar)[k].unitMessage == ""
  {
    if |ps| > 0 {
      var n := |ps| - 1;
      CombineNoUnits(ps[..n], similar);
      assert !ps[n].units;
    }
  }

  /** The page's name test is reflexive, so every record finds its card. */
  lemma {:induction false} SimilarReflexive()
    ensures forall x :: IsSimilarName(x, x)
  {
  }

  /**
   * The usage record and the `(Units)` record of one appliance land on one
   * card named after the appliance, each filling its own half.
   */
  lemma {:induction false} UsageAndUnitsMerge(name: string, usage: string, units: string)
    requires NoParen(name) && Trimmed(name)
    ensures Combine(ParseAll([Rec(name, usage), Rec(name + " (Units)", units)]), IsSimilarName) ==
      [Card(name, usage, units, NumericValue(usage), NumericValue(units))]
  {
    var a := Rec(name, usage);
    var b := Rec(name + " (Units)", units);
    BaseNameUnits(name);
    NoUnitsInPlain(name);
    UnitsSuffixRemoved(name);
    ParseAllTwo(a, b);
    assert ParseRec(a) == Parsed(name, false, usage, NumericValue(usage));
    assert ParseRec(b) == Parsed(name, true, units, NumericValue(units));
    SimilarNames(name, name);
    MergeTwo(ParseRec(a), ParseRec(b), IsSimilarName);
  }

  lemma {:induction false} ParseAllTwo(a: Rec, b: Rec)
    ensures ParseAll([a, b]) == [ParseRec(a), ParseRec(b)]
  {
    var ps := ParseAll([a, b]);
    assert [a, b][0] == a && [a, b][1] == b;
    PairEq(ps, ParseRec(a), ParseRec(b));
  }

  lemma {:induction false} PairEq(ps: seq<Parsed>, x: Parsed, y: Parsed)
    requires |ps| == 2 && ps[0] == x && ps[1] == y
    ensures ps == [x, y]
  {
  }

  /** A usage record and then a units record with the same base name fill one card. */
  lemma {:induction false} MergeTwo(p: Parsed, q: Parsed, similar: (string, string) -> bool)
    requires !p.units && q.units && p.base == q.base && similar(p.base, p.base)
    ensures Combine([p, q], similar) == [Card(p.base, p.message, q.message, p.value, q.value)]
  {
    var ps := [p, q];
    CombineSnoc(ps, 0, similar);
    CombineSnoc(ps, 1, similar);
    assert ps[..0] == [];
    assert ps[..2] == ps;
  }

  // ---- Insights ----

  /** How intensely a card's appliance is used. */
  datatype Intensity = High | Efficient | Moderate

  /** `x && x > t`: a JavaScript number is falsy when it is null or 0. */
  predicate TruthyAbove(x: Option<real>, t: real) {
    x.Some? && x.value != 0.0 && x.value > t
  }

  /** The usage rule: above 8 is high, a non-zero value below 2 is efficient, anything else moderate. */
  function IntensityOf(avgUsage: Option<real>): (r: Intensity)
    ensures r == High <==> avgUsage.Some? && avgUsage.value > 8.0
    ensures r == Efficient <==> avgUsage.Some? && avgUsage.value != 0.0 && avgUsage.value < 2.0
    ensures avgUsage.None? || avgUsage.value == 0.0 ==> r == Moderate
  {
    if TruthyAbove(avgUsage, 8.0) then High
    else if avgUsage.Some? && avgUsage.value != 0.0 && avgUsage.value < 2.0 then Efficient
    else Moderate
  }

  /** The idle suffix: added exactly when `avgUnits` is above 5. */
  function IdleHint(avgUnits: Option<real>): (r: bool)
    ensures r <==> avgUnits.Some? && avgUnits.value > 5.0
  {
    TruthyAbove(avgUnits, 5.0)
  }

  /** A card with its insight. */
  datatype Insight = Insight(card: Card, intensity: Intensity, idle: bool)

  function Insights(cards: seq<Card>): (r: seq<Insight>)
    ensures |r| == |cards|
    ensures forall k :: 0 <= k < |cards| ==>
      r[k] == Insight(cards[k], IntensityOf(cards[k].avgUsage), IdleHint(cards[k].avgUnits))
  {
    seq(|cards|, k requires 0 <= k < |cards| =>
      Insight(cards[k], IntensityOf(cards[k].avgUsage), IdleHint(cards[k].avgUnits)))
  }

  // ---- The effect ----

  /** The `/recommendations` response: an `error` field, and the records when it has them. */
  datatype Response = Response(error: Option<string>, recommendations: Option<seq<Rec>>)

  /** The status line and the cards once the response has been handled. */
  datatype Page = Page(message: string, insights: seq<Insight>)

  /**
   * A response with a non-empty `error` shows the error and no cards; one
   * without a record list makes `forEach` throw, which the `catch` reports.
   */
  method Receive(resp: Response) returns (p: Page)
    ensures Truthy(resp.error) ==> p == Page("⚠️ " + resp.error.value, [])
    ensures !Truthy(resp.error) && resp.recommendations.None? ==> p == Page("❌ Failed to fetch recommendations.", [])
    ensures !Truthy(resp.error) && resp.recommendations.Some? ==>
      p == Page("✅ Detailed energy insights generated!", Insights(Combine(ParseAll(resp.recommendations.value), IsSimilarName)))
  {
    if Truthy(resp.error) {
      return Page("⚠️ " + resp.error.value, []);
    }
    if resp.recommendations.None? {
      return Page("❌ Failed to fetch recommendations.", []);
    }
    var combined := CombineRecords(resp.recommendations.value);
    return Page("✅ Detailed energy insights generated!", Insights(combined));
  }
}
