/**
 * The string operations the dashboard calls, with the semantics of the
 * JavaScript built-ins it uses (`trim`, `split`, `indexOf`, `includes`,
 * `replace`, `toLowerCase`, `padStart`). Strings are sequences of characters.
 */
module JsText {

  /** A JavaScript line terminator (what `.` in a regular expression does not match). */
  predicate IsLineTerminator(c: char) {
    c == '\n' || c == '\r' || c == '\U{2028}' || c == '\U{2029}'
  }

  /** The characters `trim` removes and `\s` matches: white space and line terminators. */
  predicate IsSpace(c: char) {
    || c == '\t' || c == '\U{000B}' || c == '\U{000C}' || c == ' ' || c == '\U{00A0}'
    || c == '\U{1680}' || ('\U{2000}' <= c <= '\U{200A}') || c == '\U{202F}'
    || c == '\U{205F}' || c == '\U{3000}' || c == '\U{FEFF}'
    || IsLineTerminator(c)
  }

  predicate AllSpace(s: string) {
    forall i :: 0 <= i < |s| ==> IsSpace(s[i])
  }

  /** `s` has no white space at either end. */
  predicate Trimmed(s: string) {
    s == [] || (!IsSpace(s[0]) && !IsSpace(s[|s| - 1]))
  }

  /** The position of the first character at or after `i` that is not white space, or `|s|`. */
  function SkipSpace(s: string, i: nat): (k: nat)
    requires i <= |s|
    ensures i <= k <= |s|
    ensures forall j :: i <= j < k ==> IsSpace(s[j])
    ensures k < |s| ==> !IsSpace(s[k])
    decreases |s| - i
  {
    if i < |s| && IsSpace(s[i]) then SkipSpace(s, i + 1) else i
  }

  /** The position after the last character before `j` that is not white space, or 0. */
  function SpaceStart(s: string, j: nat): (k: nat)
    requires j <= |s|
    ensures k <= j
    ensures forall i :: k <= i < j ==> IsSpace(s[i])
    ensures k > 0 ==> !IsSpace(s[k - 1])
  {
    if j > 0 && IsSpace(s[j - 1]) then SpaceStart(s, j - 1) else j
  }

  /** `trimStart`: the longest suffix of `s` that does not begin with white space. */
  function TrimStart(s: string): (r: string)
    ensures |r| <= |s|
    ensures forall i :: 0 <= i < |s| - |r| ==> IsSpace(s[i])
    ensures r == [] || !IsSpace(r[0])
  {
    s[SkipSpace(s, 0)..]
  }

  /** `trimEnd`: the longest prefix of `s` that does not end with white space. */
  function TrimEnd(s: string): (r: string)
    ensures |r| <= |s|
    ensures forall i :: |r| <= i < |s| ==> IsSpace(s[i])
    ensures r == [] || !IsSpace(r[|r| - 1])
  {
    s[..SpaceStart(s, |s|)]
  }

  /** `trim`: removes white space at both ends. */
  function Trim(s: string): (r: string)
    ensures Trimmed(r)
    ensures r == [] <==> AllSpace(s)
    ensures Trimmed(s) ==> r == s
    ensures |r| <= |s|
  {
    var t := TrimStart(s);
    var r := TrimEnd(t);
    assert r != [] ==> !IsSpace(r[0]) by {
      if r != [] { assert r[0] == t[0]; }
    }
    assert t != [] ==> t[0] == s[|s| - |t|];
    assert Trimmed(s) ==> r == s by {
      if Trimmed(s) {
        TrimStartKeeps(s);
        TrimEndKeeps(s);
      }
    }
    r
  }

  lemma {:induction false} TrimStartKeeps(s: string)
    requires s == [] || !IsSpace(s[0])
    ensures TrimStart(s) == s
  {
  }

  lemma {:induction false} TrimEndKeeps(s: string)
    requires s == [] || !IsSpace(s[|s| - 1])
    ensures TrimEnd(s) == s
  {
  }

  /** `s` begins with `p`. */
  predicate StartsWith(s: string, p: string) {
    |p| <= |s| && s[..|p|] == p
  }

  /** `sub` occurs in `s` starting at position `i`. */
  predicate OccursAt(s: string, sub: string, i: int) {
    0 <= i && i + |sub| <= |s| && s[i..i + |sub|] == sub
  }

  /** `s.includes(sub)` (JavaScript), `sub in s` (Python). */
  function Contains(s: string, sub: string): (r: bool)
    ensures r <==> exists i :: OccursAt(s, sub, i)
  {
    if StartsWith(s, sub) then
      assert OccursAt(s, sub, 0);
      true
    else if |s| == 0 then
      false
    else
      var r := Contains(s[1..], sub);
      assert r ==> exists i :: OccursAt(s, sub, i) by {
        if r {
          var i :| OccursAt(s[1..], sub, i);
          assert s[i + 1..i + 1 + |sub|] == s[1..][i..i + |sub|];
          assert OccursAt(s, sub, i + 1);
        }
      }
      assert (exists i :: OccursAt(s, sub, i)) ==> r by {
        if exists i :: OccursAt(s, sub, i) {
          var i :| OccursAt(s, sub, i);
          assert i != 0;
          assert s[1..][i - 1..i - 1 + |sub|] == s[i..i + |sub|];
          assert OccursAt(s[1..], sub, i - 1);
        }
      }
      r
  }

  /** `xs.indexOf(x)`: the first position of `x`, or -1 when it does not occur. */
  function IndexOf<T(==)>(xs: seq<T>, x: T): (r: int)
    ensures -1 <= r < |xs|
    ensures r == -1 <==> x !in xs
    ensures 0 <= r ==> xs[r] == x && x !in xs[..r]
  {
    if |xs| == 0 then -1
    else if xs[0] == x then 0
    else
      var k := IndexOf(xs[1..], x);
      if k == -1 then -1
      else
        assert xs[..k + 1] == [xs[0]] + xs[1..][..k];
        k + 1
  }

  /** `s.split(d)` for a one-character separator: the pieces between the separators. */
  function SplitOn(s: string, d: char): (parts: seq<string>)
    ensures |parts| >= 1
    ensures forall p | p in parts :: d !in p
  {
    if |s| == 0 then [""]
    else
      var rest := SplitOn(s[1..], d);
      if s[0] == d then [""] + rest else [[s[0]] + rest[0]] + rest[1..]
  }

  /** `parts.join(d)`: the partner of `SplitOn`. */
  function Join(parts: seq<string>, d: char): string
    requires |parts| >= 1
  {
    if |parts| == 1 then parts[0] else parts[0] + [d] + Join(parts[1..], d)
  }

  /** Splitting and joining again gives back the original text. */
  lemma {:induction false} JoinSplitOn(s: string, d: char)
    ensures Join(SplitOn(s, d), d) == s
  {
    if |s| > 0 {
      JoinSplitOn(s[1..], d);
      var rest := SplitOn(s[1..], d);
      if s[0] != d && |rest| > 1 {
        assert Join(rest, d) == rest[0] + [d] + Join(rest[1..], d);
      }
    }
  }

  lemma {:induction false} SplitOnFree(p: string, d: char)
    requires d !in p
    ensures SplitOn(p, d) == [p]
  {
    if |p| > 0 {
      SplitOnFree(p[1..], d);
      assert [p[0]] + p[1..] == p;
    }
  }

  lemma {:induction false} SplitOnPrefix(p: string, d: char, t: string)
    requires d !in p
    ensures SplitOn(p + [d] + t, d) == [p] + SplitOn(t, d)
  {
    if |p| > 0 {
      assert (p + [d] + t)[1..] == p[1..] + [d] + t;
      SplitOnPrefix(p[1..], d, t);
      assert [p[0]] + p[1..] == p;
    } else {
      assert (p + [d] + t)[1..] == t;
    }
  }

  /** Joining pieces free of the separator and splitting again gives back the pieces. */
  lemma {:induction false} SplitOnJoin(parts: seq<string>, d: char)
    requires |parts| >= 1
    requires forall i :: 0 <= i < |parts| ==> d !in parts[i]
    ensures SplitOn(Join(parts, d), d) == parts
  {
    if |parts| == 1 {
      SplitOnFree(parts[0], d);
    } else {
      SplitOnJoin(parts[1..], d);
      SplitOnPrefix(parts[0], d, Join(parts[1..], d));
    }
  }

  /** `s.split(d)[0]`: the text before the first separator, or all of `s` when there is none. */
  lemma {:induction false} SplitOnHead(s: string, d: char)
    ensures SplitOn(s, d)[0] == if d in s then s[..IndexOf(s, d)] else s
  {
    if |s| > 0 {
      SplitOnHead(s[1..], d);
      if s[0] != d {
        assert d in s <==> d in s[1..];
        if d in s {
          assert s[..IndexOf(s, d)] == [s[0]] + s[1..][..IndexOf(s[1..], d)];
        } else {
          assert s == [s[0]] + s[1..];
        }
      }
    }
  }

  /** `s.split(/\s+/)`: the pieces between maximal runs of white space. */
  function SplitOnSpaceRuns(s: string): (parts: seq<string>)
    ensures |parts| >= 1
    ensures forall p | p in parts :: forall i :: 0 <= i < |p| ==> !IsSpace(p[i])
  {
    if |s| == 0 then [""]
    else
      var rest := SplitOnSpaceRuns(s[1..]);
      if IsSpace(s[0]) then
        if |s| > 1 && IsSpace(s[1]) then rest else [""] + rest
      else
        [[s[0]] + rest[0]] + rest[1..]
  }

  lemma {:induction false} SplitOnSpaceRunsWord(w: string)
    requires forall i :: 0 <= i < |w| ==> !IsSpace(w[i])
    ensures SplitOnSpaceRuns(w) == [w]
  {
    if |w| > 0 {
      SplitOnSpaceRunsWord(w[1..]);
      assert [w[0]] + w[1..] == w;
    }
  }

  lemma {:induction false} SplitOnSpaceRunsPrefix(w: string, t: string)
    requires forall i :: 0 <= i < |w| ==> !IsSpace(w[i])
    requires t != [] && !IsSpace(t[0])
    ensures SplitOnSpaceRuns(w + [' '] + t) == [w] + SplitOnSpaceRuns(t)
  {
    if |w| > 0 {
      assert (w + [' '] + t)[1..] == w[1..] + [' '] + t;
      SplitOnSpaceRunsPrefix(w[1..], t);
      assert [w[0]] + w[1..] == w;
    } else {
      assert ([' '] + t)[1..] == t;
    }
  }

  /** Non-empty words without white space, joined by single spaces, split back into those words. */
  lemma {:induction false} SplitOnSpaceRunsJoin(words: seq<string>)
    requires |words| >= 1
    requires forall k :: 0 <= k < |words| ==> words[k] != []
    requires forall k, i :: 0 <= k < |words| && 0 <= i < |words[k]| ==> !IsSpace(words[k][i])
    ensures SplitOnSpaceRuns(Join(words, ' ')) == words
  {
    if |words| == 1 {
      SplitOnSpaceRunsWord(words[0]);
    } else {
      SplitOnSpaceRunsJoin(words[1..]);
      JoinStartsWith(words[1..], ' ');
      SplitOnSpaceRunsPrefix(words[0], Join(words[1..], ' '));
    }
  }

  /** A join of pieces whose first piece is non-empty begins with that piece's first character. */
  lemma {:induction false} JoinStartsWith(parts: seq<string>, d: char)
    requires |parts| >= 1 && parts[0] != []
    ensures Join(parts, d) != [] && Join(parts, d)[0] == parts[0][0]
  {
  }

  /** `s.replace(/c/g, "")`: every occurrence of `c` removed, the rest kept in order. */
  function RemoveChar(s: string, c: char): (r: string)
    ensures c !in r
    ensures c !in s ==> r == s
    ensures |r| <= |s|
  {
    if |s| == 0 then s
    else if s[0] == c then RemoveChar(s[1..], c)
    else [s[0]] + RemoveChar(s[1..], c)
  }

  /** `s.replace(pat, "")` with a non-global pattern: the first occurrence of `pat` removed. */
  function RemoveFirst(s: string, pat: string): (r: string)
    requires |pat| > 0
    ensures !Contains(s, pat) ==> r == s
    ensures Contains(s, pat) ==> |r| == |s| - |pat|
  {
    if StartsWith(s, pat) then
      assert OccursAt(s, pat, 0);
      s[|pat|..]
    else if |s| == 0 then s
    else
      var r := [s[0]] + RemoveFirst(s[1..], pat);
      assert Contains(s, pat) <==> Contains(s[1..], pat);
      r
  }

  /** Lower-casing of one character (ASCII letters only). */
  function LowerChar(c: char): char {
    if 'A' <= c <= 'Z' then (c as int - 'A' as int + 'a' as int) as char else c
  }

  /** `s.toLowerCase()` (JavaScript), `s.lower()` (Python), for ASCII letters. */
  function ToLower(s: string): (r: string)
    ensures |r| == |s|
    ensures forall i :: 0 <= i < |s| ==> r[i] == LowerChar(s[i])
  {
    if |s| == 0 then [] else [LowerChar(s[0])] + ToLower(s[1..])
  }

  predicate IsDigit(c: char) {
    '0' <= c <= '9'
  }

  function DigitChar(d: nat): char
    requires d < 10
  {
    ('0' as int + d) as char
  }

  /** The decimal notation of `n` without leading zeros. */
  function NatToString(n: nat): (s: string)
    ensures |s| >= 1
    ensures forall i :: 0 <= i < |s| ==> IsDigit(s[i])
  {
    if n < 10 then [DigitChar(n)] else NatToString(n / 10) + [DigitChar(n % 10)]
  }

  /** `String(n)` for an integer. */
  function IntToString(n: int): string {
    if n < 0 then "-" + NatToString(-n) else NatToString(n)
  }

  /** `s.padStart(2, "0")`. */
  function PadStart2(s: string): (r: string)
    ensures |r| == if |s| < 2 then 2 else |s|
    ensures forall i :: 0 <= i < |s| ==> r[|r| - |s| + i] == s[i]
    ensures forall i :: 0 <= i < |r| - |s| ==> r[i] == '0'
  {
    if |s| == 0 then "00" else if |s| == 1 then "0" + s else s
  }
}
