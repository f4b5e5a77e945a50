/**
 * The text-to-grid parser and the month-key extractor of the plain-script
 * pages (energyagentfrontend/src/pages/script.js).
 */
module ScriptParse {
  import opened Common
  import opened JsText

  const BOM: char := '\U{FEFF}'

  /** The delimiter chosen from the first non-blank line. */
  datatype Delimiter = Tab | Comma | Semicolon | SpaceRuns

  /** `cell.replace(/^﻿/, "")`: drops one leading byte-order mark. */
  function StripBom(c: string): string {
    if |c| > 0 && c[0] == BOM then c[1..] else c
  }

  predicate NoLineTerminator(s: string) {
    forall i :: 0 <= i < |s| ==> !IsLineTerminator(s[i])
  }

  /**
   * `cell.replace(/^"(.*)"$/, "$1")`: drops one pair of enclosing double quotes;
   * `.` does not match a line terminator, so a cell holding one keeps its quotes.
   */
  function StripQuotes(c: string): string {
    if |c| >= 2 && c[0] == '"' && c[|c| - 1] == '"' && NoLineTerminator(c[1..|c| - 1])
    then c[1..|c| - 1]
    else c
  }

  /** `c` is enclosed in double quotes that `/^"(.*)"$/` matches. */
  predicate Quoted(c: string) {
    |c| >= 2 && c[0] == '"' && c[|c| - 1] == '"' && NoLineTerminator(c[1..|c| - 1])
  }

  /** `c` starts with a byte-order mark. */
  predicate HasBom(c: string) {
    |c| > 0 && c[0] == BOM
  }

  /** One cell cleaned: byte-order mark, then enclosing quotes, then surrounding white space. */
  function CleanCell(c: string): (r: string)
    ensures Trimmed(r)
    ensures Trimmed(c) && '"' !in c ==> r == c
    ensures Quoted(c) ==> r == Trim(c[1..|c| - 1])
    ensures HasBom(c) && Quoted(c[1..]) ==> r == Trim(c[2..|c| - 1])
    ensures HasBom(c) && !Quoted(c[1..]) ==> r == Trim(c[1..])
    ensures !HasBom(c) && !Quoted(c) ==> r == Trim(c)
  {
    StrippedCases(c);
    Trim(StripQuotes(StripBom(c)))
  }

  /** What the two `replace` calls leave of a cell, case by case. */
  lemma {:induction false} StrippedCases(c: string)
    ensures Quoted(c) ==> StripQuotes(StripBom(c)) == c[1..|c| - 1]
    ensures HasBom(c) && Quoted(c[1..]) ==> StripQuotes(StripBom(c)) == c[2..|c| - 1]
    ensures HasBom(c) && !Quoted(c[1..]) ==> StripQuotes(StripBom(c)) == c[1..]
    ensures !HasBom(c) && !Quoted(c) ==> StripQuotes(StripBom(c)) == c
  {
    if HasBom(c) && Quoted(c[1..]) {
      assert c[1..][1..|c| - 2] == c[2..|c| - 1];
    }
  }

  /** A quoted cell behind a byte-order mark loses both, and the white space inside the quotes. */
  lemma {:induction false} CleanCellBomQuoted()
    ensures CleanCell("\U{FEFF}\" 42 \"") == "42"
  {
    var c := "\U{FEFF}\" 42 \"";
    assert HasBom(c) && Quoted(c[1..]);
    assert c[2..|c| - 1] == " 42 ";
    TrimOfPadded();
  }

  lemma {:induction false} TrimOfPadded()
    ensures Trim(" 42 ") == "42"
  {
    assert TrimStart(" 42 ") == "42 " by {
      assert TrimStart("42 ") == "42 ";
    }
    assert TrimEnd("42 ") == "42" by {
      assert "42 "[..2] == "42";
      assert TrimEnd("42") == "42";
    }
  }

  function CleanRow(cells: seq<string>): (r: seq<string>)
    ensures |r| == |cells|
    ensures forall j :: 0 <= j < |r| ==> r[j] == CleanCell(cells[j])
  {
    seq(|cells|, j requires 0 <= j < |cells| => CleanCell(cells[j]))
  }

  /** The `\r?` of `/\r?\n/`: one carriage return before a line feed belongs to the separator. */
  function DropCR(l: string): string {
    if |l| > 0 && l[|l| - 1] == '\r' then l[..|l| - 1] else l
  }

  /** `s.split(/\r?\n/)`. */
  function SplitLines(s: string): (lines: seq<string>)
    ensures |lines| >= 1
  {
    var parts := SplitOn(s, '\n');
    seq(|parts|, i requires 0 <= i < |parts| => if i < |parts| - 1 then DropCR(parts[i]) else parts[i])
  }

  /** `lines.filter(l => l.trim().length > 0)`. */
  function NonBlank(lines: seq<string>): (r: seq<string>)
    ensures |r| <= |lines|
    ensures forall l :: l in r <==> l in lines && Trim(l) != []
  {
    if |lines| == 0 then []
    else if Trim(lines[0]) == [] then NonBlank(lines[1..])
    else [lines[0]] + NonBlank(lines[1..])
  }

  /** The filter keeps order: filtering joined lines joins the filtered parts. */
  lemma {:induction false} NonBlankAppend(a: seq<string>, b: seq<string>)
    ensures NonBlank(a + b) == NonBlank(a) + NonBlank(b)
    decreases |a|
  {
    if |a| == 0 {
      assert a + b == b;
    } else {
      assert (a + b)[0] == a[0];
      assert (a + b)[1..] == a[1..] + b;
      NonBlankAppend(a[1..], b);
      if Trim(a[0]) != [] {
        assert [a[0]] + (NonBlank(a[1..]) + NonBlank(b)) == ([a[0]] + NonBlank(a[1..])) + NonBlank(b);
      }
    }
  }

  /** A single line is kept exactly when it is not blank. */
  lemma {:induction false} NonBlankOne(l: string)
    ensures NonBlank([l]) == if Trim(l) == [] then [] else [l]
  {
    assert [l][1..] == [];
  }

  /** `content.trim().split(/\r?\n/).filter(...)`: the non-blank lines, in order. */
  function ContentLines(content: string): seq<string> {
    NonBlank(SplitLines(Trim(content)))
  }

  /** Tab, then comma, then semicolon, else runs of white space. */
  function DetectDelimiter(first: string): Delimiter {
    if '\t' in first then Tab
    else if ',' in first then Comma
    else if ';' in first then Semicolon
    else SpaceRuns
  }

  function SplitRow(line: string, d: Delimiter): (cells: seq<string>)
    ensures |cells| >= 1
  {
    match d
    case Tab => SplitOn(line, '\t')
    case Comma => SplitOn(line, ',')
    case Semicolon => SplitOn(line, ';')
    case SpaceRuns => SplitOnSpaceRuns(line)
  }

  /**
   * `parseTextToRows(content)`: one row per non-blank line, in order, every
   * line split on the delimiter detected from the first one, every cell cleaned.
   */
  function ParseTextToRows(content: string): (rows: Grid)
    ensures rows == [] <==> AllSpace(content)
    ensures |rows| == |ContentLines(content)|
    ensures forall i :: 0 <= i < |rows| ==> |rows[i]| >= 1
    ensures forall i, j :: 0 <= i < |rows| && 0 <= j < |rows[i]| ==> Trimmed(rows[i][j])
    ensures !AllSpace(content) ==>
      var lines := ContentLines(content);
      |lines| >= 1 && rows == SplitLinesWith(lines, DetectDelimiter(lines[0]))
  {
    if content == "" then []
    else
      var lines := ContentLines(content);
      ContentLinesNonEmpty(content);
      if |lines| == 0 then [] else SplitLinesWith(lines, DetectDelimiter(lines[0]))
  }

  /** `lines.map(line => line.split(delim).map(clean))`. */
  function SplitLinesWith(lines: seq<string>, d: Delimiter): (rows: Grid)
    ensures |rows| == |lines|
    ensures forall i :: 0 <= i < |rows| ==> rows[i] == CleanRow(SplitRow(lines[i], d))
    ensures forall i :: 0 <= i < |rows| ==> |rows[i]| >= 1
    ensures forall i, j :: 0 <= i < |rows| && 0 <= j < |rows[i]| ==> Trimmed(rows[i][j])
  {
    seq(|lines|, i requires 0 <= i < |lines| => CleanRow(SplitRow(lines[i], d)))
  }

  lemma {:induction false} SplitOnFirstChar(s: string, d: char)
    requires s != [] && s[0] != d
    ensures SplitOn(s, d)[0] != [] && SplitOn(s, d)[0][0] == s[0]
  {
  }

  /** Text has a non-blank line exactly when it is not all white space. */
  lemma {:induction false} ContentLinesNonEmpty(content: string)
    ensures |ContentLines(content)| >= 1 <==> !AllSpace(content)
  {
    if AllSpace(content) {
      assert Trim(content) == [];
      assert SplitOn([], '\n') == [""];
      assert SplitLines([]) == [""];
    } else {
      var t := Trim(content);
      SplitOnFirstChar(t, '\n');
      var parts := SplitOn(t, '\n');
      var line := SplitLines(t)[0];
      assert line != [] && line[0] == t[0];
      assert Trim(line) != [];
      assert line in NonBlank(SplitLines(t));
    }
  }

  // ---- The partner of the parser: rendering a grid with a delimiter ----

  function DelimChar(d: Delimiter): char {
    match d
    case Tab => '\t'
    case Comma => ','
    case Semicolon => ';'
    case SpaceRuns => ' '
  }

  /** The text of a grid: cells joined by the delimiter, rows joined by line feeds. */
  function Render(g: Grid, d: Delimiter): string
    requires |g| >= 1 && forall i :: 0 <= i < |g| ==> |g[i]| >= 1
  {
    Join(RenderLines(g, d), '\n')
  }

  function RenderLines(g: Grid, d: Delimiter): (lines: seq<string>)
    requires forall i :: 0 <= i < |g| ==> |g[i]| >= 1
    ensures |lines| == |g|
  {
    seq(|g|, i requires 0 <= i < |g| => Join(g[i], DelimChar(d)))
  }

  /**
   * A cell that survives a render-and-parse trip: non-empty, no white space at
   * its ends, no quote, no delimiter character, no line break, and no white
   * space at all when the delimiter is white space.
   */
  predicate PlainCell(c: string, d: Delimiter) {
    && c != [] && Trimmed(c) && NoLineTerminator(c)
    && '"' !in c && '\t' !in c && ',' !in c && ';' !in c
    && (d == SpaceRuns ==> forall i :: 0 <= i < |c| ==> !IsSpace(c[i]))
  }

  /** A grid with a header of at least two columns and only plain cells. */
  predicate PlainGrid(g: Grid, d: Delimiter) {
    && |g| >= 1 && |g[0]| >= 2
    && (forall i :: 0 <= i < |g| ==> |g[i]| >= 1)
    && (forall i, j :: 0 <= i < |g| && 0 <= j < |g[i]| ==> PlainCell(g[i][j], d))
  }

  lemma {:induction false} JoinNotIn(parts: seq<string>, sep: char, c: char)
    requires |parts| >= 1 && c != sep
    requires forall i :: 0 <= i < |parts| ==> c !in parts[i]
    ensures c !in Join(parts, sep)
  {
    if |parts| > 1 { JoinNotIn(parts[1..], sep, c); }
  }

  lemma {:induction false} JoinHasSep(parts: seq<string>, sep: char)
    requires |parts| >= 2
    ensures sep in Join(parts, sep)
  {
    assert Join(parts, sep)[|parts[0]|] == sep;
  }

  lemma {:induction false} JoinLast(parts: seq<string>, sep: char)
    requires |parts| >= 1 && parts[|parts| - 1] != []
    ensures Join(parts, sep) != []
    ensures Join(parts, sep)[|Join(parts, sep)| - 1] == parts[|parts| - 1][|parts[|parts| - 1]| - 1]
  {
    if |parts| > 1 { JoinLast(parts[1..], sep); }
  }

  /** A rendered line: non-empty, plain at both ends, free of line breaks. */
  lemma {:induction false} RenderedLine(row: seq<string>, d: Delimiter)
    requires |row| >= 1 && forall j :: 0 <= j < |row| ==> PlainCell(row[j], d)
    ensures var line := Join(row, DelimChar(d));
      line != [] && Trimmed(line) && '\n' !in line && '\r' !in line
  {
    var line := Join(row, DelimChar(d));
    JoinStartsWith(row, DelimChar(d));
    JoinLast(row, DelimChar(d));
    JoinNotIn(row, DelimChar(d), '\n');
    JoinNotIn(row, DelimChar(d), '\r');
  }

  lemma {:induction false} DetectRendered(row: seq<string>, d: Delimiter)
    requires |row| >= 2 && forall j :: 0 <= j < |row| ==> PlainCell(row[j], d)
    ensures DetectDelimiter(Join(row, DelimChar(d))) == d
  {
    var sep := DelimChar(d);
    JoinHasSep(row, sep);
    if d != Tab { JoinNotIn(row, sep, '\t'); }
    if d != Tab && d != Comma { JoinNotIn(row, sep, ','); }
    if d == SpaceRuns { JoinNotIn(row, sep, ';'); }
  }

  lemma {:induction false} SplitRendered(row: seq<string>, d: Delimiter)
    requires |row| >= 1 && forall j :: 0 <= j < |row| ==> PlainCell(row[j], d)
    ensures SplitRow(Join(row, DelimChar(d)), d) == row
  {
    match d
    case Tab => SplitOnJoin(row, '\t');
    case Comma => SplitOnJoin(row, ',');
    case Semicolon => SplitOnJoin(row, ';');
    case SpaceRuns => SplitOnSpaceRunsJoin(row);
  }

  lemma {:induction false} CleanPlainRow(row: seq<string>, d: Delimiter)
    requires forall j :: 0 <= j < |row| ==> PlainCell(row[j], d)
    ensures CleanRow(row) == row
  {
  }

  lemma {:induction false} NonBlankAll(lines: seq<string>)
    requires forall i :: 0 <= i < |lines| ==> Trim(lines[i]) != []
    ensures NonBlank(lines) == lines
  {
    if |lines| > 0 { NonBlankAll(lines[1..]); }
  }

  /** Lines without line breaks are split back apart by the line splitter. */
  lemma {:induction false} SplitLinesJoin(lines: seq<string>)
    requires |lines| >= 1
    requires forall i :: 0 <= i < |lines| ==> '\n' !in lines[i] && '\r' !in lines[i]
    ensures SplitLines(Join(lines, '\n')) == lines
  {
    SplitOnJoin(lines, '\n');
    var parts := SplitOn(Join(lines, '\n'), '\n');
    assert parts == lines;
    forall i | 0 <= i < |lines| ensures DropCR(lines[i]) == lines[i] {
      if |lines[i]| > 0 {
        assert lines[i][|lines[i]| - 1] in lines[i];
      }
    }
  }

  /** Joining lines that are plain at the outer ends gives trimmed text. */
  lemma {:induction false} JoinTrimmed(lines: seq<string>, sep: char)
    requires |lines| >= 1 && lines[0] != [] && lines[|lines| - 1] != []
    requires Trimmed(lines[0]) && Trimmed(lines[|lines| - 1])
    ensures Trimmed(Join(lines, sep))
  {
    JoinStartsWith(lines, sep);
    JoinLast(lines, sep);
  }

  /** The lines of a rendered plain grid are exactly the rendered rows. */
  lemma {:induction false} RenderedContentLines(g: Grid, d: Delimiter)
    requires PlainGrid(g, d)
    ensures ContentLines(Render(g, d)) == RenderLines(g, d)
  {
    var lines := RenderLines(g, d);
    forall i | 0 <= i < |g|
      ensures lines[i] != [] && Trimmed(lines[i]) && '\n' !in lines[i] && '\r' !in lines[i]
    {
      RenderedLine(g[i], d);
    }
    ContentLinesJoin(lines);
  }

  /** Non-blank, trimmed lines without line breaks, joined by line feeds, are read back as they were. */
  lemma {:induction false} ContentLinesJoin(lines: seq<string>)
    requires |lines| >= 1
    requires forall i :: 0 <= i < |lines| ==>
      lines[i] != [] && Trimmed(lines[i]) && '\n' !in lines[i] && '\r' !in lines[i]
    ensures ContentLines(Join(lines, '\n')) == lines
  {
    var content := Join(lines, '\n');
    JoinTrimmed(lines, '\n');
    SplitLinesJoin(lines);
    forall i | 0 <= i < |lines| ensures Trim(lines[i]) != [] {
      TrimTrimmed(lines[i]);
    }
    NonBlankAll(lines);
    calc {
      ContentLines(content);
      NonBlank(SplitLines(Trim(content)));
      { TrimTrimmed(content); }
      NonBlank(SplitLines(content));
      NonBlank(lines);
    }
  }

  lemma {:induction false} TrimTrimmed(s: string)
    requires Trimmed(s)
    ensures Trim(s) == s
  {
  }

  /**
   * Whatever the delimiter, parsing the rendering of a plain grid gives back
   * the grid: the parser recovers the same table from tab-, comma-,
   * semicolon- and space-separated text.
   */
  lemma {:induction false} ParseRenderRoundTrip(g: Grid, d: Delimiter)
    requires PlainGrid(g, d)
    ensures ParseTextToRows(Render(g, d)) == g
  {
    var lines := RenderLines(g, d);
    RenderedContentLines(g, d);
    JoinStartsWith(lines, '\n');
    DetectRendered(g[0], d);
    forall i | 0 <= i < |g| ensures CleanRow(SplitRow(lines[i], d)) == g[i] {
      SplitRendered(g[i], d);
      CleanPlainRow(g[i], d);
    }
  }

  // ---- extractMonthKey ----

  predicate IsDateSep(c: char) {
    c == '/' || c == '-'
  }

  predicate DigitsAt(s: string, p: nat, n: nat) {
    p + n <= |s| && forall k :: p <= k < p + n ==> IsDigit(s[k])
  }

  /**
   * `/(\d{1,2})[\/-](\d{1,2})[\/-](\d{4})/` matches at position `p` with a
   * first group of `a` digits and a second group of `b` digits.
   */
  predicate DateAt(s: string, p: nat, a: nat, b: nat) {
    && (a == 1 || a == 2) && (b == 1 || b == 2) && p + a + b + 6 <= |s|
    && DigitsAt(s, p, a) && IsDateSep(s[p + a])
    && DigitsAt(s, p + a + 1, b) && IsDateSep(s[p + a + 1 + b])
    && DigitsAt(s, p + a + b + 2, 4)
  }

  /** The group lengths the regular expression settles on at `p`: greedy, so longer first. */
  function MatchAt(s: string, p: nat): (r: Option<(nat, nat)>)
    ensures r.None? <==> forall a, b :: !DateAt(s, p, a, b)
    ensures r.Some? ==> DateAt(s, p, r.value.0, r.value.1)
  {
    if DateAt(s, p, 2, 2) then Some((2, 2))
    else if DateAt(s, p, 2, 1) then Some((2, 1))
    else if DateAt(s, p, 1, 2) then Some((1, 2))
    else if DateAt(s, p, 1, 1) then Some((1, 1))
    else None
  }

  /** The leftmost match at or after `p`: its position and group lengths. */
  function FindDate(s: string, p: nat): (r: Option<(nat, nat, nat)>)
    ensures r.Some? ==> p <= r.value.0 && MatchAt(s, r.value.0) == Some((r.value.1, r.value.2))
    ensures r.Some? ==> forall q :: p <= q < r.value.0 ==> MatchAt(s, q).None?
    ensures r.None? <==> forall q, a, b :: p <= q ==> !DateAt(s, q, a, b)
    decreases |s| - p
  {
    if p + 8 > |s| then
      NoRoomNoDate(s, p);
      None
    else
      match MatchAt(s, p)
      case Some((a, b)) => Some((p, a, b))
      case None =>
        var r := FindDate(s, p + 1);
        if r.None? then
          NoDateFrom(s, p);
          r
        else r
  }

  /** A date needs at least eight characters. */
  lemma {:induction false} NoRoomNoDate(s: string, p: nat)
    requires p + 8 > |s|
    ensures forall q, a, b :: p <= q ==> !DateAt(s, q, a, b)
  {
  }

  /** No date at `p` and none after it: none from `p` on. */
  lemma {:induction false} NoDateFrom(s: string, p: nat)
    requires MatchAt(s, p).None?
    requires forall q, a, b :: p + 1 <= q ==> !DateAt(s, q, a, b)
    ensures forall q, a, b :: p <= q ==> !DateAt(s, q, a, b)
  {
  }

  /** Some position of `s` holds a day-month-year date. */
  ghost predicate HasDate(s: string) {
    exists q, a, b :: DateAt(s, q, a, b)
  }

  /** A `YYYY-MM` key: four digits, a dash, two digits. */
  predicate IsMonthKey(k: string) {
    |k| == 7 && k[4] == '-' && forall i :: 0 <= i < 7 && i != 4 ==> IsDigit(k[i])
  }

  /** `${yyyy}-${mm.padStart(2, "0")}` for the match at `q`. */
  function MonthKeyAt(s: string, q: nat, a: nat, b: nat): string
    requires DateAt(s, q, a, b)
  {
    s[q + a + b + 2..q + a + b + 6] + "-" + PadStart2(s[q + a + 1..q + a + 1 + b])
  }

  lemma {:induction false} MonthKeyShape(s: string, q: nat, a: nat, b: nat)
    requires DateAt(s, q, a, b)
    ensures IsMonthKey(MonthKeyAt(s, q, a, b))
  {
    var year := s[q + a + b + 2..q + a + b + 6];
    var day := s[q + a + 1..q + a + 1 + b];
    assert forall i :: 0 <= i < 4 ==> year[i] == s[q + a + b + 2 + i];
    assert forall i :: 0 <= i < |day| ==> day[i] == s[q + a + 1 + i];
    PaddedDigits(day);
    JoinedMonthKey(year, PadStart2(day));
  }

  /** Padding one or two digits gives two digits. */
  lemma {:induction false} PaddedDigits(m: string)
    requires 1 <= |m| <= 2 && forall i :: 0 <= i < |m| ==> IsDigit(m[i])
    ensures |PadStart2(m)| == 2 && forall i :: 0 <= i < 2 ==> IsDigit(PadStart2(m)[i])
  {
    if |m| == 1 {
      assert PadStart2(m) == ['0', m[0]];
    }
  }

  /** Four digits, a dash and two digits make a month key. */
  lemma {:induction false} JoinedMonthKey(year: string, month: string)
    requires |year| == 4 && forall i :: 0 <= i < 4 ==> IsDigit(year[i])
    requires |month| == 2 && forall i :: 0 <= i < 2 ==> IsDigit(month[i])
    ensures IsMonthKey(year + "-" + month)
  {
    var key := year + "-" + month;
    assert forall i :: 0 <= i < 4 ==> key[i] == year[i];
    assert forall i :: 5 <= i < 7 ==> key[i] == month[i - 5];
  }

  /**
   * `extractMonthKey(rawDate)`: null for a missing or empty cell and for a
   * trimmed cell with no `d{1,2}[/-]d{1,2}[/-]d{4}` in it; otherwise the year
   * of the leftmost match, a dash, and its second group padded to two digits
   * (the date is read day first).
   */
  function ExtractMonthKey(raw: Option<string>): (r: Option<string>)
    ensures r.None? <==> !Truthy(raw) || !HasDate(Trim(raw.value))
    ensures r.Some? ==> IsMonthKey(r.value)
    ensures r.Some? ==> var s := Trim(raw.value); var f := FindDate(s, 0).value;
      r.value == MonthKeyAt(s, f.0, f.1, f.2)
  {
    if !Truthy(raw) then None
    else
      var s := Trim(raw.value);
      match FindDate(s, 0)
      case None => None
      case Some((q, a, b)) =>
        assert HasDate(s) by { assert DateAt(s, q, a, b); }
        MonthKeyShape(s, q, a, b);
        Some(MonthKeyAt(s, q, a, b))
  }

  /**
   * The match the regular expression settles on: the leftmost position where
   * a date starts, with the group lengths it prefers there.
   */
  ghost predicate LeftmostDate(s: string, q: nat, a: nat, b: nat) {
    && MatchAt(s, q) == Some((a, b))
    && forall p: nat, a', b' :: p < q ==> !DateAt(s, p, a', b')
  }

  /** The key is built from the leftmost match: its year, and its second group padded. */
  lemma {:induction false} ExtractMonthKeyLeftmost(raw: Option<string>, q: nat, a: nat, b: nat)
    requires Truthy(raw) && LeftmostDate(Trim(raw.value), q, a, b)
    ensures DateAt(Trim(raw.value), q, a, b)
    ensures ExtractMonthKey(raw) == Some(MonthKeyAt(Trim(raw.value), q, a, b))
  {
    var s := Trim(raw.value);
    assert FindDate(s, 0).Some?;
  }

  /** A trimmed cell whose date starts at its first character. */
  lemma {:induction false} ExtractMonthKeyAtStart(s: string, a: nat, b: nat)
    requires s != [] && Trimmed(s) && MatchAt(s, 0) == Some((a, b))
    ensures ExtractMonthKey(Some(s)) == Some(MonthKeyAt(s, 0, a, b))
  {
    assert FindDate(s, 0) == Some((0, a, b));
  }

  /** Day first: `5-3-2024` is March 2024, and a zero is padded onto the month. */
  lemma {:induction false} ExtractMonthKeyDayFirst()
    ensures ExtractMonthKey(Some("5-3-2024")) == Some("2024-03")
  {
    DayFirstMatch();
    ExtractMonthKeyAtStart("5-3-2024", 1, 1);
  }

  lemma {:induction false} DayFirstMatch()
    ensures Trimmed("5-3-2024") && MatchAt("5-3-2024", 0) == Some((1, 1))
    ensures MonthKeyAt("5-3-2024", 0, 1, 1) == "2024-03"
  {
    var s := "5-3-2024";
    assert !IsDigit(s[1]);
    assert s[4..8] == "2024" && s[2..3] == "3";
    assert MonthKeyAt(s, 0, 1, 1) == "2024" + "-" + "03";
  }

  /** Slashes separate as dashes do: `05/12/2023` is December 2023. */
  lemma {:induction false} ExtractMonthKeySlashes()
    ensures ExtractMonthKey(Some("05/12/2023")) == Some("2023-12")
  {
    SlashesMatch();
    ExtractMonthKeyAtStart("05/12/2023", 2, 2);
  }

  lemma {:induction false} SlashesMatch()
    ensures Trimmed("05/12/2023") && MatchAt("05/12/2023", 0) == Some((2, 2))
    ensures MonthKeyAt("05/12/2023", 0, 2, 2) == "2023-12"
  {
    var s := "05/12/2023";
    assert Trimmed(s);
    assert DigitsAt(s, 0, 2) && DigitsAt(s, 3, 2) && DigitsAt(s, 6, 4);
    assert DateAt(s, 0, 2, 2);
    assert s[6..10] == "2023" && s[3..5] == "12";
    assert PadStart2("12") == "12";
    assert MonthKeyAt(s, 0, 2, 2) == "2023" + "-" + "12";
  }
}
