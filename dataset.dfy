/**
 * The upload page (`Dataset.js`): the file's text is trimmed, split into
 * lines on `\n` and each line on `,`, with no quoting and no clean-up of
 * cells; a table of fewer than two rows is refused, anything else is stored
 * as it is, and the first six rows are previewed with their cells trimmed.
 *
 * This is a second parser beside `parseTextToRows` of `script.js`: it keeps
 * blank lines, a `\r` at the end of each line of a CRLF file, quotes and
 * surrounding spaces.
 */
module DatasetPage {
  import opened Common
  import opened JsText
  import ScriptParse

  // ---- Splitting ----

  /** `content.trim().split("\n")`. */
  function Lines(content: string): (lines: seq<string>)
    ensures |lines| >= 1
    ensures forall i :: 0 <= i < |lines| ==> '\n' !in lines[i]
  {
    SplitOn(Trim(content), '\n')
  }

  /** `content.trim().split("\n").map((row) => row.split(","))`. */
  function SplitRows(content: string): (rows: Grid)
    ensures |rows| == |Lines(content)|
    ensures forall i :: 0 <= i < |rows| ==> rows[i] == SplitOn(Lines(content)[i], ',')
  {
    var lines := Lines(content);
    seq(|lines|, i requires 0 <= i < |lines| => SplitOn(lines[i], ','))
  }

  /** The rows written back as text: cells joined by `,`, rows by `\n`. */
  function Render(rows: Grid): string
    requires |rows| >= 1 && forall i :: 0 <= i < |rows| ==> |rows[i]| >= 1
  {
    Join(RowTexts(rows), '\n')
  }

  function RowTexts(rows: Grid): (texts: seq<string>)
    requires forall i :: 0 <= i < |rows| ==> |rows[i]| >= 1
    ensures |texts| == |rows|
    ensures forall i :: 0 <= i < |rows| ==> texts[i] == Join(rows[i], ',')
  {
    seq(|rows|, i requires 0 <= i < |rows| => Join(rows[i], ','))
  }

  /** Nothing is lost but the outer white space: writing the rows back gives the trimmed text. */
  lemma {:induction false} SplitRowsRender(content: string)
    ensures var rows := SplitRows(content);
      (forall i :: 0 <= i < |rows| ==> |rows[i]| >= 1) && Render(rows) == Trim(content)
  {
    var lines := Lines(content);
    var rows := SplitRows(content);
    forall i | 0 <= i < |lines| ensures Join(rows[i], ',') == lines[i] {
      JoinSplitOn(lines[i], ',');
    }
    assert RowTexts(rows) == lines;
    JoinSplitOn(Trim(content), '\n');
  }

  /** A cell the splitter gives back as it is: free of `,` and `\n`. */
  predicate PlainCell(c: string) {
    ',' !in c && '\n' !in c
  }

  /** A table the splitter can give back: non-empty rows of plain cells, written out without outer white space. */
  predicate Splittable(rows: Grid) {
    && |rows| >= 1
    && (forall i :: 0 <= i < |rows| ==> |rows[i]| >= 1)
    && (forall i, j :: 0 <= i < |rows| && 0 <= j < |rows[i]| ==> PlainCell(rows[i][j]))
    && Trimmed(Render(rows))
  }

  /** Splitting the written-out text of such a table gives the table back. */
  lemma {:induction false} RenderSplitRows(rows: Grid)
    requires Splittable(rows)
    ensures SplitRows(Render(rows)) == rows
  {
    var texts := RowTexts(rows);
    forall i | 0 <= i < |rows| ensures '\n' !in texts[i] && SplitOn(texts[i], ',') == rows[i] {
      ScriptParse.JoinNotIn(rows[i], ',', '\n');
      SplitOnJoin(rows[i], ',');
    }
    SplitOnJoin(texts, '\n');
    assert Lines(Render(rows)) == texts;
  }

  /** A blank line inside the text is kept as a row holding one empty cell. */
  lemma {:induction false} BlankLineKept(first: seq<string>, last: seq<string>)
    requires Splittable([first, [""], last])
    ensures SplitRows(Render([first, [""], last])) == [first, [""], last]
  {
    RenderSplitRows([first, [""], last]);
  }

  /** With CRLF line ends the `\r` stays at the end of the last cell of each line but the last. */
  lemma {:induction false} CarriageReturnKept(a: string, b: string)
    requires PlainCell(a) && PlainCell(b) && a != [] && b != []
    requires Trimmed(a) && Trimmed(b)
    ensures SplitRows(a + "\r\n" + b) == [[a + "\r"], [b]]
  {
    var rows := [[a + "\r"], [b]];
    var texts := RowTexts(rows);
    assert texts == [a + "\r", b];
    assert texts[1..] == [b];
    assert Join(texts, '\n') == texts[0] + ['\n'] + Join(texts[1..], '\n');
    assert Render(rows) == a + "\r" + "\n" + b;
    assert a + "\r\n" + b == a + "\r" + "\n" + b;
    var t := Render(rows);
    assert t[0] == a[0] && t[|t| - 1] == b[|b| - 1];
    assert PlainCell(a + "\r");
    RenderSplitRows(rows);
  }

  // ---- Validating and previewing ----

  /** The first six rows, each cell trimmed. */
  function Preview(rows: Grid): (p: Grid)
    ensures |p| == if |rows| < 6 then |rows| else 6
    ensures forall i :: 0 <= i < |p| ==> |p[i]| == |rows[i]| && forall j :: 0 <= j < |p[i]| ==> p[i][j] == Trim(rows[i][j])
  {
    var n := if |rows| < 6 then |rows| else 6;
    seq(n, i requires 0 <= i < n => seq(|rows[i]|, j requires 0 <= j < |rows[i]| => Trim(rows[i][j])))
  }

  /** Previewing a preview changes nothing: its cells are already trimmed and there are at most six rows. */
  lemma {:induction false} PreviewIdempotent(rows: Grid)
    ensures Preview(Preview(rows)) == Preview(rows)
  {
    var p := Preview(rows);
    var q := Preview(p);
    forall i | 0 <= i < |p| ensures q[i] == p[i] {
      forall j | 0 <= j < |p[i]| ensures q[i][j] == p[i][j] {
        assert Trimmed(p[i][j]);
      }
    }
  }

  /** What `handleUpload` ends with. */
  datatype Outcome =
    | NoFile                                // "Please select a file."
    | Invalid                               // "Invalid or empty dataset."
    | Stored(rows: Grid, preview: Grid)     // saved under "dataset"; the preview table

  /** `handleUpload`, given the file's text when a file was chosen. */
  function Upload(file: Option<string>): (r: Outcome)
    ensures file.None? <==> r == NoFile
    ensures file.Some? ==> (r == Invalid <==> |SplitRows(file.value)| < 2)
    ensures r.Stored? ==> r.rows == SplitRows(file.value) && r.preview == Preview(r.rows)
  {
    match file
    case None => NoFile
    case Some(content) =>
      var rows := SplitRows(content);
      if |rows| < 2 then Invalid else Stored(rows, Preview(rows))
  }

  /**
   * Text without a line feed once trimmed is refused; an empty or blank file
   * is such a text, and splits into one row holding one empty cell.
   */
  lemma {:induction false} UploadRejects(content: string)
    requires '\n' !in Trim(content)
    ensures Upload(Some(content)) == Invalid
    ensures AllSpace(content) ==> SplitRows(content) == [[""]]
  {
    SplitOnFree(Trim(content), '\n');
  }

  /** Whatever is stored writes back to the trimmed file text. */
  lemma {:induction false} UploadStoresAll(content: string)
    requires Upload(Some(content)).Stored?
    ensures Render(Upload(Some(content)).rows) == Trim(content)
  {
    SplitRowsRender(content);
  }
}
