/** The rendering of a unified diff as one row per line, each row marked
    as an added line, a removed line, a hunk header, or context. */
module DiffView {
  import opened Text

  datatype LineKind = Added | Removed | HunkHeader | Context

  datatype Row = Row(kind: LineKind, text: string)

  /** An empty diff shows a placeholder instead of rows. */
  datatype View = Placeholder | Rows(rows: seq<Row>)

  /** The mark of one line. File headers (`+++`, `---`) are context. */
  function Classify(line: string): (k: LineKind)
    ensures k == Added <==> StartsWith(line, "+") && !StartsWith(line, "+++")
    ensures k == Removed <==> StartsWith(line, "-") && !StartsWith(line, "---")
    ensures k == HunkHeader <==> StartsWith(line, "@@")
  {
    if StartsWith(line, "+") && !StartsWith(line, "+++") then Added
    else if StartsWith(line, "-") && !StartsWith(line, "---") then Removed
    else if StartsWith(line, "@@") then HunkHeader
    else Context
  }

  /** The rows of a diff, one per line. */
  function RowsOf(lines: seq<string>): (r: seq<Row>)
    ensures |r| == |lines|
    ensures forall i :: 0 <= i < |lines| ==> r[i] == Row(Classify(lines[i]), lines[i])
  {
    if |lines| == 0 then [] else [Row(Classify(lines[0]), lines[0])] + RowsOf(lines[1..])
  }

  /** `DiffView`. */
  function Render(diff: string): (v: View)
    ensures v.Placeholder? <==> diff == ""
    ensures v.Rows? ==> |v.rows| == |Split(diff, '\n')|
    ensures v.Rows? ==> forall i :: 0 <= i < |v.rows| ==> v.rows[i].kind == Classify(v.rows[i].text)
  {
    if diff == "" then Placeholder else Rows(RowsOf(Split(diff, '\n')))
  }

  function Texts(rows: seq<Row>): (r: seq<string>)
    ensures |r| == |rows|
    ensures forall i :: 0 <= i < |rows| ==> r[i] == rows[i].text
  {
    if |rows| == 0 then [] else [rows[0].text] + Texts(rows[1..])
  }

  /** The rows show the diff unchanged: their texts, joined by line breaks,
      are the diff, and no row holds a line break. */
  lemma RowsShowDiff(diff: string)
    requires diff != ""
    ensures Join(Texts(Render(diff).rows), '\n') == diff
    ensures forall i :: 0 <= i < |Render(diff).rows| ==> '\n' !in Render(diff).rows[i].text
  {
    var lines := Split(diff, '\n');
    assert Texts(RowsOf(lines)) == lines;
    JoinSplit(diff, '\n');
  }

  /** Every line gets exactly one mark; a line that is neither added,
      removed nor a hunk header is context. */
  lemma OneMarkPerLine(line: string)
    ensures Classify(line) == Context <==>
              !(StartsWith(line, "+") && !StartsWith(line, "+++"))
              && !(StartsWith(line, "-") && !StartsWith(line, "---"))
              && !StartsWith(line, "@@")
  {
  }

  /** File headers are not counted as changes. */
  lemma FileHeadersAreContext(rest: string)
    ensures Classify("+++" + rest) == Context && Classify("---" + rest) == Context
  {
    var plus := "+++" + rest;
    var minus := "---" + rest;
    assert plus[..3] == "+++" && plus[..2][0] == '+';
    assert minus[..3] == "---" && minus[..2][0] == '-';
  }

  /** A single `+` or `-` followed by something other than the same sign
      twice marks a change. */
  lemma ChangeLines(c: char, rest: string)
    requires c != '+' && c != '-'
    ensures Classify("+" + [c] + rest) == Added && Classify("-" + [c] + rest) == Removed
  {
    var plus := "+" + [c] + rest;
    var minus := "-" + [c] + rest;
    assert plus[..1] == "+" && plus[1] == c;
    assert minus[..1] == "-" && minus[1] == c;
    assert !StartsWith(plus, "+++") by { assert |plus| < 3 || plus[..3][1] == c; }
    assert !StartsWith(minus, "---") by { assert |minus| < 3 || minus[..3][1] == c; }
  }
}
