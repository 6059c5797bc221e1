/**
 * The sales-history upload box (src/components/SalesHistoryForm.tsx): which
 * files it accepts, and the plain comma splitter that builds its preview.
 */
module SalesHistoryForm {
  import opened Wrappers
  import opened Text
  import opened Seqs
  import opened BrowserFile

  // ---------------------------------------------------------------------------
  // File acceptance

  const ValidTypes: seq<string> := [
    "text/csv",
    "application/vnd.ms-excel",
    "application/vnd.openxmlformats-officedocument.spreadsheetml.sheet"
  ]

  /** A file is taken when its MIME type is listed or its name ends in `.csv` or `.xlsx`. */
  predicate IsAcceptedFile(file: FileInfo) {
    file.mimeType in ValidTypes || EndsWith(file.name, ".csv") || EndsWith(file.name, ".xlsx")
  }

  // ---------------------------------------------------------------------------
  // Preview parsing

  /** A line holding only whitespace. */
  predicate IsBlank(line: string) {
    forall i :: 0 <= i < |line| ==> IsWhitespace(line[i])
  }

  /** `filter(line => line.trim())`: a line survives when trimming leaves something. */
  function HasContent(): string -> bool {
    line => Trim(line) != ""
  }

  /** The lines of the text that are not blank, untrimmed, in order. */
  function ContentLines(text: string): (lines: seq<string>)
    ensures forall l :: l in lines <==> l in SplitLines(text) && !IsBlank(l)
    ensures IsSubsequence(lines, SplitLines(text))
    ensures forall l :: multiset(lines)[l] == if IsBlank(l) then 0 else multiset(SplitLines(text))[l]
  {
    FilterIsSubsequence(SplitLines(text), HasContent());
    FilterMultiplicity(SplitLines(text), HasContent());
    Filter(SplitLines(text), HasContent())
  }

  /**
   * `replace(/^"|"$/g, '')`: at most one double quote removed from the front
   * and at most one from the back; a lone `"` is removed once.
   */
  function StripQuotes(s: string): (r: string)
    ensures var i := if |s| > 0 && s[0] == '"' then 1 else 0;
            var j := if |s| >= 2 && s[|s| - 1] == '"' then |s| - 1 else |s|;
            i <= j && r == s[i..j]
  {
    var front := if |s| > 0 && s[0] == '"' then s[1..] else s;
    if |front| > 0 && front[|front| - 1] == '"' then front[..|front| - 1] else front
  }

  /** Wrapping a value in double quotes and stripping them gives the value back. */
  lemma QuotedValueRoundTrip(value: string)
    ensures StripQuotes("\"" + value + "\"") == value
  {
    var quoted := "\"" + value + "\"";
    assert quoted[1..|quoted| - 1] == value;
  }

  /** A cell as the preview shows it: trimmed, then its quotes stripped. */
  function CleanCell(cell: string): string {
    StripQuotes(Trim(cell))
  }

  /** `line.split(',').map(...)`: every comma separates cells, quoted or not. */
  function Cells(line: string): (cells: seq<string>)
    ensures |cells| == Count(line, ',') + 1
    ensures forall k :: 0 <= k < |cells| ==> cells[k] == CleanCell(Split(line, ',')[k])
  {
    var raw := Split(line, ',');
    seq(|raw|, k requires 0 <= k < |raw| => CleanCell(raw[k]))
  }

  lemma SplitOther(c: char, rest: string, sep: char)
    requires c != sep
    ensures Split([c] + rest, sep) == [[c] + Split(rest, sep)[0]] + Split(rest, sep)[1..]
  {
    assert ([c] + rest)[1..] == rest;
  }

  lemma SplitAtSeparator(rest: string, sep: char)
    ensures Split([sep] + rest, sep) == [""] + Split(rest, sep)
  {
    assert ([sep] + rest)[1..] == rest;
  }

  lemma SplitQuotedPair()
    ensures Split("\"a,b\"", ',') == ["\"a", "b\""]
  {
    var quote: string := "\"";
    SplitOther('"', "", ',');
    assert Split("", ',') == [""];
    assert ['"'] + "" == quote;
    assert [['"'] + ""] + [""][1..] == [quote];
    assert Split(quote, ',') == [quote];
    SplitOther('b', quote, ',');
    assert ['b'] + quote == "b\"";
    assert ['b'] + quote + "" == "b\"";
    assert Split("b\"", ',') == ["b\""];
    SplitAtSeparator("b\"", ',');
    assert Split(",b\"", ',') == ["", "b\""];
    SplitOther('a', ",b\"", ',');
    assert ['a'] + ",b\"" == "a,b\"";
    assert ['a'] + "" == "a";
    assert Split("a,b\"", ',') == ["a", "b\""];
    SplitOther('"', "a,b\"", ',');
    assert ['"'] + "a,b\"" == "\"a,b\"";
    assert ['"'] + "a" == "\"a";
  }

  /** A comma inside double quotes still splits the cell. */
  lemma QuotedCommaStillSplits()
    ensures Cells("\"a,b\"") == ["a", "b"]
  {
    SplitQuotedPair();
    TrimOfTrimmed("\"a");
    TrimOfTrimmed("b\"");
    assert StripQuotes("\"a") == "a";
    assert StripQuotes("b\"") == "b";
  }

  /** The preview data: the header cells, up to three rows, and the number of data rows. */
  datatype Preview = Preview(headers: seq<string>, rows: seq<seq<string>>, totalRows: int)

  /**
   * The reader's `onload` body: nothing when no line has content; otherwise
   * the first content line gives the headers, the next three at most give the
   * rows (not padded to the header width), and every further line is counted.
   */
  function ParsePreview(text: string): (preview: Option<Preview>)
    ensures preview.None? <==> |ContentLines(text)| == 0
    ensures preview.Some? ==>
      var lines := ContentLines(text);
      && preview.value.headers == Cells(lines[0])
      && |preview.value.headers| == Count(lines[0], ',') + 1
      && |preview.value.rows| == (if |lines| - 1 < 3 then |lines| - 1 else 3)
      && (forall i :: 0 <= i < |preview.value.rows| ==> preview.value.rows[i] == Cells(lines[i + 1]))
      && preview.value.totalRows == |lines| - 1
  {
    var lines := ContentLines(text);
    if |lines| == 0 then None
    else
      var headers := Cells(lines[0]);
      Some(Preview(headers, PreviewRows(lines), |lines| - 1))
  }

  /** `lines.slice(1, 4).map(...)`: the cells of at most three lines after the header line. */
  function PreviewRows(lines: seq<string>): (rows: seq<seq<string>>)
    requires |lines| > 0
    ensures |rows| == (if |lines| - 1 < 3 then |lines| - 1 else 3)
    ensures forall i :: 0 <= i < |rows| ==> rows[i] == Cells(lines[i + 1])
  {
    var shown := lines[1..if |lines| < 4 then |lines| else 4];
    seq(|shown|, i requires 0 <= i < |shown| => Cells(shown[i]))
  }

  /** The text splits into blank lines only exactly when all of it is whitespace. */
  lemma {:induction false} AllLinesBlankIffWhitespace(text: string)
    ensures (forall l :: l in SplitLines(text) ==> IsBlank(l)) <==> IsBlank(text)
  {
    var lines := SplitLines(text);
    if |text| == 0 {
      assert lines == [""];
    } else if text[0] == '\n' {
      AllLinesBlankIffWhitespace(text[1..]);
      assert lines == [""] + SplitLines(text[1..]);
      BlankCons(text[0], text[1..]);
      assert text == [text[0]] + text[1..];
    } else if |text| >= 2 && text[0] == '\r' && text[1] == '\n' {
      AllLinesBlankIffWhitespace(text[2..]);
      assert lines == [""] + SplitLines(text[2..]);
      BlankCons(text[1], text[2..]);
      BlankCons(text[0], text[1..]);
      assert text[1..] == [text[1]] + text[2..];
      assert text == [text[0]] + text[1..];
    } else {
      var rest := SplitLines(text[1..]);
      AllLinesBlankIffWhitespace(text[1..]);
      var first := [text[0]] + rest[0];
      assert lines == [first] + rest[1..];
      BlankCons(text[0], rest[0]);
      assert (forall l :: l in lines ==> IsBlank(l))
             <==> IsBlank(first) && forall l :: l in rest[1..] ==> IsBlank(l);
      assert (forall l :: l in rest ==> IsBlank(l))
             <==> IsBlank(rest[0]) && forall l :: l in rest[1..] ==> IsBlank(l) by {
        assert rest == [rest[0]] + rest[1..];
      }
      BlankCons(text[0], text[1..]);
      assert text == [text[0]] + text[1..];
    }
  }

  lemma BlankCons(c: char, s: string)
    ensures IsBlank([c] + s) <==> IsWhitespace(c) && IsBlank(s)
  {
    var t := [c] + s;
    assert t[0] == c;
    assert forall i :: 0 <= i < |s| ==> t[i + 1] == s[i];
    if IsWhitespace(c) && IsBlank(s) {
      forall i | 0 <= i < |t|
        ensures IsWhitespace(t[i])
      {
        if i > 0 {
          assert t[i] == s[i - 1];
        }
      }
    }
  }

  /** No preview is produced exactly for a text made of whitespace only (the empty text included). */
  lemma NoPreviewIffBlankText(text: string)
    ensures ParsePreview(text).None? <==> IsBlank(text)
  {
    AllLinesBlankIffWhitespace(text);
    var lines := ContentLines(text);
    if |lines| > 0 {
      assert lines[0] in lines;
    }
  }

  /** A header cell with no text is shown as `Col n`, numbered from 1. */
  function HeaderLabel(header: string, i: nat): (shown: string)
    ensures shown != ""
    ensures header != "" ==> shown == header
    ensures header == "" ==>
      |shown| > 4 && shown[..4] == "Col " && IsDigits(shown[4..]) && DigitsValue(shown[4..]) == i + 1
  {
    if header == "" then
      var numeral := NatToString(i + 1);
      assert ("Col " + numeral)[4..] == numeral;
      "Col " + numeral
    else header
  }

  /** Two columns without a header never share a label. */
  lemma EmptyHeadersGetDistinctLabels(i: nat, j: nat)
    requires i != j
    ensures HeaderLabel("", i) != HeaderLabel("", j)
  {
  }

  /** The "Mostrando 3 de N filas" note. */
  predicate ShowsTruncationNote(preview: Preview) {
    preview.totalRows > 3
  }

  /** The note appears exactly when the preview leaves rows out. */
  lemma TruncationNoteIffRowsLeftOut(text: string)
    requires ParsePreview(text).Some?
    ensures var preview := ParsePreview(text).value;
      ShowsTruncationNote(preview) <==> |preview.rows| < preview.totalRows
  {
  }

  // ---------------------------------------------------------------------------
  // The component's state

  class SalesHistoryFormState {
    var file: Option<FileInfo>
    var isModalOpen: bool
    var previewData: Option<Preview>

    constructor ()
      ensures file == None && !isModalOpen && previewData == None
    {
      file := None;
      isModalOpen := false;
      previewData := None;
    }

    /**
     * The reader's `onload`: a text with content replaces the preview and opens
     * the dialog; a blank text leaves both as they were.
     */
    method OnLoad(text: string)
      modifies this`previewData, this`isModalOpen
      ensures ParsePreview(text).Some? ==> previewData == ParsePreview(text) && isModalOpen
      ensures ParsePreview(text).None? ==>
        previewData == old(previewData) && isModalOpen == old(isModalOpen)
    {
      var parsed := ParsePreview(text);
      if parsed.None? {
        return;
      }
      previewData := parsed;
      isModalOpen := true;
    }

    /**
     * `handleFileChange`: no file, or a file of another kind, changes nothing;
     * an accepted file is stored and its text read into the preview.
     */
    method HandleFileChange(selected: Option<FileInfo>) returns (accepted: bool)
      modifies this
      ensures accepted <==> selected.Some? && IsAcceptedFile(selected.value)
      ensures !accepted ==>
        file == old(file) && previewData == old(previewData) && isModalOpen == old(isModalOpen)
      ensures accepted ==> file == selected
      ensures accepted && ParsePreview(selected.value.content).Some? ==>
        previewData == ParsePreview(selected.value.content) && isModalOpen
      ensures accepted && ParsePreview(selected.value.content).None? ==>
        previewData == old(previewData) && isModalOpen == old(isModalOpen)
    {
      if selected.None? {
        return false;
      }
      var chosen := selected.value;
      if !IsAcceptedFile(chosen) {
        return false;
      }
      file := selected;
      OnLoad(chosen.content);
      accepted := true;
    }

    /**
     * `handleDrop`, and equally the file input's `onChange`: the first file of
     * the list, if any, goes to `handleFileChange`.
     */
    method HandleDrop(files: seq<FileInfo>) returns (accepted: bool)
      modifies this
      ensures accepted <==> |files| > 0 && IsAcceptedFile(files[0])
      ensures !accepted ==>
        file == old(file) && previewData == old(previewData) && isModalOpen == old(isModalOpen)
      ensures accepted ==> file == Some(files[0])
      ensures accepted && ParsePreview(files[0].content).Some? ==>
        previewData == ParsePreview(files[0].content) && isModalOpen
      ensures accepted && ParsePreview(files[0].content).None? ==>
        previewData == old(previewData) && isModalOpen == old(isModalOpen)
    {
      accepted := HandleFileChange(if |files| > 0 then Some(files[0]) else None);
    }

    /** Closing the preview dialog. */
    method CloseModal()
      modifies this`isModalOpen
      ensures !isModalOpen
    {
      isModalOpen := false;
    }
  }
}
