/** The client's reading of the `Current` sheet into pages.
    The current reader (`c-01-parser.ts`) expects four columns per row (page URL, hash, link text,
    PDF URL), one row per PDF, and merges the rows of one page by the key `url + '\t' + hash`.
    The older reader (`parser.ts`) takes one row per page with the PDF URLs from the third column on. */
module Parser {
  import opened Wrappers
  import opened Seqs
  import opened Cells
  import opened Models

  /** A page as the current reader collects it. */
  datatype ParsedRow = ParsedRow(pageUrl: string, pageHash: string, pdfUrls: seq<string>, pdfs: seq<PdfLink>)

  /** `String(row[j] || '').trim()`: a falsy cell reads as the empty string. The first column is read as
      `String(row[0]).trim()`, which agrees because that cell is truthy whenever the row is read. */
  function Field(c: Cell): (r: string)
    ensures !Truthy(c) ==> r == ""
    ensures Trimmed(r)
  {
    Trim(if Truthy(c) then ToText(c) else "")
  }

  /** `if (!row[0]) continue;` */
  predicate Skipped(row: Row) {
    !Truthy(CellAt(row, 0))
  }

  /** The four trimmed fields of a row. */
  datatype Line = Line(url: string, hash: string, text: string, pdfUrl: string)

  function ReadLine(row: Row): Line {
    Line(Field(CellAt(row, 0)), Field(CellAt(row, 1)), Field(CellAt(row, 2)), Field(CellAt(row, 3)))
  }

  /** The map key of a row: `${pageUrl}\t${pageHash}`. */
  function Key(l: Line): string {
    l.url + "\t" + l.hash
  }

  function KeyOf(p: ParsedRow): string {
    p.pageUrl + "\t" + p.pageHash
  }

  /** `if (pdfUrl) { pdfUrls.push(pdfUrl); pdfs.push({url: pdfUrl, text}); }` */
  function AddPdf(p: ParsedRow, l: Line): ParsedRow {
    if l.pdfUrl != "" then p.(pdfUrls := p.pdfUrls + [l.pdfUrl], pdfs := p.pdfs + [PdfLink(l.pdfUrl, l.text)])
    else p
  }

  /** One iteration of the reading loop for a row that is read, over the entries collected so far
      (the `Map`'s values in insertion order): a line whose key is already present adds its PDF to
      that entry, a new key opens an entry at the end. */
  function Step(acc: seq<ParsedRow>, l: Line): seq<ParsedRow> {
    var keys := Map(acc, KeyOf);
    if Key(l) in keys then
      var p := FirstIndex(keys, Key(l));
      acc[p := AddPdf(acc[p], l)]
    else acc + [AddPdf(ParsedRow(l.url, l.hash, [], []), l)]
  }

  /** The rows that are read, as lines, in sheet order. */
  function ReadLines(data: Sheet): (ls: seq<Line>)
    ensures |ls| <= |data|
  {
    if |data| == 0 then []
    else
      var last := data[|data| - 1];
      ReadLines(data[..|data| - 1]) + (if Skipped(last) then [] else [ReadLine(last)])
  }

  function Aggregate(lines: seq<Line>): seq<ParsedRow> {
    if |lines| == 0 then [] else Step(Aggregate(lines[..|lines| - 1]), lines[|lines| - 1])
  }

  /** `parseCurrentSheet` over the sheet's data range. */
  function ParseCurrentSheet(data: Sheet): seq<ParsedRow> {
    Aggregate(ReadLines(data))
  }

  // ----- A reference description of the result, line by line -----

  /** The non-empty PDF URLs of the lines with key `k`, in order. */
  function PdfsFor(lines: seq<Line>, k: string): seq<string> {
    if |lines| == 0 then []
    else
      var l := lines[|lines| - 1];
      PdfsFor(lines[..|lines| - 1], k) + (if Key(l) == k && l.pdfUrl != "" then [l.pdfUrl] else [])
  }

  /** The same lines as links (URL with its text). */
  function LinksFor(lines: seq<Line>, k: string): seq<PdfLink> {
    if |lines| == 0 then []
    else
      var l := lines[|lines| - 1];
      LinksFor(lines[..|lines| - 1], k) + (if Key(l) == k && l.pdfUrl != "" then [PdfLink(l.pdfUrl, l.text)] else [])
  }

  /** The first line with key `k`, if any. */
  function FirstLine(lines: seq<Line>, k: string): (r: Option<Line>)
    ensures r.Some? ==> Key(r.value) == k && r.value in lines
  {
    if |lines| == 0 then None
    else
      var l := lines[|lines| - 1];
      var before := FirstLine(lines[..|lines| - 1], k);
      if before.Some? then before
      else if Key(l) == k then Some(l)
      else None
  }

  /** The number of lines that carry a non-empty PDF URL. */
  function PdfLineCount(lines: seq<Line>): nat {
    if |lines| == 0 then 0
    else PdfLineCount(lines[..|lines| - 1]) + (if lines[|lines| - 1].pdfUrl != "" then 1 else 0)
  }

  /** An entry describes `lines` when it carries the URL and hash of the first line of its key and
      the PDFs of all the lines of its key, in order. */
  ghost predicate EntryOk(e: ParsedRow, lines: seq<Line>) {
    && e.pdfUrls == PdfsFor(lines, KeyOf(e))
    && e.pdfs == LinksFor(lines, KeyOf(e))
    && FirstLine(lines, KeyOf(e)).Some?
    && FirstLine(lines, KeyOf(e)).value.url == e.pageUrl
    && FirstLine(lines, KeyOf(e)).value.hash == e.pageHash
  }

  /** The entries of `out` describe `lines`: one per distinct key in first-occurrence order. */
  ghost predicate Describes(out: seq<ParsedRow>, lines: seq<Line>) {
    && Map(out, KeyOf) == Dedup(Map(lines, Key))
    && forall i :: 0 <= i < |out| ==> EntryOk(out[i], lines)
  }

  lemma {:induction false} AbsentKey(lines: seq<Line>, k: string)
    requires k !in Map(lines, Key)
    ensures PdfsFor(lines, k) == [] && LinksFor(lines, k) == [] && FirstLine(lines, k).None?
  {
    if |lines| > 0 {
      var init := lines[..|lines| - 1];
      assert Map(init, Key) == Map(lines, Key)[..|init|];
      AbsentKey(init, k);
    }
  }

  lemma {:induction false} PresentKey(lines: seq<Line>, k: string)
    requires k in Map(lines, Key)
    ensures FirstLine(lines, k).Some?
  {
    var init := lines[..|lines| - 1];
    assert Map(lines, Key) == Map(init, Key) + [Key(lines[|lines| - 1])];
    if k in Map(init, Key) {
      PresentKey(init, k);
    }
  }

  /** `AddPdf` keeps the key. */
  lemma AddPdfKey(p: ParsedRow, l: Line)
    ensures KeyOf(AddPdf(p, l)) == KeyOf(p)
  {
  }

  /** A line with another key leaves an entry's description intact. */
  lemma EntryOther(e: ParsedRow, lines: seq<Line>)
    requires |lines| > 0 && KeyOf(e) != Key(lines[|lines| - 1])
    requires EntryOk(e, lines[..|lines| - 1])
    ensures EntryOk(e, lines)
  {
  }

  /** A line with the entry's key extends it by its PDF. */
  lemma EntryAdd(e: ParsedRow, lines: seq<Line>)
    requires |lines| > 0 && KeyOf(e) == Key(lines[|lines| - 1])
    requires EntryOk(e, lines[..|lines| - 1])
    ensures EntryOk(AddPdf(e, lines[|lines| - 1]), lines)
  {
    AddPdfKey(e, lines[|lines| - 1]);
  }

  /** A line with a new key opens an entry that describes it. */
  lemma EntryNew(lines: seq<Line>)
    requires |lines| > 0 && Key(lines[|lines| - 1]) !in Map(lines[..|lines| - 1], Key)
    ensures var l := lines[|lines| - 1]; EntryOk(AddPdf(ParsedRow(l.url, l.hash, [], []), l), lines)
  {
    var l := lines[|lines| - 1];
    AddPdfKey(ParsedRow(l.url, l.hash, [], []), l);
    AbsentKey(lines[..|lines| - 1], Key(l));
  }

  /** The keys of the entries after a step for a key already present. */
  lemma StepKeysExisting(out: seq<ParsedRow>, lines: seq<Line>)
    requires |lines| > 0
    requires Map(out, KeyOf) == Dedup(Map(lines[..|lines| - 1], Key))
    requires Key(lines[|lines| - 1]) in Map(out, KeyOf)
    ensures Map(Step(out, lines[|lines| - 1]), KeyOf) == Dedup(Map(lines, Key))
  {
    var l := lines[|lines| - 1];
    var keys := Map(out, KeyOf);
    var p := FirstIndex(keys, Key(l));
    AddPdfKey(out[p], l);
    var out' := out[p := AddPdf(out[p], l)];
    assert Map(out', KeyOf) == keys by {
      forall i | 0 <= i < |out'|
        ensures Map(out', KeyOf)[i] == keys[i]
      {
      }
    }
    RepeatedKey(lines);
  }

  /** A line whose key was seen before adds no key. */
  lemma RepeatedKey(lines: seq<Line>)
    requires |lines| > 0 && Key(lines[|lines| - 1]) in Dedup(Map(lines[..|lines| - 1], Key))
    ensures Dedup(Map(lines, Key)) == Dedup(Map(lines[..|lines| - 1], Key))
  {
    MapSnoc(lines, Key);
    DedupSnoc(Map(lines, Key));
  }

  /** The keys of the entries after a step for a new key. */
  lemma StepKeysNew(out: seq<ParsedRow>, lines: seq<Line>)
    requires |lines| > 0
    requires Map(out, KeyOf) == Dedup(Map(lines[..|lines| - 1], Key))
    requires Key(lines[|lines| - 1]) !in Map(out, KeyOf)
    ensures Map(Step(out, lines[|lines| - 1]), KeyOf) == Dedup(Map(lines, Key))
  {
    var l := lines[|lines| - 1];
    MapSnoc(lines, Key);
    DedupSnoc(Map(lines, Key));
    var e := AddPdf(ParsedRow(l.url, l.hash, [], []), l);
    AddPdfKey(ParsedRow(l.url, l.hash, [], []), l);
    MapAppend(out, [e], KeyOf);
  }

  /** One step keeps `Describes`. */
  lemma StepDescribes(out: seq<ParsedRow>, lines: seq<Line>)
    requires |lines| > 0
    requires Describes(out, lines[..|lines| - 1])
    ensures Describes(Step(out, lines[|lines| - 1]), lines)
  {
    var l := lines[|lines| - 1];
    var out' := Step(out, l);
    if Key(l) in Map(out, KeyOf) {
      StepKeysExisting(out, lines);
      forall i | 0 <= i < |out'|
        ensures EntryOk(out'[i], lines)
      {
        StepEntryExisting(out, lines, i);
      }
    } else {
      StepKeysNew(out, lines);
      forall i | 0 <= i < |out'|
        ensures EntryOk(out'[i], lines)
      {
        StepEntryNew(out, lines, i);
      }
    }
  }

  /** Entry `i` after a step for a key already present: the entry of that key gains the line's PDF,
      the others are untouched. */
  lemma StepEntryExisting(out: seq<ParsedRow>, lines: seq<Line>, i: nat)
    requires |lines| > 0
    requires Describes(out, lines[..|lines| - 1])
    requires Key(lines[|lines| - 1]) in Map(out, KeyOf)
    requires i < |Step(out, lines[|lines| - 1])|
    ensures EntryOk(Step(out, lines[|lines| - 1])[i], lines)
  {
    var l := lines[|lines| - 1];
    var keys := Map(out, KeyOf);
    var p := FirstIndex(keys, Key(l));
    if i == p {
      EntryAdd(out[p], lines);
    } else {
      assert NoDups(keys);
      assert keys[i] == KeyOf(out[i]) && keys[p] == Key(l);
      EntryOther(out[i], lines);
    }
  }

  /** Entry `i` after a step for a new key: the old entries are untouched and the new one describes
      its line. */
  lemma StepEntryNew(out: seq<ParsedRow>, lines: seq<Line>, i: nat)
    requires |lines| > 0
    requires Describes(out, lines[..|lines| - 1])
    requires Key(lines[|lines| - 1]) !in Map(out, KeyOf)
    requires i < |Step(out, lines[|lines| - 1])|
    ensures EntryOk(Step(out, lines[|lines| - 1])[i], lines)
  {
    var l := lines[|lines| - 1];
    var keys := Map(out, KeyOf);
    if i < |out| {
      assert keys[i] == KeyOf(out[i]);
      EntryOther(out[i], lines);
    } else {
      MapSnoc(lines, Key);
      EntryNew(lines);
    }
  }

  /** The aggregation, described line by line: entries in first-occurrence order of their keys, each
      with the first line's URL and hash and every non-empty PDF of its key's lines, in order. */
  lemma {:induction false} AggregateSpec(lines: seq<Line>)
    ensures Describes(Aggregate(lines), lines)
  {
    if |lines| > 0 {
      AggregateSpec(lines[..|lines| - 1]);
      StepDescribes(Aggregate(lines[..|lines| - 1]), lines);
    }
  }

  /** `pdfUrls` and `pdfs` run in step: the same length, and `pdfUrls[j] == pdfs[j].url`. */
  lemma {:induction false} LinksMatchPdfs(lines: seq<Line>, k: string)
    ensures |LinksFor(lines, k)| == |PdfsFor(lines, k)|
    ensures forall j :: 0 <= j < |PdfsFor(lines, k)| ==> LinksFor(lines, k)[j].url == PdfsFor(lines, k)[j]
  {
    if |lines| > 0 {
      LinksMatchPdfs(lines[..|lines| - 1], k);
    }
  }

  /** The rows read are those with a truthy first cell, each read as its four trimmed fields. */
  lemma {:induction false} ReadLinesSpec(data: Sheet)
    ensures ReadLines(data) == Map(Filter(data, Read), ReadLine)
  {
    if |data| > 0 {
      var init := data[..|data| - 1];
      var row := data[|data| - 1];
      assert data == init + [row];
      FilterAppend(init, [row], Read);
      ReadLinesSpec(init);
      MapAppend(Filter(init, Read), Filter([row], Read), ReadLine);
    }
  }

  /** No white space at either end. */
  predicate Trimmed(s: string) {
    |s| > 0 ==> !IsSpace(s[0]) && !IsSpace(s[|s| - 1])
  }

  predicate LineTrimmed(l: Line) {
    Trimmed(l.url) && Trimmed(l.hash)
  }

  lemma ReadLineTrimmed(row: Row)
    ensures LineTrimmed(ReadLine(row))
  {
  }

  /** Every line read is trimmed: its URL and hash have no white space at either end. */
  lemma {:induction false} ReadLinesTrimmed(data: Sheet)
    ensures forall l :: l in ReadLines(data) ==> LineTrimmed(l)
  {
    if |data| > 0 {
      var init := data[..|data| - 1];
      var last := data[|data| - 1];
      var tail := if Skipped(last) then [] else [ReadLine(last)];
      assert ReadLines(data) == ReadLines(init) + tail;
      ReadLinesTrimmed(init);
      ReadLineTrimmed(last);
      forall l | l in ReadLines(data)
        ensures LineTrimmed(l)
      {
        if l !in ReadLines(init) {
          assert l in tail;
        }
      }
    }
  }

  /** An entry whose two PDF lists run in step (`pdfUrls[j] == pdfs[j].url`) and whose URL and hash
      are trimmed. */
  predicate WellFormed(e: ParsedRow) {
    && |e.pdfs| == |e.pdfUrls|
    && (forall j :: 0 <= j < |e.pdfUrls| ==> e.pdfUrls[j] == e.pdfs[j].url)
    && Trimmed(e.pageUrl) && Trimmed(e.pageHash)
  }

  lemma AggregateWellFormed(lines: seq<Line>)
    requires forall l :: l in lines ==> LineTrimmed(l)
    ensures forall i :: 0 <= i < |Aggregate(lines)| ==> WellFormed(Aggregate(lines)[i])
  {
    var out := Aggregate(lines);
    AggregateSpec(lines);
    forall i | 0 <= i < |out|
      ensures WellFormed(out[i])
    {
      assert EntryOk(out[i], lines);
      LinksMatchPdfs(lines, KeyOf(out[i]));
      var f := FirstLine(lines, KeyOf(out[i])).value;
      assert LineTrimmed(f);
    }
  }

  /** The sheet reader's result: one entry per distinct key of the rows read, in first-occurrence order,
      with that key's PDFs in row order; each entry's two PDF lists agree, and URL and hash are trimmed. */
  lemma ParseCurrentSheetSpec(data: Sheet)
    ensures Describes(ParseCurrentSheet(data), Map(Filter(data, Read), ReadLine))
    ensures forall i :: 0 <= i < |ParseCurrentSheet(data)| ==> WellFormed(ParseCurrentSheet(data)[i])
  {
    ReadLinesSpec(data);
    AggregateSpec(ReadLines(data));
    ReadLinesTrimmed(data);
    AggregateWellFormed(ReadLines(data));
  }

  function PdfCount(p: ParsedRow): int {
    |p.pdfUrls|
  }

  /** Across all entries there are as many PDF URLs as lines with a non-empty PDF cell. */
  lemma {:induction false} AggregatePdfTotal(lines: seq<Line>)
    ensures SumOf(Aggregate(lines), PdfCount) == PdfLineCount(lines)
  {
    if |lines| > 0 {
      var init := lines[..|lines| - 1];
      var l := lines[|lines| - 1];
      var acc := Aggregate(init);
      AggregatePdfTotal(init);
      var keys := Map(acc, KeyOf);
      if Key(l) in keys {
        var p := FirstIndex(keys, Key(l));
        SumOfUpdate(acc, p, AddPdf(acc[p], l), PdfCount);
      } else {
        SumOfAppend(acc, [AddPdf(ParsedRow(l.url, l.hash, [], []), l)], PdfCount);
      }
    }
  }

  predicate Read(row: Row) {
    !Skipped(row)
  }

  function ToPage(p: ParsedRow): Page {
    Page(p.pageUrl, p.pageHash, p.pdfUrls, p.pdfs)
  }

  /** `convertToPages`: one page per entry, in order, field for field. */
  function ConvertToPages(rows: seq<ParsedRow>): (r: seq<Page>)
    ensures |r| == |rows|
    ensures forall k :: 0 <= k < |rows| ==>
      r[k].url == rows[k].pageUrl && r[k].hash == rows[k].pageHash
      && r[k].pdfUrls == rows[k].pdfUrls && r[k].pdfs == rows[k].pdfs
  {
    Map(rows, ToPage)
  }

  function FromPage(p: Page): ParsedRow {
    ParsedRow(p.url, p.hash, p.pdfUrls, p.pdfs)
  }

  /** Nothing is lost in the conversion: the entries can be read back from the pages. */
  lemma ConvertToPagesInverse(rows: seq<ParsedRow>)
    ensures Map(ConvertToPages(rows), FromPage) == rows
  {
  }

  // ----- The older reader -----

  /** A page as the older reader collects it: no link texts. */
  datatype LegacyRow = LegacyRow(pageUrl: string, pageHash: string, pdfUrls: seq<string>)

  /** The non-empty trimmed cells of `cells`, in column order. */
  function NonEmptyFields(cells: seq<Cell>): (r: seq<string>)
    ensures forall k :: 0 <= k < |r| ==> r[k] != ""
  {
    if |cells| == 0 then []
    else (if Field(cells[0]) != "" then [Field(cells[0])] else []) + NonEmptyFields(cells[1..])
  }

  function ReadLegacyRow(row: Row): LegacyRow {
    LegacyRow(Field(CellAt(row, 0)), Field(CellAt(row, 1)), if |row| > 2 then NonEmptyFields(row[2..]) else [])
  }

  /** `parseCurrentSheet` of the older reader: one entry per row read, no merging. */
  function ParseLegacySheet(data: Sheet): (r: seq<LegacyRow>)
    ensures |r| <= |data|
  {
    if |data| == 0 then []
    else (if Skipped(data[0]) then [] else [ReadLegacyRow(data[0])]) + ParseLegacySheet(data[1..])
  }

  function NonEmpty(s: string): bool { s != "" }

  /** A PDF cell is kept iff its trimmed text is non-empty: the kept cells are the trimmed cells with the
      empty ones filtered out. */
  lemma {:induction false} NonEmptyFieldsFilter(cells: seq<Cell>)
    ensures NonEmptyFields(cells) == Filter(Map(cells, Field), NonEmpty)
  {
    if |cells| > 0 {
      NonEmptyFieldsFilter(cells[1..]);
      assert Map(cells, Field)[1..] == Map(cells[1..], Field);
    }
  }

  /** The older reader maps the rows read one to one, in order. */
  lemma {:induction false} ParseLegacySpec(data: Sheet)
    ensures ParseLegacySheet(data) == Map(Filter(data, Read), ReadLegacyRow)
    ensures |ParseLegacySheet(data)| == CountIf(data, Read)
  {
    if |data| > 0 {
      ParseLegacySpec(data[1..]);
      MapAppend(if Read(data[0]) then [data[0]] else [], Filter(data[1..], Read), ReadLegacyRow);
    }
  }

  /** `convertToPages` of the older reader. Its pages carry no link list; the model gives them an
      empty one. */
  function ConvertLegacyToPages(rows: seq<LegacyRow>): (r: seq<Page>)
    ensures |r| == |rows|
    ensures forall k :: 0 <= k < |rows| ==>
      r[k].url == rows[k].pageUrl && r[k].hash == rows[k].pageHash && r[k].pdfUrls == rows[k].pdfUrls
      && r[k].pdfs == []
  {
    Map(rows, (p: LegacyRow) => Page(p.pageUrl, p.pageHash, p.pdfUrls, []))
  }
}
