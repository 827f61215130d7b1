/** Spreadsheet values as the scripts see them through `getValues()`: a sheet is a list of
    rows, a row a list of cells, and a cell is text, a number, a boolean or a date.
    This module also fixes the JavaScript conversions the scripts apply to cells:
    truthiness (`if (row[0])`), `String(cell)` and `String.prototype.trim`. */
module Cells {
  import opened Wrappers

  /** One cell value. Dates are epoch milliseconds; an empty cell reads as `Text("")`. */
  datatype Cell = Text(s: string) | Num(n: int) | Flag(b: bool) | Time(ms: int)

  type Row = seq<Cell>

  /** A sheet's data range; `getLastRow()` is its length. */
  type Sheet = seq<Row>

  /** JavaScript truthiness of a cell value: `''`, `0` and `false` are falsy, a `Date` never is. */
  predicate Truthy(c: Cell) {
    match c
    case Text(s) => s != ""
    case Num(n) => n != 0
    case Flag(b) => b
    case Time(_) => true
  }

  /** `row[j]`, reading a cell past the end of the row (`undefined`) as an empty cell:
      every use in the scripts is `row[j] || ''` or a truthiness test, which treat both alike. */
  function CellAt(row: Row, j: nat): (c: Cell)
    ensures j < |row| ==> c == row[j]
    ensures j >= |row| ==> c == Text("")
  {
    if j < |row| then row[j] else Text("")
  }

  /** `row` padded with empty cells (or cut) to exactly `width` cells, as `getRange(r, 1, 1, width)` reads it. */
  function Pad(row: Row, width: nat): (r: Row)
    ensures |r| == width
    ensures forall j :: 0 <= j < width ==> r[j] == CellAt(row, j)
    decreases width
  {
    if width == 0 then [] else Pad(row, width - 1) + [CellAt(row, width - 1)]
  }

  /** `sheet.getRange(row, 1, 1, |vals|).setValues([vals])`: the first cells replaced, the rest kept. */
  function Overwrite(row: Row, vals: Row): (r: Row)
    ensures |r| == if |row| > |vals| then |row| else |vals|
    ensures |r| >= |vals| && forall j :: 0 <= j < |vals| ==> r[j] == vals[j]
    ensures forall j :: |vals| <= j < |row| ==> r[j] == row[j]
  {
    vals + (if |row| > |vals| then row[|vals|..] else [])
  }

  /** The data rows: everything below the header row. */
  function DataRows(sheet: Sheet): seq<Row> {
    if |sheet| <= 1 then [] else sheet[1..]
  }

  /** A row filed under `key`: its first cell is exactly the text `key` (`row[0] === key`). */
  predicate Keyed(key: string, row: Row) {
    CellAt(row, 0) == Text(key)
  }

  /** The first data row (below the header row 0) filed under `key`, as the repositories' lookup loops
      find it. */
  function FindKeyed(sheet: Sheet, key: string): (r: Option<nat>)
    ensures r.Some? ==> 1 <= r.value < |sheet| && Keyed(key, sheet[r.value])
    ensures r.Some? ==> forall j :: 1 <= j < r.value ==> !Keyed(key, sheet[j])
    ensures r.None? ==> forall j :: 1 <= j < |sheet| ==> !Keyed(key, sheet[j])
  {
    FindKeyedFrom(sheet, key, 1)
  }

  function FindKeyedFrom(sheet: Sheet, key: string, i: nat): (r: Option<nat>)
    ensures r.Some? ==> i <= r.value < |sheet| && Keyed(key, sheet[r.value])
    ensures r.Some? ==> forall j :: i <= j < r.value ==> !Keyed(key, sheet[j])
    ensures r.None? ==> forall j :: i <= j < |sheet| ==> !Keyed(key, sheet[j])
    decreases |sheet| - i
  {
    if i >= |sheet| then None
    else if Keyed(key, sheet[i]) then Some(i)
    else FindKeyedFrom(sheet, key, i + 1)
  }

  /** Decimal digits of a natural number, most significant first. */
  function NatToDecimal(n: nat): (r: string)
    ensures |r| >= 1
    decreases n
  {
    var d := [('0' as int + n % 10) as char];
    if n < 10 then d else NatToDecimal(n / 10) + d
  }

  /** The decimal form consists of digits only. */
  lemma {:induction false} NatToDecimalDigits(n: nat)
    ensures forall k :: 0 <= k < |NatToDecimal(n)| ==> '0' <= NatToDecimal(n)[k] <= '9'
    decreases n
  {
    if n >= 10 {
      NatToDecimalDigits(n / 10);
    }
  }

  /** `String(n)` for an integer-valued number. */
  function IntToDecimal(n: int): string {
    if n < 0 then "-" + NatToDecimal(-n) else NatToDecimal(n)
  }

  /** `String(cell)`. A date's text form (locale- and time-zone-dependent in the host) is stood in for
      by its millisecond value in a fixed wrapper; nothing in the model depends on its shape. */
  function ToText(c: Cell): string {
    match c
    case Text(s) => s
    case Num(n) => IntToDecimal(n)
    case Flag(b) => if b then "true" else "false"
    case Time(ms) => "Date(" + IntToDecimal(ms) + ")"
  }

  /** The characters `String.prototype.trim` removes: ECMAScript WhiteSpace and LineTerminator. */
  predicate IsSpace(c: char) {
    c == '\t' || c == '\n' || c == '\U{000B}' || c == '\U{000C}' || c == '\r' || c == ' '
    || c == '\U{00A0}' || c == '\U{1680}' || ('\U{2000}' <= c <= '\U{200A}')
    || c == '\U{2028}' || c == '\U{2029}' || c == '\U{202F}' || c == '\U{205F}'
    || c == '\U{3000}' || c == '\U{FEFF}'
  }

  function TrimStart(s: string): (r: string)
    ensures |r| <= |s| && r == s[|s| - |r|..]
    ensures forall k :: 0 <= k < |s| - |r| ==> IsSpace(s[k])
    ensures |r| > 0 ==> !IsSpace(r[0])
  {
    if |s| > 0 && IsSpace(s[0]) then TrimStart(s[1..]) else s
  }

  function TrimEnd(s: string): (r: string)
    ensures |r| <= |s| && r == s[..|r|]
    ensures forall k :: |r| <= k < |s| ==> IsSpace(s[k])
    ensures |r| > 0 ==> !IsSpace(r[|r| - 1])
  {
    if |s| > 0 && IsSpace(s[|s| - 1]) then TrimEnd(s[..|s| - 1]) else s
  }

  /** Number of white-space characters `trim` removes from the front of `s`. */
  function TrimOffset(s: string): nat {
    |s| - |TrimStart(s)|
  }

  /** `s.trim()`: `s` with its leading and trailing white space removed. */
  function Trim(s: string): (r: string)
    ensures TrimOffset(s) + |r| <= |s| && r == s[TrimOffset(s)..TrimOffset(s) + |r|]
    ensures forall k :: 0 <= k < TrimOffset(s) ==> IsSpace(s[k])
    ensures forall k :: TrimOffset(s) + |r| <= k < |s| ==> IsSpace(s[k])
    ensures |r| > 0 ==> !IsSpace(r[0]) && !IsSpace(r[|r| - 1])
  {
    var a := TrimStart(s);
    var r := TrimEnd(a);
    TrimShape(s, a, r);
    r
  }

  lemma TrimShape(s: string, a: string, r: string)
    requires |a| <= |s| && a == s[|s| - |a|..]
    requires |r| <= |a| && r == a[..|r|]
    requires forall k :: |r| <= k < |a| ==> IsSpace(a[k])
    ensures |s| - |a| + |r| <= |s| && r == s[|s| - |a|..|s| - |a| + |r|]
    ensures forall k :: |s| - |a| + |r| <= k < |s| ==> IsSpace(s[k])
  {
    var o := |s| - |a|;
    forall k | o + |r| <= k < |s|
      ensures IsSpace(s[k])
    {
      assert s[k] == a[k - o];
    }
  }

  lemma {:induction false} TrimIdempotent(s: string)
    ensures Trim(Trim(s)) == Trim(s)
  {
    var t := Trim(s);
    if |t| > 0 {
      TrimOfUnpadded(t);
    }
  }

  /** A string that neither starts nor ends with white space is its own trim. */
  lemma TrimOfUnpadded(t: string)
    requires |t| > 0 ==> !IsSpace(t[0]) && !IsSpace(t[|t| - 1])
    ensures Trim(t) == t
  {
    assert TrimStart(t) == t;
    assert TrimEnd(t) == t;
  }
}
