/** The spreadsheet as the import code sees it through openpyxl with
    `values_only=True`: a workbook is an ordered sequence of named sheets,
    a sheet an ordered sequence of rows (row 1 first), a row a tuple of
    cell values. */
module Workbook {
  import opened PyText

  /** A cell value: `None`, a string, or a number. */
  datatype Cell = Empty | Text(text: string) | Num(n: int)

  type Row = seq<Cell>
  type Sheet = seq<Row>

  datatype NamedSheet = NamedSheet(name: string, rows: Sheet)

  type Book = seq<NamedSheet>

  /** `str(cell)`: `None` renders as "None". */
  function Str(c: Cell): string {
    match c
    case Empty => "None"
    case Text(s) => s
    case Num(n) => IntToDecimal(n)
  }

  /** Python truthiness of a cell value (`if cell:`). */
  predicate Truthy(c: Cell) {
    match c
    case Empty => false
    case Text(s) => s != ""
    case Num(n) => n != 0
  }

  /** `str(cell).strip()`: the name a cell contributes. */
  function CellName(c: Cell): string {
    Strip(Str(c))
  }

  /** A number never renders blank, so `str(n).strip()` is never empty. */
  lemma NumNameNotBlank(n: int)
    ensures CellName(Num(n)) != ""
  {
    var r := IntToDecimal(n);
    StripEmptyIff(r);
    assert !IsSpace(r[0]);
  }

  /** A truthy cell has a blank name exactly when it is a non-empty
      whitespace-only string. */
  lemma TruthyBlankIff(c: Cell)
    requires Truthy(c)
    ensures CellName(c) == "" <==> c.Text? && AllSpace(c.text)
  {
    match c
    case Text(s) => StripEmptyIff(s);
    case Num(n) => NumNameNotBlank(n);
  }

  /** `None` renders as the string "None", which is not blank. */
  lemma EmptyNameIsNone()
    ensures CellName(Empty) == "None"
  {
    assert !IsSpace('N') && !IsSpace('e');
    assert StripLeft("None") == "None";
    assert StripRight("None") == "None";
  }
}
