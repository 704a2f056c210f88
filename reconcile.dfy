/** The pure half of `dynamic_populate`: matching the spreadsheet's header
    row against the table's columns and building one argument tuple per
    data row. */
module Reconcile {
  import opened PyText
  import opened Workbook

  /** `str(cell).strip().lower()`, as applied to each header cell. */
  function NormalizeHeader(c: Cell): string {
    Lower(Strip(Str(c)))
  }

  /** An empty header cell becomes the header "none", which matches a table
      column of that name. */
  lemma EmptyHeaderIsNone()
    ensures NormalizeHeader(Empty) == "none"
  {
    EmptyNameIsNone();
    var r := Lower("None");
    assert r[0] == 'n' && r[1] == 'o' && r[2] == 'n' && r[3] == 'e';
  }

  function Headers(row: Row): (r: seq<string>)
    ensures |r| == |row|
    ensures forall i :: 0 <= i < |row| ==> r[i] == NormalizeHeader(row[i])
  {
    seq(|row|, i requires 0 <= i < |row| => NormalizeHeader(row[i]))
  }

  /** `row[1].strip().lower()` over the rows of `PRAGMA table_info`. */
  function DbColumns(names: seq<string>): (r: seq<string>)
    ensures |r| == |names|
    ensures forall i :: 0 <= i < |names| ==> r[i] == Lower(Strip(names[i]))
  {
    seq(|names|, i requires 0 <= i < |names| => Lower(Strip(names[i])))
  }

  /** `[col for col in db_columns if col in headers]`. */
  function CommonColumns(dbColumns: seq<string>, headers: seq<string>): seq<string>
    decreases |dbColumns|
  {
    if dbColumns == [] then []
    else
      var n := |dbColumns| - 1;
      CommonColumns(dbColumns[..n], headers) + (if dbColumns[n] in headers then [dbColumns[n]] else [])
  }

  /** A column is common exactly when the table has it and the header row
      names it. */
  lemma {:induction false} CommonColumnsIff(dbColumns: seq<string>, headers: seq<string>)
    ensures forall c :: c in CommonColumns(dbColumns, headers) <==> c in dbColumns && c in headers
    ensures |CommonColumns(dbColumns, headers)| <= |dbColumns|
    decreases |dbColumns|
  {
    if dbColumns != [] {
      var n := |dbColumns| - 1;
      CommonColumnsIff(dbColumns[..n], headers);
      assert dbColumns == dbColumns[..n] + [dbColumns[n]];
    }
  }

  /** The common columns keep the table's order: splitting the table's
      column list splits the result the same way. */
  lemma {:induction false} CommonColumnsAppend(a: seq<string>, b: seq<string>, headers: seq<string>)
    ensures CommonColumns(a + b, headers) == CommonColumns(a, headers) + CommonColumns(b, headers)
    decreases |b|
  {
    if b == [] {
      assert a + b == a;
    } else {
      var n := |b| - 1;
      CommonColumnsAppend(a, b[..n], headers);
      assert (a + b)[..|a + b| - 1] == a + b[..n];
    }
  }

  /** `{h: i for i, h in enumerate(headers)}`: a later duplicate header
      overwrites the index of an earlier one. */
  function HeaderIndex(headers: seq<string>): map<string, nat>
    decreases |headers|
  {
    if headers == [] then map[]
    else
      var n := |headers| - 1;
      HeaderIndex(headers[..n])[headers[n] := n]
  }

  /** `p` is the last position of `h` in `headers`. */
  predicate LastAt(headers: seq<string>, h: string, p: int) {
    0 <= p < |headers| && headers[p] == h && forall j :: p < j < |headers| ==> headers[j] != h
  }

  /** The index knows every header, and maps it to its last position. */
  lemma {:induction false} HeaderIndexLast(headers: seq<string>)
    ensures forall h :: h in HeaderIndex(headers) <==> h in headers
    ensures forall h :: h in HeaderIndex(headers) ==> LastAt(headers, h, HeaderIndex(headers)[h])
    decreases |headers|
  {
    if headers != [] {
      var n := |headers| - 1;
      HeaderIndexLast(headers[..n]);
      var m0 := HeaderIndex(headers[..n]);
      assert headers == headers[..n] + [headers[n]];
      forall h | h in HeaderIndex(headers)
        ensures LastAt(headers, h, HeaderIndex(headers)[h])
      {
        if h != headers[n] {
          assert LastAt(headers[..n], h, m0[h]);
        }
      }
    }
  }

  /** The argument tuple of one data row: per common column the cell under
      its header, `None` when the row is too short. */
  function DataTuple(row: Row, common: seq<string>, index: map<string, nat>): (r: seq<Cell>)
    ensures |r| == |common|
  {
    seq(|common|, i requires 0 <= i < |common| =>
      if common[i] in index && index[common[i]] < |row| then row[index[common[i]]] else Empty)
  }

  /** `v` is what the row holds under the last column headed `h`, or
      `None` when the row does not reach that column. */
  predicate EntryFor(headers: seq<string>, row: Row, h: string, v: Cell) {
    exists p :: 0 <= p < |headers| && LastAt(headers, h, p) && v == (if p < |row| then row[p] else Empty)
  }

  /** Each tuple entry comes from the last column carrying that header. */
  lemma DataTupleSpec(row: Row, headers: seq<string>, common: seq<string>)
    requires forall i :: 0 <= i < |common| ==> common[i] in headers
    ensures var r := DataTuple(row, common, HeaderIndex(headers));
      forall i :: 0 <= i < |common| ==> EntryFor(headers, row, common[i], r[i])
  {
    HeaderIndexLast(headers);
    var m := HeaderIndex(headers);
    var r := DataTuple(row, common, m);
    forall i | 0 <= i < |common|
      ensures EntryFor(headers, row, common[i], r[i])
    {
      assert LastAt(headers, common[i], m[common[i]]);
    }
  }

  /** `", ".join(["?"] * n)`. */
  function Placeholders(n: nat): string
    decreases n
  {
    if n == 0 then "" else if n == 1 then "?" else Placeholders(n - 1) + ", ?"
  }

  function Occurrences(s: string, c: char): nat
    decreases |s|
  {
    if s == [] then 0 else Occurrences(s[..|s| - 1], c) + (if s[|s| - 1] == c then 1 else 0)
  }

  lemma {:induction false} OccurrencesAppend(a: string, b: string, c: char)
    ensures Occurrences(a + b, c) == Occurrences(a, c) + Occurrences(b, c)
    decreases |b|
  {
    if b == [] {
      assert a + b == a;
    } else {
      var n := |b| - 1;
      OccurrencesAppend(a, b[..n], c);
      assert (a + b)[..|a + b| - 1] == a + b[..n];
    }
  }

  /** The statement has one `?` per common column, separated by ", ". */
  lemma {:induction false} PlaceholdersCount(n: nat)
    ensures Occurrences(Placeholders(n), '?') == n
    ensures |Placeholders(n)| == if n == 0 then 0 else 3 * n - 2
    decreases n
  {
    if n > 1 {
      PlaceholdersCount(n - 1);
      OccurrencesAppend(Placeholders(n - 1), ", ?", '?');
      assert ", ?"[..2] == ", " && ", ?"[..2][..1] == "," && ", ?"[..2][..1][..0] == "";
    } else if n == 1 {
      assert "?"[..0] == "";
    }
  }
}
