/** The two versions of `init_reference_data_from_excel` side by side.
    They agree when row 1 has no gap before a unit and no cell holds 0;
    when row 1 has a gap, the compacted version attaches the cells right of
    the gap to the wrong Anlage. */
module Comparison {
  import opened PyText
  import opened Workbook
  import opened RefStore
  import opened Hierarchy
  import A = AlignedImport
  import C = CompactImport

  /** A row-1 cell neither version reads as an Anlage: `None` or the empty
      string, as openpyxl pads a row 1 shorter than a later row. */
  predicate BlankCell(c: Cell) {
    c == Empty || c == Text("")
  }

  /** Row 1 is a run of cells that name an Anlage under both tests,
      followed only by blank cells: no gap before a unit, no
      whitespace-only cell and no 0 cell. */
  predicate PaddedUnitRow(cells: Row) {
    (forall k :: 0 <= k < |cells| ==> BlankCell(cells[k]) || (Truthy(cells[k]) && CellName(cells[k]) != "")) &&
    (forall i, k :: 0 <= i < k < |cells| && BlankCell(cells[i]) ==> BlankCell(cells[k]))
  }

  /** No cell of the later rows holds the number 0. */
  predicate NoZeroCells(rows: seq<Row>) {
    forall j, c :: 0 <= j < |rows| && 0 <= c < |rows[j]| ==> rows[j][c] != Num(0)
  }

  /** Every recorded id is a truthy key. */
  predicate NonZeroIds(ids: seq<Option<nat>>) {
    forall k :: 0 <= k < |ids| && ids[k].Some? ==> ids[k].value != 0
  }

  /** The column-aligned id list `aids` is the compacted list `cids`
      followed by `None` entries. */
  predicate PaddedIds(aids: seq<Option<nat>>, cids: seq<Option<nat>>) {
    |cids| <= |aids| &&
    (forall k :: 0 <= k < |cids| ==> aids[k] == cids[k]) &&
    (forall k :: |cids| <= k < |aids| ==> aids[k].None?)
  }

  lemma PaddedUnitRowPrefix(cells: Row, n: nat)
    requires PaddedUnitRow(cells) && n <= |cells|
    ensures PaddedUnitRow(cells[..n])
  {
    assert forall k :: 0 <= k < n ==> cells[..n][k] == cells[k];
  }

  /** RUN.py's id list `aids` has one entry per row-1 cell and is the
      compacted list `cids` padded with `None`; the compacted list reaches
      exactly over the non-blank cells. */
  predicate IdsMatch(cells: Row, aids: seq<Option<nat>>, cids: seq<Option<nat>>) {
    |aids| == |cells| && PaddedIds(aids, cids) &&
    forall k :: 0 <= k < |cells| ==> (k < |cids| <==> !BlankCell(cells[k]))
  }

  /** A blank cell adds `None` to RUN.py's list only. */
  lemma BlankCellIds(cells: Row, cell: Cell, aids: seq<Option<nat>>, cids: seq<Option<nat>>)
    requires IdsMatch(cells, aids, cids) && BlankCell(cell)
    ensures IdsMatch(cells + [cell], aids + [None], cids)
  {
    assert forall k :: 0 <= k < |cells| ==> (cells + [cell])[k] == cells[k];
  }

  /** A unit cell after non-blank cells only adds the same id to both lists. */
  lemma UnitCellIds(cells: Row, cell: Cell, aids: seq<Option<nat>>, cids: seq<Option<nat>>, x: Option<nat>)
    requires IdsMatch(cells, aids, cids) && !BlankCell(cell)
    requires forall k :: 0 <= k < |cells| ==> !BlankCell(cells[k])
    ensures IdsMatch(cells + [cell], aids + [x], cids + [x])
  {
    if |cells| > 0 {
      var k := |cells| - 1;
      assert !BlankCell(cells[k]);
      assert k < |cids|;
    }
    assert forall k :: 0 <= k < |cells| ==> (cells + [cell])[k] == cells[k];
  }

  /** On a padded row 1 both loops issue the same inserts, and RUN.py's id
      list is the compacted one followed by `None` entries. */
  lemma {:induction false} UnitsAgree(t: Tables, abteilungId: nat, cells: Row, pick: Chooser)
    requires PaddedUnitRow(cells)
    ensures A.Units(t, abteilungId, cells, pick).0 == C.Units(t, abteilungId, C.UnitNames(cells), pick).0
    ensures IdsMatch(cells, A.Units(t, abteilungId, cells, pick).1, C.Units(t, abteilungId, C.UnitNames(cells), pick).1)
    decreases |cells|
  {
    if cells != [] {
      var n := |cells| - 1;
      var cell := cells[n];
      PaddedUnitRowPrefix(cells, n);
      UnitsAgree(t, abteilungId, cells[..n], pick);
      var names0 := C.UnitNames(cells[..n]);
      var a0 := A.Units(t, abteilungId, cells[..n], pick);
      var c0 := C.Units(t, abteilungId, names0, pick);
      assert cells == cells[..n] + [cell];
      if BlankCell(cell) {
        assert CellName(Text("")) == "";
        assert C.UnitNames(cells) == names0;
        BlankCellIds(cells[..n], cell, a0.1, c0.1);
      } else {
        assert forall k :: 0 <= k < n ==> !BlankCell(cells[..n][k]);
        assert A.UnitCell(cell);
        var name := CellName(cell);
        assert C.UnitNames(cells) == names0 + [name];
        assert (names0 + [name])[..|names0|] == names0;
        var t1 := a0.0.InsertAnlage(abteilungId, name);
        var x := t1.SelectAnlageId(abteilungId, name, pick);
        assert C.Units(t, abteilungId, names0 + [name], pick) == (t1, c0.1 + [x]);
        UnitCellIds(cells[..n], cell, a0.1, c0.1, x);
      }
    }
  }

  /** Without 0 cells, and with truthy ids, both tests pick the same cells
      of a later row, under the same ids. */
  lemma {:induction false} RowLinksAgree(aids: seq<Option<nat>>, cids: seq<Option<nat>>, row: Row)
    requires NonZeroIds(aids) && PaddedIds(aids, cids)
    requires forall c :: 0 <= c < |row| ==> row[c] != Num(0)
    ensures A.RowLinks(aids, row) == C.RowLinks(cids, row)
    decreases |row|
  {
    if row != [] {
      var n := |row| - 1;
      RowLinksAgree(aids, cids, row[..n]);
      var cell := row[n];
      assert A.PartCell(aids, n, cell) <==> C.PartCell(cids, n, cell) by {
        if cell.Text? && cell.text == "" {
          assert CellName(cell) == "";
        }
      }
      if A.PartCell(aids, n, cell) {
        assert aids[n] == cids[n];
      }
    }
  }

  lemma {:induction false} LinksAgree(aids: seq<Option<nat>>, cids: seq<Option<nat>>, rows: seq<Row>)
    requires NonZeroIds(aids) && PaddedIds(aids, cids) && NoZeroCells(rows)
    ensures A.Links(aids, rows) == C.Links(cids, rows)
    decreases |rows|
  {
    if rows != [] {
      var n := |rows| - 1;
      assert NoZeroCells(rows[..n]) by {
        forall j, c | 0 <= j < n && 0 <= c < |rows[..n][j]|
          ensures rows[..n][j][c] != Num(0)
        {
          assert rows[..n][j] == rows[j];
        }
      }
      LinksAgree(aids, cids, rows[..n]);
      RowLinksAgree(aids, cids, rows[n]);
    }
  }

  /** Ids recorded in a consistent database are keys, and keys are positive. */
  lemma ResolvedIdsNonZero(t: Tables, ids: seq<Option<nat>>)
    requires t.Valid() && A.IdsResolve(t, ids)
    ensures NonZeroIds(ids)
  {
    forall k | 0 <= k < |ids| && ids[k].Some?
      ensures ids[k].value != 0
    {
      var a :| a in t.anlagen && a.id == ids[k].value;
      var i :| 0 <= i < |t.anlagen| && t.anlagen[i] == a;
    }
  }

  /** If row 1 has no gap before a unit, no whitespace-only and no 0 cell,
      and no later cell holds 0, the two versions build the same hierarchy
      from a consistent database. */
  lemma SameHierarchyWithoutGaps(t: Tables, s: NamedSheet, pick: Chooser)
    requires t.Valid()
    requires s.rows != [] ==> PaddedUnitRow(s.rows[0]) && NoZeroCells(s.rows[1..])
    ensures A.ApplySheet(t, s, pick) == C.ApplySheet(t, s, pick)
  {
    match DepartmentName(s.name)
    case None =>
    case Some(name) =>
      var t1 := t.InsertOrIgnoreAbteilung(name);
      InsertOrIgnoreAbteilungValid(t, name);
      match t1.SelectAbteilungId(name)
      case None =>
      case Some(abteilungId) =>
        if s.rows != [] {
          UnitsAgree(t1, abteilungId, s.rows[0], pick);
          var (t2, ids) := A.Units(t1, abteilungId, s.rows[0], pick);
          A.UnitsValid(t1, abteilungId, s.rows[0], pick);
          ResolvedIdsNonZero(t2, ids);
          LinksAgree(ids, C.Units(t1, abteilungId, C.UnitNames(s.rows[0]), pick).1, s.rows[1..]);
        }
  }

  /** The same for a whole workbook. */
  lemma {:induction false} SameImportWithoutGaps(t: Tables, book: Book, pick: Chooser)
    requires t.Valid()
    requires forall i :: 0 <= i < |book| && book[i].rows != [] ==>
      PaddedUnitRow(book[i].rows[0]) && NoZeroCells(book[i].rows[1..])
    ensures A.ApplyBook(t, book, pick) == C.ApplyBook(t, book, pick)
    decreases |book|
  {
    if book != [] {
      var n := |book| - 1;
      forall i | 0 <= i < n
        ensures book[..n][i] == book[i]
      {
      }
      SameImportWithoutGaps(t, book[..n], pick);
      A.BookValid(t, book[..n], pick);
      SameHierarchyWithoutGaps(A.ApplyBook(t, book[..n], pick), book[n], pick);
    }
  }

  /** A sheet whose row 1 has a gap in its middle column. */
  const GapSheet: NamedSheet := NamedSheet("S", [[Text("A"), Empty, Text("B")], [Text("x1"), Text("y"), Text("x2")]])

  /** The database after the Abteilung "S" was created, and after its
      Anlagen A and B were added. */
  const GapDepartment: Tables := Tables([Abteilung(1, "S")], [], [], 1, 0, 0)
  const GapUnits: Tables := Tables([Abteilung(1, "S")], [Anlage(1, 1, "A"), Anlage(2, 1, "B")], [], 1, 2, 0)

  lemma GapDepartmentName()
    ensures DepartmentName("S") == Some("S")
  {
    StripPlain("S");
  }

  lemma GapNames()
    ensures CellName(Text("A")) == "A" && CellName(Text("B")) == "B" && CellName(Empty) == "None"
    ensures CellName(Text("x1")) == "x1" && CellName(Text("y")) == "y" && CellName(Text("x2")) == "x2"
  {
    StripPlain("A");
    StripPlain("B");
    StripPlain("x1");
    StripPlain("y");
    StripPlain("x2");
    EmptyNameIsNone();
  }

  /** Each SELECT finds exactly the row just inserted, whatever `pick` is. */
  lemma GapStore(pick: Chooser)
    ensures Fresh.InsertOrIgnoreAbteilung("S") == GapDepartment
    ensures GapDepartment.SelectAbteilungId("S") == Some(1)
    ensures GapDepartment.InsertAnlage(1, "A").SelectAnlageId(1, "A", pick) == Some(1)
    ensures GapDepartment.InsertAnlage(1, "A").InsertAnlage(1, "B") == GapUnits
    ensures GapUnits.SelectAnlageId(1, "B", pick) == Some(2)
  {
    var ta := GapDepartment.InsertAnlage(1, "A");
    assert MatchingAnlagen(ta.anlagen, 1, "A") == [1];
    var tb := GapUnits;
    assert tb.anlagen[1..] == [Anlage(2, 1, "B")] && tb.anlagen[1..][1..] == [];
    assert MatchingAnlagen(tb.anlagen[1..], 1, "B") == [2];
    assert MatchingAnlagen(tb.anlagen, 1, "B") == [2];
  }

  /** The first two cells of row 1: A is created, the gap records no id. */
  lemma AlignedGapPrefix(pick: Chooser)
    ensures A.Units(GapDepartment, 1, GapSheet.rows[0][..2], pick) == (GapDepartment.InsertAnlage(1, "A"), [Some(1), None])
  {
    GapNames();
    GapStore(pick);
    var row1 := GapSheet.rows[0];
    var ta := GapDepartment.InsertAnlage(1, "A");
    var e: seq<Option<nat>> := [];
    var i1: seq<Option<nat>> := [Some(1)];
    var i2: seq<Option<nat>> := [Some(1), None];
    assert row1[..1][..0] == [] && row1[..2][..1] == row1[..1];
    assert row1[..2][1] == Empty;
    assert A.UnitCell(Text("A")) && !A.UnitCell(Empty);
    assert A.UnitStep((GapDepartment, e), 1, Text("A"), pick).1 == i1;
    assert A.Units(GapDepartment, 1, row1[..1], pick) == (ta, i1);
    assert i1 + [None] == i2;
    assert A.UnitStep((ta, i1), 1, Empty, pick).1 == i2;
  }

  lemma AlignedGapUnits(pick: Chooser)
    ensures A.Units(GapDepartment, 1, GapSheet.rows[0], pick) == (GapUnits, [Some(1), None, Some(2)])
  {
    GapNames();
    GapStore(pick);
    AlignedGapPrefix(pick);
    var row1 := GapSheet.rows[0];
    var ta := GapDepartment.InsertAnlage(1, "A");
    var i2: seq<Option<nat>> := [Some(1), None];
    var i3: seq<Option<nat>> := [Some(1), None, Some(2)];
    assert row1[..2] == row1[..3][..2] && row1[2] == Text("B");
    assert A.UnitCell(Text("B"));
    assert i2 + [Some(2)] == i3;
    assert A.UnitStep((ta, i2), 1, Text("B"), pick).1 == i3;
  }

  lemma AlignedGapLinks()
    ensures A.Links([Some(1), None, Some(2)], GapSheet.rows[1..]) == [Link(1, "x1"), Link(2, "x2")]
  {
    GapNames();
    var ids: seq<Option<nat>> := [Some(1), None, Some(2)];
    var row2 := GapSheet.rows[1];
    var rest: seq<Row> := [row2];
    assert rest[..0] == [] && GapSheet.rows[1..] == rest;
    assert row2[..1][..0] == [] && row2[..2][..1] == row2[..1] && row2[..2] == row2[..3][..2];
    assert row2[..2][1] == Text("y") && row2[2] == Text("x2");
    var l0: seq<Link> := [];
    var l1: seq<Link> := [Link(1, "x1")];
    var l2: seq<Link> := [Link(1, "x1"), Link(2, "x2")];
    assert A.PartCell(ids, 0, Text("x1")) && !A.PartCell(ids, 1, Text("y")) && A.PartCell(ids, 2, Text("x2"));
    assert A.RowLinks(ids, row2[..1]) == l0 + l1;
    assert A.RowLinks(ids, row2[..2]) == l1 + l0;
    assert A.RowLinks(ids, row2) == l1 + [Link(2, "x2")];
    assert A.RowLinks(ids, row2) == l2;
    assert A.Links(ids, rest) == l0 + l2;
  }

  /** The compacted list skips the gap. */
  lemma CompactGapNames()
    ensures C.UnitNames(GapSheet.rows[0]) == ["A", "B"]
  {
    GapNames();
    var row1 := GapSheet.rows[0];
    assert row1[..1][..0] == [] && row1[..2][..1] == row1[..1] && row1[..2] == row1[..3][..2];
    assert row1[..2][1] == Empty && row1[2] == Text("B");
    var n0: seq<string> := [];
    var n1: seq<string> := ["A"];
    assert C.UnitNames(row1[..1]) == n0 + n1;
    assert C.UnitNames(row1[..2]) == n1 + n0;
    assert C.UnitNames(row1) == n1 + ["B"];
  }

  lemma CompactGapUnits(pick: Chooser)
    ensures C.UnitNames(GapSheet.rows[0]) == ["A", "B"]
    ensures C.Units(GapDepartment, 1, ["A", "B"], pick) == (GapUnits, [Some(1), Some(2)])
  {
    CompactGapNames();
    GapStore(pick);
    var ta := GapDepartment.InsertAnlage(1, "A");
    var names: seq<string> := ["A", "B"];
    var n1: seq<string> := ["A"];
    var e: seq<Option<nat>> := [];
    var i1: seq<Option<nat>> := [Some(1)];
    var i2: seq<Option<nat>> := [Some(1), Some(2)];
    assert names[..1][..0] == [] && names[..1] == n1;
    assert C.UnitStep((GapDepartment, e), 1, "A", pick).1 == i1;
    assert C.Units(GapDepartment, 1, names[..1], pick) == (ta, i1);
    assert i1 + [Some(2)] == i2;
    assert C.UnitStep((ta, i1), 1, "B", pick).1 == i2;
  }

  lemma CompactGapLinks()
    ensures C.Links([Some(1), Some(2)], GapSheet.rows[1..]) == [Link(1, "x1"), Link(2, "y")]
  {
    GapNames();
    var ids: seq<Option<nat>> := [Some(1), Some(2)];
    var row2 := GapSheet.rows[1];
    var rest: seq<Row> := [row2];
    assert rest[..0] == [] && GapSheet.rows[1..] == rest;
    assert row2[..1][..0] == [] && row2[..2][..1] == row2[..1] && row2[..2] == row2[..3][..2];
    assert row2[..2][1] == Text("y") && row2[2] == Text("x2");
    var l0: seq<Link> := [];
    var l1: seq<Link> := [Link(1, "x1")];
    var l2: seq<Link> := [Link(1, "x1"), Link(2, "y")];
    assert C.PartCell(ids, 0, Text("x1")) && C.PartCell(ids, 1, Text("y")) && !C.PartCell(ids, 2, Text("x2"));
    assert C.RowLinks(ids, row2[..1]) == l0 + l1;
    assert C.RowLinks(ids, row2[..2]) == l1 + [Link(2, "y")];
    assert C.RowLinks(ids, row2) == l2 + l0;
    assert C.Links(ids, rest) == l0 + l2;
  }

  /** Inserting two parts into `GapUnits`. */
  lemma GapParts(x: Link, y: Link)
    ensures ApplyLinks(GapUnits, [x, y]).anlagen == GapUnits.anlagen
    ensures ApplyLinks(GapUnits, [x, y]).anlagenteile == [Anlagenteil(1, x.anlageId, x.name), Anlagenteil(2, y.anlageId, y.name)]
  {
    ApplyLinksRows(GapUnits, [x, y]);
  }

  /** RUN.py on the gap sheet, into an empty database. */
  lemma AlignedGapSheet(pick: Chooser)
    ensures A.ApplySheet(Fresh, GapSheet, pick).anlagen == [Anlage(1, 1, "A"), Anlage(2, 1, "B")]
    ensures A.ApplySheet(Fresh, GapSheet, pick).anlagenteile == [Anlagenteil(1, 1, "x1"), Anlagenteil(2, 2, "x2")]
  {
    GapDepartmentName();
    GapStore(pick);
    AlignedGapUnits(pick);
    AlignedGapLinks();
    assert A.ApplySheet(Fresh, GapSheet, pick) == ApplyLinks(GapUnits, [Link(1, "x1"), Link(2, "x2")]);
    GapParts(Link(1, "x1"), Link(2, "x2"));
  }

  /** The compacted version on the gap sheet, into an empty database. */
  lemma CompactGapSheet(pick: Chooser)
    ensures C.ApplySheet(Fresh, GapSheet, pick).anlagen == [Anlage(1, 1, "A"), Anlage(2, 1, "B")]
    ensures C.ApplySheet(Fresh, GapSheet, pick).anlagenteile == [Anlagenteil(1, 1, "x1"), Anlagenteil(2, 2, "y")]
  {
    GapDepartmentName();
    GapStore(pick);
    CompactGapUnits(pick);
    CompactGapLinks();
    assert C.ApplySheet(Fresh, GapSheet, pick) == ApplyLinks(GapUnits, [Link(1, "x1"), Link(2, "y")]);
    GapParts(Link(1, "x1"), Link(2, "y"));
  }

  /** Into an empty database, both versions create the Anlagen A (id 1)
      and B (id 2); RUN.py then hangs x1 under A and x2 under B and drops
      the orphan y, while the compacted version hangs y, the cell under
      the gap, under B and drops x2. */
  lemma GapShiftsParts(pick: Chooser)
    ensures A.ApplySheet(Fresh, GapSheet, pick).anlagen == [Anlage(1, 1, "A"), Anlage(2, 1, "B")]
    ensures A.ApplySheet(Fresh, GapSheet, pick).anlagenteile == [Anlagenteil(1, 1, "x1"), Anlagenteil(2, 2, "x2")]
    ensures C.ApplySheet(Fresh, GapSheet, pick).anlagen == [Anlage(1, 1, "A"), Anlage(2, 1, "B")]
    ensures C.ApplySheet(Fresh, GapSheet, pick).anlagenteile == [Anlagenteil(1, 1, "x1"), Anlagenteil(2, 2, "y")]
  {
    AlignedGapSheet(pick);
    CompactGapSheet(pick);
  }

  /** The two tests disagree on two kinds of row-1 cell: a whitespace-only
      string creates no Anlage in RUN.py but an Anlage with an empty name
      in the compacted version, and the number 0 creates the Anlage "0"
      in RUN.py but nothing in the compacted version. */
  lemma OddUnitCells(t: Tables, abteilungId: nat, s: string, pick: Chooser)
    requires s != [] && AllSpace(s)
    ensures A.Units(t, abteilungId, [Text(s)], pick).0 == t
    ensures C.Units(t, abteilungId, C.UnitNames([Text(s)]), pick).0.anlagen == t.anlagen + [Anlage(t.anlageSeq + 1, abteilungId, "")]
    ensures A.Units(t, abteilungId, [Num(0)], pick).0.anlagen == t.anlagen + [Anlage(t.anlageSeq + 1, abteilungId, "0")]
    ensures C.Units(t, abteilungId, C.UnitNames([Num(0)]), pick).0 == t
  {
    C.UnitNamesOfOddCells(s);
    StripEmptyIff(s);
    assert [Text(s)][..0] == [] && [Num(0)][..0] == [];
    var names: seq<string> := [""];
    assert names[..0] == [];
    assert IntToDecimal(0) == "0";
    StripPlain("0");
  }
}
