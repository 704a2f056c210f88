/** What RUN.py's hierarchy import promises: which sheets are skipped,
    that every Anlagenteil hangs under the Anlage of its own column, and
    that a second import adds no Abteilung (but, for lack of a UNIQUE
    constraint, does add every Anlage again). */
module AlignedProperties {
  import opened PyText
  import opened Workbook
  import opened RefStore
  import opened Hierarchy
  import opened AlignedImport

  /** A skipped or blank-named sheet leaves every table as it was. */
  lemma SkippedSheetUnchanged(t: Tables, s: NamedSheet, pick: Chooser)
    requires s.name in SkipSheets || AllSpace(s.name)
    ensures ApplySheet(t, s, pick) == t
  {
  }

  /** The skip list is matched before stripping: " General" is imported as
      the Abteilung "General". */
  lemma PaddedSkipNameImported()
    ensures DepartmentName(" General") == Some("General")
  {
    assert " General"[1..] == "General";
    assert StripLeft(" General") == "General";
    assert StripRight("General") == "General";
  }

  /** A sheet without rows still gets (or keeps) its Abteilung, but creates
      no Anlage and no Anlagenteil. */
  lemma EmptySheetOnlyAbteilung(t: Tables, name: string, pick: Chooser)
    requires DepartmentName(name).Some?
    ensures var r := ApplySheet(t, NamedSheet(name, []), pick);
      r == t.InsertOrIgnoreAbteilung(Strip(name)) &&
      Strip(name) in r.AbteilungNames() &&
      r.anlagen == t.anlagen && r.anlagenteile == t.anlagenteile
  {
    InsertOrIgnoreAbteilungNames(t, Strip(name));
  }

  /** The inserts a later row issues come from its own cells, one per cell
      that passes RUN.py's test, linked to that cell's column. */
  predicate FromColumn(ids: seq<Option<nat>>, row: Row, c: int, l: Link) {
    0 <= c < |row| && PartCell(ids, c, row[c]) && l == Link(ids[c].value, CellName(row[c]))
  }

  /** Every insert of a later row comes from one of its cells. */
  lemma {:induction false} RowLinksSound(ids: seq<Option<nat>>, row: Row, l: Link)
    requires l in RowLinks(ids, row)
    ensures exists c :: FromColumn(ids, row, c, l)
    decreases |row|
  {
    var n := |row| - 1;
    var last := if PartCell(ids, n, row[n]) then [Link(ids[n].value, CellName(row[n]))] else [];
    assert RowLinks(ids, row) == RowLinks(ids, row[..n]) + last;
    if l in RowLinks(ids, row[..n]) {
      RowLinksSound(ids, row[..n], l);
      var c :| FromColumn(ids, row[..n], c, l);
      assert row[..n][c] == row[c];
      assert FromColumn(ids, row, c, l);
    } else {
      assert FromColumn(ids, row, n, l);
    }
  }

  /** Every cell of a later row that passes the test is inserted. */
  lemma {:induction false} RowLinksComplete(ids: seq<Option<nat>>, row: Row, c: int, l: Link)
    requires FromColumn(ids, row, c, l)
    ensures l in RowLinks(ids, row)
    decreases |row|
  {
    var n := |row| - 1;
    var last := if PartCell(ids, n, row[n]) then [Link(ids[n].value, CellName(row[n]))] else [];
    assert RowLinks(ids, row) == RowLinks(ids, row[..n]) + last;
    if c < n {
      assert row[..n][c] == row[c];
      RowLinksComplete(ids, row[..n], c, l);
    } else {
      assert last == [l];
    }
  }

  predicate FromCell(ids: seq<Option<nat>>, rows: seq<Row>, j: int, c: int, l: Link) {
    0 <= j < |rows| && FromColumn(ids, rows[j], c, l)
  }

  /** Every insert of the later rows comes from one of their cells. */
  lemma {:induction false} LinksSound(ids: seq<Option<nat>>, rows: seq<Row>, l: Link)
    requires l in Links(ids, rows)
    ensures exists j, c :: FromCell(ids, rows, j, c, l)
    decreases |rows|
  {
    var n := |rows| - 1;
    assert Links(ids, rows) == Links(ids, rows[..n]) + RowLinks(ids, rows[n]);
    if l in Links(ids, rows[..n]) {
      LinksSound(ids, rows[..n], l);
      var j, c :| FromCell(ids, rows[..n], j, c, l);
      assert rows[..n][j] == rows[j];
      assert FromCell(ids, rows, j, c, l);
    } else {
      RowLinksSound(ids, rows[n], l);
      var c :| FromColumn(ids, rows[n], c, l);
      assert FromCell(ids, rows, n, c, l);
    }
  }

  /** Every cell of the later rows that passes the test is inserted. */
  lemma {:induction false} LinksComplete(ids: seq<Option<nat>>, rows: seq<Row>, j: int, c: int, l: Link)
    requires FromCell(ids, rows, j, c, l)
    ensures l in Links(ids, rows)
    decreases |rows|
  {
    var n := |rows| - 1;
    assert Links(ids, rows) == Links(ids, rows[..n]) + RowLinks(ids, rows[n]);
    if j < n {
      assert rows[..n][j] == rows[j];
      LinksComplete(ids, rows[..n], j, c, l);
    } else {
      RowLinksComplete(ids, rows[n], c, l);
    }
  }

  /** Positional fidelity, one direction: every Anlagenteil a sheet's later
      rows insert comes from some cell (row `j`, column `c`) and hangs under
      an Anlage of this Abteilung named like row 1's cell in column `c`. */
  lemma PartsHangUnderOwnColumn(t: Tables, abteilungId: nat, cells: Row, rest: seq<Row>, pick: Chooser, l: Link)
    requires l in Links(Units(t, abteilungId, cells, pick).1, rest)
    ensures exists j, c ::
              0 <= j < |rest| && 0 <= c < |rest[j]| && c < |cells| && UnitCell(cells[c]) &&
              l.name == CellName(rest[j][c]) &&
              Anlage(l.anlageId, abteilungId, CellName(cells[c])) in Units(t, abteilungId, cells, pick).0.anlagen
  {
    var r := Units(t, abteilungId, cells, pick);
    UnitsIds(t, abteilungId, cells, pick);
    LinksSound(r.1, rest, l);
    var j, c :| FromCell(r.1, rest, j, c, l);
    assert c < |cells| && UnitCell(cells[c]);
  }

  /** Positional fidelity, other direction: every cell of a later row that
      is not `None` and not blank, in a column whose row-1 cell names an
      Anlage, is inserted under that column's Anlage id. */
  lemma CellsInsertedUnderOwnColumn(t: Tables, abteilungId: nat, cells: Row, rest: seq<Row>, pick: Chooser, j: nat, c: nat)
    requires j < |rest| && c < |rest[j]| && c < |cells|
    requires rest[j][c] != Empty && CellName(rest[j][c]) != "" && UnitCell(cells[c])
    ensures var ids := Units(t, abteilungId, cells, pick).1;
      |ids| == |cells| && ids[c].Some? && Link(ids[c].value, CellName(rest[j][c])) in Links(ids, rest)
  {
    var r := Units(t, abteilungId, cells, pick);
    UnitsIds(t, abteilungId, cells, pick);
    var l := Link(r.1[c].value, CellName(rest[j][c]));
    assert FromCell(r.1, rest, j, c, l);
    LinksComplete(r.1, rest, j, c, l);
  }

  /** A cell in a column whose row-1 cell names no Anlage, or beyond the
      end of row 1, is never inserted: nothing is linked to a neighbour. */
  lemma OrphanCellsIgnored(t: Tables, abteilungId: nat, cells: Row, rest: seq<Row>, pick: Chooser, j: nat, c: nat)
    requires j < |rest| && c < |rest[j]|
    requires c >= |cells| || !UnitCell(cells[c])
    ensures var ids := Units(t, abteilungId, cells, pick).1;
      forall l :: l in Links(ids, rest) ==> !FromCell(ids, rest, j, c, l)
  {
    var r := Units(t, abteilungId, cells, pick);
    UnitsIds(t, abteilungId, cells, pick);
  }

  /** What a sheet does to `abteilungen`: at most the get-or-create of its
      stripped name. */
  lemma SheetAbteilungen(t: Tables, s: NamedSheet, pick: Chooser)
    ensures ApplySheet(t, s, pick).abteilungen ==
      (match DepartmentName(s.name)
       case None => t.abteilungen
       case Some(name) => t.InsertOrIgnoreAbteilung(name).abteilungen)
  {
    match DepartmentName(s.name)
    case None =>
    case Some(name) =>
      var t1 := t.InsertOrIgnoreAbteilung(name);
      match t1.SelectAbteilungId(name)
      case None =>
      case Some(abteilungId) =>
        if s.rows != [] {
          var (t2, ids) := Units(t1, abteilungId, s.rows[0], pick);
          UnitsFrame(t1, abteilungId, s.rows[0], pick);
          ApplyLinksRows(t2, Links(ids, s.rows[1..]));
        }
  }

  /** Every department name of the workbook is already present. */
  predicate NamesPresent(t: Tables, book: Book) {
    forall i :: 0 <= i < |book| && DepartmentName(book[i].name).Some? ==>
      DepartmentName(book[i].name).value in t.AbteilungNames()
  }

  /** The department names after a sheet: those before, plus the sheet's own. */
  lemma SheetNames(t: Tables, s: NamedSheet, pick: Chooser)
    ensures ApplySheet(t, s, pick).AbteilungNames() ==
      t.AbteilungNames() + (if DepartmentName(s.name).Some? then {DepartmentName(s.name).value} else {})
  {
    SheetAbteilungen(t, s, pick);
    if DepartmentName(s.name).Some? {
      InsertOrIgnoreAbteilungNames(t, DepartmentName(s.name).value);
    }
  }

  /** After an import, every department name of the workbook is present
      and no earlier name was lost. */
  lemma {:induction false} BookNamesPresent(t: Tables, book: Book, pick: Chooser)
    ensures t.AbteilungNames() <= ApplyBook(t, book, pick).AbteilungNames()
    ensures NamesPresent(ApplyBook(t, book, pick), book)
    decreases |book|
  {
    if book != [] {
      var n := |book| - 1;
      BookNamesPresent(t, book[..n], pick);
      var t0 := ApplyBook(t, book[..n], pick);
      var t1 := ApplyBook(t, book, pick);
      assert t1 == ApplySheet(t0, book[n], pick);
      SheetNames(t0, book[n], pick);
      forall i | 0 <= i < |book| && DepartmentName(book[i].name).Some?
        ensures DepartmentName(book[i].name).value in t1.AbteilungNames()
      {
        if i < n {
          assert book[..n][i] == book[i];
        }
      }
    }
  }

  /** When every department name is already present, an import leaves
      `abteilungen` as it is. */
  lemma {:induction false} BookKnownNamesUnchanged(t: Tables, book: Book, pick: Chooser)
    requires NamesPresent(t, book)
    ensures ApplyBook(t, book, pick).abteilungen == t.abteilungen
    decreases |book|
  {
    if book != [] {
      var n := |book| - 1;
      assert NamesPresent(t, book[..n]) by {
        forall i | 0 <= i < n && DepartmentName(book[..n][i].name).Some?
          ensures DepartmentName(book[..n][i].name).value in t.AbteilungNames()
        {
          assert book[..n][i] == book[i];
        }
      }
      BookKnownNamesUnchanged(t, book[..n], pick);
      var t0 := ApplyBook(t, book[..n], pick);
      assert t0.AbteilungNames() == t.AbteilungNames();
      SheetAbteilungen(t0, book[n], pick);
    }
  }

  /** Importing the same workbook a second time adds no Abteilung. */
  lemma ReimportAddsNoAbteilung(t: Tables, book: Book, pick: Chooser)
    ensures var once := ApplyBook(t, book, pick);
      ApplyBook(once, book, pick).abteilungen == once.abteilungen
  {
    BookNamesPresent(t, book, pick);
    BookKnownNamesUnchanged(ApplyBook(t, book, pick), book, pick);
  }

  /** Starting from a consistent database, an import leaves at most one
      Abteilung per name, however often it runs. */
  lemma ReimportNamesUnique(t: Tables, book: Book, pick: Chooser)
    requires t.Valid()
    ensures ApplyBook(ApplyBook(t, book, pick), book, pick).UniqueNames()
  {
    BookValid(t, book, pick);
    BookValid(ApplyBook(t, book, pick), book, pick);
  }

  /** `anlagen` has no UNIQUE constraint, so importing a sheet again adds
      each of its Anlagen once more: the import is not idempotent. */
  lemma ReimportDuplicatesAnlagen(t: Tables, abteilungId: nat, cells: Row, pick: Chooser)
    ensures var once := Units(t, abteilungId, cells, pick).0;
      |Units(once, abteilungId, cells, pick).0.anlagen| == |once.anlagen| + |UnitNames(cells)|
  {
    UnitsAnlagen(t, abteilungId, cells, pick);
    UnitsAnlagen(Units(t, abteilungId, cells, pick).0, abteilungId, cells, pick);
  }
}
