/** `init_reference_data_from_excel` as RUN.py writes it: the list of
    Anlage ids stays aligned with the columns of row 1 (one entry per cell,
    `None` where a cell names no Anlage), so an Anlagenteil always hangs
    under the Anlage of its own column. */
module AlignedImport {
  import opened PyText
  import opened Workbook
  import opened RefStore
  import opened Hierarchy

  /** A row-1 cell that names an Anlage: not `None`, and not blank once
      rendered with `str()` and stripped. */
  predicate UnitCell(c: Cell) {
    c != Empty && CellName(c) != ""
  }

  /** The names of the Anlagen row 1 creates, left to right. */
  function UnitNames(cells: Row): seq<string>
    decreases |cells|
  {
    if cells == [] then []
    else
      var n := |cells| - 1;
      UnitNames(cells[..n]) + (if UnitCell(cells[n]) then [CellName(cells[n])] else [])
  }

  /** The `anlagen` rows created for `names` under one Abteilung, numbered
      on from the AUTOINCREMENT value `last`. */
  function NewAnlagen(last: nat, abteilungId: nat, names: seq<string>): (r: seq<Anlage>)
    ensures |r| == |names|
    ensures forall k :: 0 <= k < |names| ==> r[k] == Anlage(last + 1 + k, abteilungId, names[k])
  {
    seq(|names|, k requires 0 <= k < |names| => Anlage(last + 1 + k, abteilungId, names[k]))
  }

  /** The loop over row 1: for each cell either insert an Anlage and
      record the id the SELECT returns, or record `None`. */
  function Units(t: Tables, abteilungId: nat, cells: Row, pick: Chooser): (r: (Tables, seq<Option<nat>>))
    decreases |cells|
  {
    if cells == [] then (t, [])
    else
      var n := |cells| - 1;
      UnitStep(Units(t, abteilungId, cells[..n], pick), abteilungId, cells[n], pick)
  }

  /** One cell of row 1. `if row_anlage: append(row_anlage[0]) else:
      append(None)` records exactly the SELECT's answer. */
  function UnitStep(acc: (Tables, seq<Option<nat>>), abteilungId: nat, c: Cell, pick: Chooser): (Tables, seq<Option<nat>>) {
    if UnitCell(c) then
      var name := CellName(c);
      var t1 := acc.0.InsertAnlage(abteilungId, name);
      (t1, acc.1 + [t1.SelectAnlageId(abteilungId, name, pick)])
    else
      (acc.0, acc.1 + [None])
  }

  /** Row 1 touches only `anlagen` and keeps one id entry per column. */
  lemma {:induction false} UnitsFrame(t: Tables, abteilungId: nat, cells: Row, pick: Chooser)
    ensures var r := Units(t, abteilungId, cells, pick);
      r.0.abteilungen == t.abteilungen && r.0.anlagenteile == t.anlagenteile &&
      r.0.abteilungSeq == t.abteilungSeq && r.0.anlagenteilSeq == t.anlagenteilSeq &&
      |r.1| == |cells|
    decreases |cells|
  {
    if cells != [] {
      UnitsFrame(t, abteilungId, cells[..|cells| - 1], pick);
    }
  }

  /** Row 1 adds exactly one Anlage per naming cell, in column order,
      under the sheet's Abteilung, numbered on from the AUTOINCREMENT value. */
  lemma {:induction false} UnitsAnlagen(t: Tables, abteilungId: nat, cells: Row, pick: Chooser)
    ensures Units(t, abteilungId, cells, pick).0.anlageSeq == t.anlageSeq + |UnitNames(cells)|
    ensures Units(t, abteilungId, cells, pick).0.anlagen == t.anlagen + NewAnlagen(t.anlageSeq, abteilungId, UnitNames(cells))
    decreases |cells|
  {
    if cells != [] {
      var n := |cells| - 1;
      UnitsAnlagen(t, abteilungId, cells[..n], pick);
      var r0 := Units(t, abteilungId, cells[..n], pick);
      var c := cells[n];
      assert Units(t, abteilungId, cells, pick) == UnitStep(r0, abteilungId, c, pick);
      if UnitCell(c) {
        var names0 := UnitNames(cells[..n]);
        assert UnitNames(cells) == names0 + [CellName(c)];
        var added := Anlage(r0.0.anlageSeq + 1, abteilungId, CellName(c));
        assert NewAnlagen(t.anlageSeq, abteilungId, names0 + [CellName(c)]) ==
          NewAnlagen(t.anlageSeq, abteilungId, names0) + [added];
      } else {
        assert UnitNames(cells) == UnitNames(cells[..n]);
      }
    }
  }

  /** One cell of row 1 appends one id entry, set exactly when the cell
      names an Anlage, and only adds rows to `anlagen`. */
  lemma UnitStepIds(acc: (Tables, seq<Option<nat>>), abteilungId: nat, c: Cell, pick: Chooser)
    ensures var r := UnitStep(acc, abteilungId, c, pick);
      r.1 == acc.1 + [r.1[|acc.1|]] &&
      (r.1[|acc.1|].Some? <==> UnitCell(c)) &&
      (r.1[|acc.1|].Some? ==> Anlage(r.1[|acc.1|].value, abteilungId, CellName(c)) in r.0.anlagen) &&
      (forall a :: a in acc.0.anlagen ==> a in r.0.anlagen)
  {
    if UnitCell(c) {
      var t1 := acc.0.InsertAnlage(abteilungId, CellName(c));
      assert t1.anlagen[|acc.0.anlagen|].abteilungId == abteilungId;
    }
  }

  /** The id list keeps one entry per column of row 1: entry `c` is set
      exactly when cell `c` names an Anlage, and then it is the id of an
      Anlage of this Abteilung with that name. */
  lemma {:induction false} UnitsIds(t: Tables, abteilungId: nat, cells: Row, pick: Chooser)
    ensures var r := Units(t, abteilungId, cells, pick);
      |r.1| == |cells| &&
      (forall c :: 0 <= c < |cells| ==> (r.1[c].Some? <==> UnitCell(cells[c]))) &&
      (forall c :: 0 <= c < |cells| && r.1[c].Some? ==>
        Anlage(r.1[c].value, abteilungId, CellName(cells[c])) in r.0.anlagen)
    decreases |cells|
  {
    if cells != [] {
      var n := |cells| - 1;
      UnitsIds(t, abteilungId, cells[..n], pick);
      var r0 := Units(t, abteilungId, cells[..n], pick);
      var r := Units(t, abteilungId, cells, pick);
      assert r == UnitStep(r0, abteilungId, cells[n], pick);
      UnitStepIds(r0, abteilungId, cells[n], pick);
      forall k | 0 <= k < |cells|
        ensures r.1[k].Some? <==> UnitCell(cells[k])
        ensures r.1[k].Some? ==> Anlage(r.1[k].value, abteilungId, CellName(cells[k])) in r.0.anlagen
      {
        if k < n {
          assert r.1[k] == r0.1[k] && cells[k] == cells[..n][k];
        }
      }
    }
  }

  /** The test RUN.py applies to the cell in column `c` of a later row:
      not `None`, a unit recorded for the column, and a non-blank name. */
  predicate PartCell(ids: seq<Option<nat>>, c: nat, cell: Cell) {
    cell != Empty && c < |ids| && ids[c].Some? && CellName(cell) != ""
  }

  /** The inserts one later row issues, left to right. */
  function RowLinks(ids: seq<Option<nat>>, row: Row): seq<Link>
    decreases |row|
  {
    if row == [] then []
    else
      var n := |row| - 1;
      var cell := row[n];
      RowLinks(ids, row[..n]) + (if PartCell(ids, n, cell) then [Link(ids[n].value, CellName(cell))] else [])
  }

  /** The inserts rows 2 and later issue, top to bottom. */
  function Links(ids: seq<Option<nat>>, rows: seq<Row>): seq<Link>
    decreases |rows|
  {
    if rows == [] then []
    else
      var n := |rows| - 1;
      Links(ids, rows[..n]) + RowLinks(ids, rows[n])
  }

  predicate IdsResolve(t: Tables, ids: seq<Option<nat>>) {
    forall c :: 0 <= c < |ids| && ids[c].Some? ==> ids[c].value in t.AnlageIds()
  }

  lemma {:induction false} RowLinksResolve(t: Tables, ids: seq<Option<nat>>, row: Row)
    requires IdsResolve(t, ids)
    ensures LinksResolve(t, RowLinks(ids, row))
    decreases |row|
  {
    if row != [] {
      RowLinksResolve(t, ids, row[..|row| - 1]);
    }
  }

  lemma {:induction false} LinksResolveFromIds(t: Tables, ids: seq<Option<nat>>, rows: seq<Row>)
    requires IdsResolve(t, ids)
    ensures LinksResolve(t, Links(ids, rows))
    decreases |rows|
  {
    if rows != [] {
      var n := |rows| - 1;
      LinksResolveFromIds(t, ids, rows[..n]);
      RowLinksResolve(t, ids, rows[n]);
    }
  }

  /** Row 1 keeps the schema's guarantees, and every id it records is the
      key of an existing Anlage. */
  lemma {:induction false} UnitsValid(t: Tables, abteilungId: nat, cells: Row, pick: Chooser)
    requires t.Valid() && abteilungId in t.AbteilungIds()
    ensures Units(t, abteilungId, cells, pick).0.Valid()
    ensures IdsResolve(Units(t, abteilungId, cells, pick).0, Units(t, abteilungId, cells, pick).1)
    decreases |cells|
  {
    var r := Units(t, abteilungId, cells, pick);
    UnitsIds(t, abteilungId, cells, pick);
    if cells != [] {
      var n := |cells| - 1;
      UnitsValid(t, abteilungId, cells[..n], pick);
      UnitsFrame(t, abteilungId, cells[..n], pick);
      var r0 := Units(t, abteilungId, cells[..n], pick);
      assert r0.0.AbteilungIds() == t.AbteilungIds();
      assert r == UnitStep(r0, abteilungId, cells[n], pick);
      if UnitCell(cells[n]) {
        InsertAnlageValid(r0.0, abteilungId, CellName(cells[n]));
      }
      forall k | 0 <= k < |r.1| && r.1[k].Some?
        ensures r.1[k].value in r.0.AnlageIds()
      {
        assert Anlage(r.1[k].value, abteilungId, CellName(cells[k])) in r.0.anlagen;
      }
    }
  }

  /** One sheet. */
  function ApplySheet(t: Tables, s: NamedSheet, pick: Chooser): Tables {
    match DepartmentName(s.name)
    case None => t
    case Some(name) =>
      var t1 := t.InsertOrIgnoreAbteilung(name);
      match t1.SelectAbteilungId(name)
      case None => t1
      case Some(abteilungId) =>
        if s.rows == [] then t1
        else
          var (t2, ids) := Units(t1, abteilungId, s.rows[0], pick);
          ApplyLinks(t2, Links(ids, s.rows[1..]))
  }

  /** The whole workbook, sheet by sheet in workbook order. */
  function ApplyBook(t: Tables, book: Workbook.Book, pick: Chooser): Tables
    decreases |book|
  {
    if book == [] then t
    else
      var n := |book| - 1;
      ApplySheet(ApplyBook(t, book[..n], pick), book[n], pick)
  }

  /** Importing a sheet never breaks the schema's guarantees: every
      Anlage hangs under an existing Abteilung and every Anlagenteil under
      an existing Anlage. */
  lemma SheetValid(t: Tables, s: NamedSheet, pick: Chooser)
    requires t.Valid()
    ensures ApplySheet(t, s, pick).Valid()
  {
    match DepartmentName(s.name)
    case None =>
    case Some(name) =>
      var t1 := t.InsertOrIgnoreAbteilung(name);
      InsertOrIgnoreAbteilungValid(t, name);
      match t1.SelectAbteilungId(name)
      case None =>
      case Some(abteilungId) =>
        if s.rows != [] {
          var (t2, ids) := Units(t1, abteilungId, s.rows[0], pick);
          UnitsValid(t1, abteilungId, s.rows[0], pick);
          LinksResolveFromIds(t2, ids, s.rows[1..]);
          ApplyLinksValid(t2, Links(ids, s.rows[1..]));
        }
  }

  /** The same for a whole workbook. */
  lemma {:induction false} BookValid(t: Tables, book: Workbook.Book, pick: Chooser)
    requires t.Valid()
    ensures ApplyBook(t, book, pick).Valid()
    decreases |book|
  {
    if book != [] {
      var n := |book| - 1;
      BookValid(t, book[..n], pick);
      SheetValid(ApplyBook(t, book[..n], pick), book[n], pick);
    }
  }

  /** The loop over row 1 (RUN.py:193-209). */
  method ReadUnits(abteilungId: nat, unitRow: Row, db: Store, pick: Chooser) returns (ids: seq<Option<nat>>)
    modifies db
    ensures (db.State(), ids) == Units(old(db.State()), abteilungId, unitRow, pick)
  {
    ids := [];
    for c := 0 to |unitRow|
      invariant (db.State(), ids) == Units(old(db.State()), abteilungId, unitRow[..c], pick)
    {
      assert unitRow[..c + 1][..c] == unitRow[..c];
      var cell := unitRow[c];
      if cell != Empty && CellName(cell) != "" {
        var unitName := CellName(cell);
        db.InsertAnlage(abteilungId, unitName);
        var unit := db.SelectAnlageId(abteilungId, unitName, pick);
        if unit.Some? {
          ids := ids + [unit];
        } else {
          ids := ids + [None];
        }
      } else {
        ids := ids + [None];
      }
    }
    assert unitRow[..|unitRow|] == unitRow;
  }

  /** The inner loop over the cells of one later row (RUN.py:214-218). */
  method InsertRowParts(ids: seq<Option<nat>>, rowValues: Row, db: Store)
    modifies db
    ensures db.State() == ApplyLinks(old(db.State()), RowLinks(ids, rowValues))
  {
    for c := 0 to |rowValues|
      invariant db.State() == ApplyLinks(old(db.State()), RowLinks(ids, rowValues[..c]))
    {
      assert rowValues[..c + 1][..c] == rowValues[..c];
      var value := rowValues[c];
      ghost var before := RowLinks(ids, rowValues[..c]);
      if value != Empty && c < |ids| && ids[c].Some? {
        var partName := CellName(value);
        if partName != "" {
          ghost var link := Link(ids[c].value, partName);
          assert RowLinks(ids, rowValues[..c + 1]) == before + [link];
          assert (before + [link])[..|before|] == before;
          db.InsertAnlagenteil(ids[c].value, partName);
        } else {
          assert RowLinks(ids, rowValues[..c + 1]) == before;
        }
      } else {
        assert RowLinks(ids, rowValues[..c + 1]) == before;
      }
    }
    assert rowValues[..|rowValues|] == rowValues;
  }

  /** The loop over rows 2 and later (RUN.py:213-218). */
  method InsertParts(ids: seq<Option<nat>>, rest: seq<Row>, db: Store)
    modifies db
    ensures db.State() == ApplyLinks(old(db.State()), Links(ids, rest))
  {
    for r := 0 to |rest|
      invariant db.State() == ApplyLinks(old(db.State()), Links(ids, rest[..r]))
    {
      assert rest[..r + 1][..r] == rest[..r];
      ApplyLinksAppend(old(db.State()), Links(ids, rest[..r]), RowLinks(ids, rest[r]));
      InsertRowParts(ids, rest[r], db);
    }
    assert rest[..|rest|] == rest;
  }

  /** The import of one sheet into the store, statement by statement. */
  method ImportSheet(s: NamedSheet, db: Store, pick: Chooser)
    modifies db
    ensures db.State() == ApplySheet(old(db.State()), s, pick)
  {
    if s.name in SkipSheets {
      return;
    }
    var name := Strip(s.name);
    if name == "" {
      return;
    }
    db.InsertOrIgnoreAbteilung(name);
    var found := db.SelectAbteilungId(name);
    if found.Some? && s.rows != [] {
      var ids := ReadUnits(found.value, s.rows[0], db, pick);
      InsertParts(ids, s.rows[1..], db);
    }
  }

  /** `init_reference_data_from_excel`: `None` stands for a workbook that
      could not be opened, which ends the call before the store is touched. */
  method ImportReferenceData(source: Option<Workbook.Book>, db: Store, pick: Chooser)
    modifies db
    ensures source.None? ==> db.State() == old(db.State())
    ensures source.Some? ==> db.State() == ApplyBook(old(db.State()), source.value, pick)
  {
    if source.None? {
      return;
    }
    var book := source.value;
    for i := 0 to |book|
      invariant db.State() == ApplyBook(old(db.State()), book[..i], pick)
    {
      assert book[..i + 1][..i] == book[..i];
      ImportSheet(book[i], db, pick);
    }
    assert book[..|book|] == book;
  }
}
