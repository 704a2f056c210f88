/** `init_reference_data_from_excel` as data_import.py and initrefdata.py
    write it: row 1 is first reduced to the names of its truthy cells, so
    the list of Anlage ids has one entry per truthy cell and an index into
    a later row is compared with that compacted list. */
module CompactImport {
  import opened PyText
  import opened Workbook
  import opened RefStore
  import opened Hierarchy

  /** `[str(cell).strip() for cell in rows[0] if cell]`. */
  function UnitNames(cells: Row): seq<string>
    decreases |cells|
  {
    if cells == [] then []
    else
      var n := |cells| - 1;
      UnitNames(cells[..n]) + (if Truthy(cells[n]) then [CellName(cells[n])] else [])
  }

  /** The number of truthy cells of row 1. */
  function TruthyCount(cells: Row): nat
    decreases |cells|
  {
    if cells == [] then 0
    else
      var n := |cells| - 1;
      TruthyCount(cells[..n]) + (if Truthy(cells[n]) then 1 else 0)
  }

  /** The loop over the compacted names: insert an Anlage, then record the
      id the SELECT returns (`r[0] if r else None`). */
  function Units(t: Tables, abteilungId: nat, names: seq<string>, pick: Chooser): (Tables, seq<Option<nat>>)
    decreases |names|
  {
    if names == [] then (t, [])
    else
      var n := |names| - 1;
      UnitStep(Units(t, abteilungId, names[..n], pick), abteilungId, names[n], pick)
  }

  function UnitStep(acc: (Tables, seq<Option<nat>>), abteilungId: nat, name: string, pick: Chooser): (Tables, seq<Option<nat>>) {
    var t1 := acc.0.InsertAnlage(abteilungId, name);
    (t1, acc.1 + [t1.SelectAnlageId(abteilungId, name, pick)])
  }

  /** `anlagen_ids[idx]` tested for truthiness: a key, and not 0. */
  predicate TruthyId(o: Option<nat>) {
    o.Some? && o.value != 0
  }

  /** The test data_import.py applies to the cell at index `idx` of a later
      row: truthy, `idx` within the compacted list, a truthy id there, and
      a non-blank name. */
  predicate PartCell(ids: seq<Option<nat>>, idx: nat, cell: Cell) {
    Truthy(cell) && idx < |ids| && TruthyId(ids[idx]) && CellName(cell) != ""
  }

  /** The inserts one later row issues, left to right. */
  function RowLinks(ids: seq<Option<nat>>, row: Row): seq<Link>
    decreases |row|
  {
    if row == [] then []
    else
      var n := |row| - 1;
      RowLinks(ids, row[..n]) + (if PartCell(ids, n, row[n]) then [Link(ids[n].value, CellName(row[n]))] else [])
  }

  /** The inserts rows 2 and later issue, top to bottom. */
  function Links(ids: seq<Option<nat>>, rows: seq<Row>): seq<Link>
    decreases |rows|
  {
    if rows == [] then []
    else
      var n := |rows| - 1;
      Links(ids, rows[..n]) + RowLinks(ids, rows[n])
  }

  /** One sheet. */
  function ApplySheet(t: Tables, s: NamedSheet, pick: Chooser): Tables {
    match DepartmentName(s.name)
    case None => t
    case Some(name) =>
      var t1 := t.InsertOrIgnoreAbteilung(name);
      match t1.SelectAbteilungId(name)
      case None => t1
      case Some(abteilungId) =>
        if s.rows == [] then t1
        else
          var (t2, ids) := Units(t1, abteilungId, UnitNames(s.rows[0]), pick);
          ApplyLinks(t2, Links(ids, s.rows[1..]))
  }

  /** The whole workbook, sheet by sheet in workbook order. */
  function ApplyBook(t: Tables, book: Book, pick: Chooser): Tables
    decreases |book|
  {
    if book == [] then t
    else
      var n := |book| - 1;
      ApplySheet(ApplyBook(t, book[..n], pick), book[n], pick)
  }

  /** `anlagen` keeps one name per truthy cell of row 1, in column order. */
  lemma {:induction false} UnitNamesCount(cells: Row)
    ensures |UnitNames(cells)| == TruthyCount(cells)
    ensures TruthyCount(cells) <= |cells|
    decreases |cells|
  {
    if cells != [] {
      UnitNamesCount(cells[..|cells| - 1]);
    }
  }

  /** A `0` cell in row 1 is dropped, and a whitespace-only string cell is
      kept as an empty Anlage name. */
  lemma UnitNamesOfOddCells(s: string)
    requires s != [] && AllSpace(s)
    ensures UnitNames([Num(0)]) == []
    ensures UnitNames([Text(s)]) == [""]
  {
    assert [Num(0)][..0] == [];
    assert [Text(s)][..0] == [];
    StripEmptyIff(s);
  }

  /** Row 1 touches only `anlagen`, and every name gets an entry. */
  lemma {:induction false} UnitsFrame(t: Tables, abteilungId: nat, names: seq<string>, pick: Chooser)
    ensures var r := Units(t, abteilungId, names, pick);
      r.0.abteilungen == t.abteilungen && r.0.anlagenteile == t.anlagenteile &&
      r.0.abteilungSeq == t.abteilungSeq && r.0.anlagenteilSeq == t.anlagenteilSeq &&
      |r.1| == |names|
    decreases |names|
  {
    if names != [] {
      UnitsFrame(t, abteilungId, names[..|names| - 1], pick);
    }
  }

  /** One name appends one entry, always set: the SELECT finds at least
      the row just inserted. */
  lemma UnitStepIds(acc: (Tables, seq<Option<nat>>), abteilungId: nat, name: string, pick: Chooser)
    ensures var r := UnitStep(acc, abteilungId, name, pick);
      r.1 == acc.1 + [r.1[|acc.1|]] &&
      r.1[|acc.1|].Some? &&
      Anlage(r.1[|acc.1|].value, abteilungId, name) in r.0.anlagen &&
      (forall a :: a in acc.0.anlagen ==> a in r.0.anlagen)
  {
    var t1 := acc.0.InsertAnlage(abteilungId, name);
    assert t1.anlagen[|acc.0.anlagen|].abteilungId == abteilungId;
  }

  /** Entry `k` of the compacted id list is the id of an Anlage of this
      Abteilung named `names[k]`. */
  lemma {:induction false} UnitsIds(t: Tables, abteilungId: nat, names: seq<string>, pick: Chooser)
    ensures var r := Units(t, abteilungId, names, pick);
      |r.1| == |names| &&
      (forall k :: 0 <= k < |names| ==> r.1[k].Some? && Anlage(r.1[k].value, abteilungId, names[k]) in r.0.anlagen)
    decreases |names|
  {
    if names != [] {
      var n := |names| - 1;
      UnitsIds(t, abteilungId, names[..n], pick);
      var r0 := Units(t, abteilungId, names[..n], pick);
      var r := Units(t, abteilungId, names, pick);
      UnitStepIds(r0, abteilungId, names[n], pick);
      forall k | 0 <= k < |names|
        ensures r.1[k].Some? && Anlage(r.1[k].value, abteilungId, names[k]) in r.0.anlagen
      {
        if k < n {
          assert r.1[k] == r0.1[k] && names[k] == names[..n][k];
        }
      }
    }
  }

  predicate IdsResolve(t: Tables, ids: seq<Option<nat>>) {
    forall c :: 0 <= c < |ids| && ids[c].Some? ==> ids[c].value in t.AnlageIds()
  }

  /** Row 1 keeps the schema's guarantees, and every id it records is the
      key of an existing Anlage. */
  lemma {:induction false} UnitsValid(t: Tables, abteilungId: nat, names: seq<string>, pick: Chooser)
    requires t.Valid() && abteilungId in t.AbteilungIds()
    ensures Units(t, abteilungId, names, pick).0.Valid()
    ensures IdsResolve(Units(t, abteilungId, names, pick).0, Units(t, abteilungId, names, pick).1)
    decreases |names|
  {
    var r := Units(t, abteilungId, names, pick);
    UnitsIds(t, abteilungId, names, pick);
    if names != [] {
      var n := |names| - 1;
      UnitsValid(t, abteilungId, names[..n], pick);
      UnitsFrame(t, abteilungId, names[..n], pick);
      var r0 := Units(t, abteilungId, names[..n], pick);
      assert r0.0.AbteilungIds() == t.AbteilungIds();
      InsertAnlageValid(r0.0, abteilungId, names[n]);
      forall k | 0 <= k < |r.1| && r.1[k].Some?
        ensures r.1[k].value in r.0.AnlageIds()
      {
        assert Anlage(r.1[k].value, abteilungId, names[k]) in r.0.anlagen;
      }
    }
  }

  lemma {:induction false} RowLinksResolve(t: Tables, ids: seq<Option<nat>>, row: Row)
    requires IdsResolve(t, ids)
    ensures LinksResolve(t, RowLinks(ids, row))
    decreases |row|
  {
    if row != [] {
      RowLinksResolve(t, ids, row[..|row| - 1]);
    }
  }

  lemma {:induction false} LinksResolveFromIds(t: Tables, ids: seq<Option<nat>>, rows: seq<Row>)
    requires IdsResolve(t, ids)
    ensures LinksResolve(t, Links(ids, rows))
    decreases |rows|
  {
    if rows != [] {
      var n := |rows| - 1;
      LinksResolveFromIds(t, ids, rows[..n]);
      RowLinksResolve(t, ids, rows[n]);
    }
  }

  /** Importing a sheet never breaks the schema's guarantees. */
  lemma SheetValid(t: Tables, s: NamedSheet, pick: Chooser)
    requires t.Valid()
    ensures ApplySheet(t, s, pick).Valid()
  {
    match DepartmentName(s.name)
    case None =>
    case Some(name) =>
      var t1 := t.InsertOrIgnoreAbteilung(name);
      InsertOrIgnoreAbteilungValid(t, name);
      match t1.SelectAbteilungId(name)
      case None =>
      case Some(abteilungId) =>
        if s.rows != [] {
          var names := UnitNames(s.rows[0]);
          var (t2, ids) := Units(t1, abteilungId, names, pick);
          UnitsValid(t1, abteilungId, names, pick);
          LinksResolveFromIds(t2, ids, s.rows[1..]);
          ApplyLinksValid(t2, Links(ids, s.rows[1..]));
        }
  }

  /** The same for a whole workbook. */
  lemma {:induction false} BookValid(t: Tables, book: Book, pick: Chooser)
    requires t.Valid()
    ensures ApplyBook(t, book, pick).Valid()
    decreases |book|
  {
    if book != [] {
      var n := |book| - 1;
      BookValid(t, book[..n], pick);
      SheetValid(ApplyBook(t, book[..n], pick), book[n], pick);
    }
  }

  /** The loop over the compacted names (data_import.py:46-52). */
  method ReadUnits(abteilungId: nat, names: seq<string>, db: Store, pick: Chooser) returns (ids: seq<Option<nat>>)
    modifies db
    ensures (db.State(), ids) == Units(old(db.State()), abteilungId, names, pick)
  {
    ids := [];
    for k := 0 to |names|
      invariant (db.State(), ids) == Units(old(db.State()), abteilungId, names[..k], pick)
    {
      assert names[..k + 1][..k] == names[..k];
      var anlage := names[k];
      db.InsertAnlage(abteilungId, anlage);
      var r := db.SelectAnlageId(abteilungId, anlage, pick);
      ids := ids + [r];
    }
    assert names[..|names|] == names;
  }

  /** The inner loop over the cells of one later row (data_import.py:56-61). */
  method InsertRowParts(ids: seq<Option<nat>>, rowValues: Row, db: Store)
    modifies db
    ensures db.State() == ApplyLinks(old(db.State()), RowLinks(ids, rowValues))
  {
    for idx := 0 to |rowValues|
      invariant db.State() == ApplyLinks(old(db.State()), RowLinks(ids, rowValues[..idx]))
    {
      assert rowValues[..idx + 1][..idx] == rowValues[..idx];
      var cell := rowValues[idx];
      ghost var before := RowLinks(ids, rowValues[..idx]);
      if Truthy(cell) && idx < |ids| && TruthyId(ids[idx]) {
        var anlagenteil := CellName(cell);
        if anlagenteil != "" {
          ghost var link := Link(ids[idx].value, anlagenteil);
          assert RowLinks(ids, rowValues[..idx + 1]) == before + [link];
          assert (before + [link])[..|before|] == before;
          db.InsertAnlagenteil(ids[idx].value, anlagenteil);
        } else {
          assert RowLinks(ids, rowValues[..idx + 1]) == before;
        }
      } else {
        assert RowLinks(ids, rowValues[..idx + 1]) == before;
      }
    }
    assert rowValues[..|rowValues|] == rowValues;
  }

  /** The loop over rows 2 and later (data_import.py:55-61). */
  method InsertParts(ids: seq<Option<nat>>, rest: seq<Row>, db: Store)
    modifies db
    ensures db.State() == ApplyLinks(old(db.State()), Links(ids, rest))
  {
    for r := 0 to |rest|
      invariant db.State() == ApplyLinks(old(db.State()), Links(ids, rest[..r]))
    {
      assert rest[..r + 1][..r] == rest[..r];
      ApplyLinksAppend(old(db.State()), Links(ids, rest[..r]), RowLinks(ids, rest[r]));
      InsertRowParts(ids, rest[r], db);
    }
    assert rest[..|rest|] == rest;
  }

  /** The import of one sheet into the store, statement by statement. */
  method ImportSheet(s: NamedSheet, db: Store, pick: Chooser)
    modifies db
    ensures db.State() == ApplySheet(old(db.State()), s, pick)
  {
    if s.name in SkipSheets {
      return;
    }
    var abtName := Strip(s.name);
    if abtName == "" {
      return;
    }
    db.InsertOrIgnoreAbteilung(abtName);
    var found := db.SelectAbteilungId(abtName);
    if found.Some? && s.rows != [] {
      var anlagen := UnitNames(s.rows[0]);
      var ids := ReadUnits(found.value, anlagen, db, pick);
      InsertParts(ids, s.rows[1..], db);
    }
  }

  /** `init_reference_data_from_excel`: `None` stands for a workbook that
      could not be opened, which ends the call before the store is touched. */
  method ImportReferenceData(source: Option<Book>, db: Store, pick: Chooser)
    modifies db
    ensures source.None? ==> db.State() == old(db.State())
    ensures source.Some? ==> db.State() == ApplyBook(old(db.State()), source.value, pick)
  {
    if source.None? {
      return;
    }
    var book := source.value;
    for i := 0 to |book|
      invariant db.State() == ApplyBook(old(db.State()), book[..i], pick)
    {
      assert book[..i + 1][..i] == book[..i];
      ImportSheet(book[i], db, pick);
    }
    assert book[..|book|] == book;
  }
}
