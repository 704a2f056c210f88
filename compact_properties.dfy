/** What the compacted import of data_import.py and initrefdata.py does
    with the later rows of a sheet: which cells it inserts, and under which
    Anlage. A cell at index `idx` goes under the Anlage named by the
    idx-th truthy cell of row 1, which lies at column `idx` only when no
    falsy cell precedes it. */
module CompactProperties {
  import opened Workbook
  import opened RefStore
  import opened Hierarchy
  import opened CompactImport

  /** The inserts a later row issues come from its own cells, one per cell
      that passes the test at data_import.py, linked to the id at the
      cell's index in the compacted list. */
  predicate FromIndex(ids: seq<Option<nat>>, row: Row, idx: int, l: Link) {
    0 <= idx < |row| && PartCell(ids, idx, row[idx]) && l == Link(ids[idx].value, CellName(row[idx]))
  }

  /** Every insert of a later row comes from one of its cells. */
  lemma {:induction false} RowLinksSound(ids: seq<Option<nat>>, row: Row, l: Link)
    requires l in RowLinks(ids, row)
    ensures exists idx :: FromIndex(ids, row, idx, l)
    decreases |row|
  {
    var n := |row| - 1;
    var last := if PartCell(ids, n, row[n]) then [Link(ids[n].value, CellName(row[n]))] else [];
    assert RowLinks(ids, row) == RowLinks(ids, row[..n]) + last;
    if l in RowLinks(ids, row[..n]) {
      RowLinksSound(ids, row[..n], l);
      var idx :| FromIndex(ids, row[..n], idx, l);
      assert row[..n][idx] == row[idx];
      assert FromIndex(ids, row, idx, l);
    } else {
      assert FromIndex(ids, row, n, l);
    }
  }

  /** Every cell of a later row that passes the test is inserted. */
  lemma {:induction false} RowLinksComplete(ids: seq<Option<nat>>, row: Row, idx: int, l: Link)
    requires FromIndex(ids, row, idx, l)
    ensures l in RowLinks(ids, row)
    decreases |row|
  {
    var n := |row| - 1;
    var last := if PartCell(ids, n, row[n]) then [Link(ids[n].value, CellName(row[n]))] else [];
    assert RowLinks(ids, row) == RowLinks(ids, row[..n]) + last;
    if idx < n {
      assert row[..n][idx] == row[idx];
      RowLinksComplete(ids, row[..n], idx, l);
    } else {
      assert last == [l];
    }
  }

  predicate FromCell(ids: seq<Option<nat>>, rows: seq<Row>, j: int, idx: int, l: Link) {
    0 <= j < |rows| && FromIndex(ids, rows[j], idx, l)
  }

  /** Every insert of the later rows comes from one of their cells. */
  lemma {:induction false} LinksSound(ids: seq<Option<nat>>, rows: seq<Row>, l: Link)
    requires l in Links(ids, rows)
    ensures exists j, idx :: FromCell(ids, rows, j, idx, l)
    decreases |rows|
  {
    var n := |rows| - 1;
    assert Links(ids, rows) == Links(ids, rows[..n]) + RowLinks(ids, rows[n]);
    if l in Links(ids, rows[..n]) {
      LinksSound(ids, rows[..n], l);
      var j, idx :| FromCell(ids, rows[..n], j, idx, l);
      assert rows[..n][j] == rows[j];
      assert FromCell(ids, rows, j, idx, l);
    } else {
      RowLinksSound(ids, rows[n], l);
      var idx :| FromIndex(ids, rows[n], idx, l);
      assert FromCell(ids, rows, n, idx, l);
    }
  }

  /** Every cell of the later rows that passes the test is inserted. */
  lemma {:induction false} LinksComplete(ids: seq<Option<nat>>, rows: seq<Row>, j: int, idx: int, l: Link)
    requires FromCell(ids, rows, j, idx, l)
    ensures l in Links(ids, rows)
    decreases |rows|
  {
    var n := |rows| - 1;
    assert Links(ids, rows) == Links(ids, rows[..n]) + RowLinks(ids, rows[n]);
    if j < n {
      assert rows[..n][j] == rows[j];
      LinksComplete(ids, rows[..n], j, idx, l);
    } else {
      RowLinksComplete(ids, rows[n], idx, l);
    }
  }

  /** Column `c` of row 1 holds its `k`-th truthy cell (counting from 0). */
  predicate KthTruthyAt(cells: Row, k: int, c: int) {
    0 <= c < |cells| && Truthy(cells[c]) && TruthyCount(cells[..c]) == k
  }

  /** Entry `k` of the compacted names is the name of row 1's `k`-th truthy
      cell. */
  lemma {:induction false} UnitNamesAt(cells: Row, k: int)
    requires 0 <= k < |UnitNames(cells)|
    ensures exists c :: KthTruthyAt(cells, k, c) && UnitNames(cells)[k] == CellName(cells[c])
    decreases |cells|
  {
    var n := |cells| - 1;
    var init := cells[..n];
    UnitNamesCount(init);
    assert cells[..n] == init;
    if k < |UnitNames(init)| {
      UnitNamesAt(init, k);
      var c :| KthTruthyAt(init, k, c) && UnitNames(init)[k] == CellName(init[c]);
      assert init[..c] == cells[..c];
      assert KthTruthyAt(cells, k, c);
    } else {
      assert Truthy(cells[n]) && k == |UnitNames(init)|;
      assert KthTruthyAt(cells, k, n);
    }
  }

  /** The shift, for every sheet: each Anlagenteil the later rows insert
      comes from some cell (row `j`, index `idx`) and hangs under an Anlage
      of this Abteilung named like the `idx`-th truthy cell of row 1, which
      sits in some column `c` at or after `idx`. */
  lemma PartsHangUnderCompactedName(t: Tables, abteilungId: nat, cells: Row, rest: seq<Row>, pick: Chooser, l: Link)
    requires l in Links(Units(t, abteilungId, UnitNames(cells), pick).1, rest)
    ensures exists j, idx, c ::
              0 <= j < |rest| && 0 <= idx < |rest[j]| && idx <= c && KthTruthyAt(cells, idx, c) &&
              l.name == CellName(rest[j][idx]) &&
              Anlage(l.anlageId, abteilungId, CellName(cells[c])) in Units(t, abteilungId, UnitNames(cells), pick).0.anlagen
  {
    var names := UnitNames(cells);
    var r := Units(t, abteilungId, names, pick);
    UnitsIds(t, abteilungId, names, pick);
    LinksSound(r.1, rest, l);
    var j, idx :| FromCell(r.1, rest, j, idx, l);
    UnitNamesAt(cells, idx);
    var c :| KthTruthyAt(cells, idx, c) && names[idx] == CellName(cells[c]);
    UnitNamesCount(cells[..c]);
  }

  /** The other direction: a truthy, non-blank cell of a later row at an
      index below the number of truthy row-1 cells is inserted under the
      id recorded for the `idx`-th truthy cell, when the database was
      consistent. */
  lemma CellsInsertedUnderCompactedName(t: Tables, abteilungId: nat, cells: Row, rest: seq<Row>, pick: Chooser,
                                        j: nat, idx: nat)
    requires t.Valid() && abteilungId in t.AbteilungIds()
    requires j < |rest| && idx < |rest[j]| && idx < |UnitNames(cells)|
    requires Truthy(rest[j][idx]) && CellName(rest[j][idx]) != ""
    ensures var ids := Units(t, abteilungId, UnitNames(cells), pick).1;
      |ids| == |UnitNames(cells)| && ids[idx].Some? &&
      Link(ids[idx].value, CellName(rest[j][idx])) in Links(ids, rest)
  {
    var names := UnitNames(cells);
    var r := Units(t, abteilungId, names, pick);
    UnitsIds(t, abteilungId, names, pick);
    UnitsValid(t, abteilungId, names, pick);
    var a :| a in r.0.anlagen && a.id == r.1[idx].value;
    assert TruthyId(r.1[idx]);
    var l := Link(r.1[idx].value, CellName(rest[j][idx]));
    assert FromCell(r.1, rest, j, idx, l);
    LinksComplete(r.1, rest, j, idx, l);
  }

  /** A cell at an index at or beyond the number of truthy row-1 cells is
      never inserted, even where its own column's row-1 cell names an
      Anlage. */
  lemma CellsBeyondCompactedIgnored(t: Tables, abteilungId: nat, cells: Row, rest: seq<Row>, pick: Chooser,
                                    j: nat, idx: nat)
    requires j < |rest| && idx < |rest[j]| && idx >= TruthyCount(cells)
    ensures var ids := Units(t, abteilungId, UnitNames(cells), pick).1;
      forall l :: l in Links(ids, rest) ==> !FromCell(ids, rest, j, idx, l)
  {
    UnitNamesCount(cells);
    UnitsFrame(t, abteilungId, UnitNames(cells), pick);
  }
}
