/** `dynamic_populate`: loading the data rows of a spreadsheet into one
    table. RUN.py isolates a failing row (it is logged, skipped, and the
    rows after it are still inserted before the one commit); popdata.py
    and data_import.py let the failure leave the loop, so the commit is
    never reached and the connection's `with` block rolls the inserts back. */
module BulkLoad {
  import opened PyText
  import opened Workbook
  import opened RefStore
  import opened Reconcile

  /** Whether the database refuses an INSERT of `data` into a table that
      currently holds `rows` (a constraint, a type check): the database's
      own decision, left open. */
  type Rejects = (seq<seq<Cell>>, seq<Cell>) -> bool

  /** What the call reports, in place of its log lines. */
  datatype Outcome = LoadFailed | NoCommonColumns | Loaded(failed: seq<nat>) | Aborted(row: nat)

  /** What the spreadsheet and the table's columns give before any insert:
      the workbook could not be read or has no first row, no column is
      shared, or the common columns and one argument tuple per data row. */
  datatype Prepared = LoadError | NoCommon | Ready(columns: seq<string>, tuples: seq<seq<Cell>>)

  function Tuples(rows: seq<Row>, common: seq<string>, index: map<string, nat>): (r: seq<seq<Cell>>)
    ensures |r| == |rows|
    ensures forall k :: 0 <= k < |rows| ==> |r[k]| == |common|
  {
    seq(|rows|, k requires 0 <= k < |rows| => DataTuple(rows[k], common, index))
  }

  /** `source` is the active sheet, `None` when the workbook cannot be
      loaded; `tableInfo` the column names `PRAGMA table_info` lists. */
  function Prepare(source: Option<Sheet>, tableInfo: seq<string>): (r: Prepared)
    ensures r.LoadError? <==> source.None? || source.value == []
    ensures r.Ready? ==> r.columns != [] && |r.tuples| == |source.value| - 1
    ensures r.Ready? ==> forall k :: 0 <= k < |r.tuples| ==> |r.tuples[k]| == |r.columns|
  {
    match source
    case None => LoadError
    case Some(rows) =>
      if rows == [] then LoadError
      else
        var headers := Headers(rows[0]);
        var common := CommonColumns(DbColumns(tableInfo), headers);
        if common == [] then NoCommon
        else Ready(common, Tuples(rows[1..], common, HeaderIndex(headers)))
  }

  /** The columns loaded are the table's columns the header row names
      (both normalised), in table order. */
  lemma PreparedColumns(rows: Sheet, tableInfo: seq<string>)
    requires rows != []
    ensures var r := Prepare(Some(rows), tableInfo);
      var headers := Headers(rows[0]);
      var cols := DbColumns(tableInfo);
      (r.NoCommon? <==> forall i :: 0 <= i < |cols| ==> cols[i] !in headers) &&
      (r.Ready? ==> forall c :: c in r.columns <==> c in cols && c in headers)
  {
    var headers := Headers(rows[0]);
    var cols := DbColumns(tableInfo);
    CommonColumnsIff(cols, headers);
    var common := CommonColumns(cols, headers);
    if common != [] {
      assert common[0] in common;
    } else {
      forall i | 0 <= i < |cols|
        ensures cols[i] !in headers
      {
        assert cols[i] in cols;
      }
    }
  }

  /** RUN.py's row loop: a rejected tuple is skipped, the others are
      added in order. */
  function Isolated(base: seq<seq<Cell>>, tuples: seq<seq<Cell>>, rejects: Rejects): seq<seq<Cell>>
    decreases |tuples|
  {
    if tuples == [] then base
    else
      var n := |tuples| - 1;
      var prev := Isolated(base, tuples[..n], rejects);
      if rejects(prev, tuples[n]) then prev else prev + [tuples[n]]
  }

  /** The data rows RUN.py logs as failed, by position. */
  function Failed(base: seq<seq<Cell>>, tuples: seq<seq<Cell>>, rejects: Rejects): seq<nat>
    decreases |tuples|
  {
    if tuples == [] then []
    else
      var n := |tuples| - 1;
      Failed(base, tuples[..n], rejects) + (if rejects(Isolated(base, tuples[..n], rejects), tuples[n]) then [n] else [])
  }

  /** The first data row whose insert fails when every row before it went
      in: where popdata.py's loop stops. */
  function FirstReject(base: seq<seq<Cell>>, tuples: seq<seq<Cell>>, rejects: Rejects): Option<nat>
    decreases |tuples|
  {
    if tuples == [] then None
    else
      var n := |tuples| - 1;
      var f := FirstReject(base, tuples[..n], rejects);
      if f.Some? then f
      else if rejects(base + tuples[..n], tuples[n]) then Some(n)
      else None
  }

  /** `FirstReject` names the first failing row: every row before it is
      accepted on top of the rows before it, and it is not. */
  lemma {:induction false} FirstRejectSpec(base: seq<seq<Cell>>, tuples: seq<seq<Cell>>, rejects: Rejects)
    ensures var f := FirstReject(base, tuples, rejects);
      (f.None? ==> forall j :: 0 <= j < |tuples| ==> !rejects(base + tuples[..j], tuples[j])) &&
      (f.Some? ==> f.value < |tuples| && rejects(base + tuples[..f.value], tuples[f.value]) &&
                   forall j :: 0 <= j < f.value ==> !rejects(base + tuples[..j], tuples[j]))
    decreases |tuples|
  {
    if tuples != [] {
      var n := |tuples| - 1;
      FirstRejectSpec(base, tuples[..n], rejects);
      forall j | 0 <= j < n
        ensures tuples[..n][..j] == tuples[..j] && tuples[..n][j] == tuples[j]
      {
      }
    }
  }

  /** Once a row has failed, later rows do not move the first failure. */
  lemma {:induction false} FirstRejectStable(base: seq<seq<Cell>>, tuples: seq<seq<Cell>>, i: nat, rejects: Rejects)
    requires i <= |tuples| && FirstReject(base, tuples[..i], rejects).Some?
    ensures FirstReject(base, tuples, rejects) == FirstReject(base, tuples[..i], rejects)
    decreases |tuples| - i
  {
    if i < |tuples| {
      var n := |tuples| - 1;
      assert tuples[..n][..i] == tuples[..i];
      FirstRejectStable(base, tuples[..n], i, rejects);
    } else {
      assert tuples[..i] == tuples;
    }
  }

  /** RUN.py keeps the rows it had before, adds only data rows, and
      accounts for every data row: stored or listed as failed. */
  lemma {:induction false} IsolatedAccounts(base: seq<seq<Cell>>, tuples: seq<seq<Cell>>, rejects: Rejects)
    ensures var r := Isolated(base, tuples, rejects);
      |base| <= |r| && r[..|base|] == base &&
      (forall k :: |base| <= k < |r| ==> r[k] in tuples) &&
      |r| - |base| + |Failed(base, tuples, rejects)| == |tuples| &&
      (forall k :: 0 <= k < |Failed(base, tuples, rejects)| ==> Failed(base, tuples, rejects)[k] < |tuples|)
    decreases |tuples|
  {
    if tuples != [] {
      var n := |tuples| - 1;
      IsolatedAccounts(base, tuples[..n], rejects);
      var prev := Isolated(base, tuples[..n], rejects);
      forall k | |base| <= k < |prev|
        ensures prev[k] in tuples
      {
        assert prev[k] in tuples[..n];
      }
    }
  }

  /** The tuples whose positions are not listed in `failed`, in order. */
  function Skipping(tuples: seq<seq<Cell>>, failed: seq<nat>): seq<seq<Cell>>
    decreases |tuples|
  {
    if tuples == [] then []
    else
      var n := |tuples| - 1;
      Skipping(tuples[..n], failed) + (if n in failed then [] else [tuples[n]])
  }

  /** Two position lists that agree on the positions of `tuples` skip the
      same tuples. */
  lemma {:induction false} SkippingAgree(tuples: seq<seq<Cell>>, f: seq<nat>, g: seq<nat>)
    requires forall k :: 0 <= k < |tuples| ==> (k in f <==> k in g)
    ensures Skipping(tuples, f) == Skipping(tuples, g)
    decreases |tuples|
  {
    if tuples != [] {
      var n := |tuples| - 1;
      SkippingAgree(tuples[..n], f, g);
    }
  }

  /** The positions are listed in increasing order. */
  predicate Increasing(s: seq<nat>) {
    forall i, j :: 0 <= i < j < |s| ==> s[i] < s[j]
  }

  /** RUN.py's failed rows are listed once each, in increasing order, and
      are positions of data rows. */
  lemma {:induction false} FailedIncreasing(base: seq<seq<Cell>>, tuples: seq<seq<Cell>>, rejects: Rejects)
    ensures var f := Failed(base, tuples, rejects);
      Increasing(f) && forall k :: k in f ==> k < |tuples|
    decreases |tuples|
  {
    if tuples != [] {
      var n := |tuples| - 1;
      var f0 := Failed(base, tuples[..n], rejects);
      var f := Failed(base, tuples, rejects);
      FailedIncreasing(base, tuples[..n], rejects);
      if f != f0 {
        assert f == f0 + [n];
        forall i, j | 0 <= i < j < |f|
          ensures f[i] < f[j]
        {
          assert f0[i] in f0;
        }
      }
    }
  }

  /** Data row `k` is listed as failed exactly when the table, holding
      what was stored before it, refuses it. */
  lemma {:induction false} FailedAt(base: seq<seq<Cell>>, tuples: seq<seq<Cell>>, rejects: Rejects, k: nat)
    requires k < |tuples|
    ensures k in Failed(base, tuples, rejects) <==> rejects(Isolated(base, tuples[..k], rejects), tuples[k])
    decreases |tuples|
  {
    var n := |tuples| - 1;
    var init := tuples[..n];
    var f0 := Failed(base, init, rejects);
    var rejected := rejects(Isolated(base, init, rejects), tuples[n]);
    assert Failed(base, tuples, rejects) == f0 + (if rejected then [n] else []);
    if k < n {
      FailedAt(base, init, rejects, k);
      assert tuples[..k] == init[..k] && tuples[k] == init[k];
    } else {
      FailedIncreasing(base, init, rejects);
      assert n !in f0;
    }
  }

  /** Every data row is listed as failed exactly when the table refuses it. */
  lemma FailedIff(base: seq<seq<Cell>>, tuples: seq<seq<Cell>>, rejects: Rejects)
    ensures forall k :: 0 <= k < |tuples| ==>
      (k in Failed(base, tuples, rejects) <==> rejects(Isolated(base, tuples[..k], rejects), tuples[k]))
  {
    forall k | 0 <= k < |tuples|
      ensures k in Failed(base, tuples, rejects) <==> rejects(Isolated(base, tuples[..k], rejects), tuples[k])
    {
      FailedAt(base, tuples, rejects, k);
    }
  }

  /** The stored rows are the old ones followed by every data row not
      listed as failed, in order: a failing row is skipped and the later
      rows are still inserted. */
  lemma {:induction false} IsolatedSkipsFailed(base: seq<seq<Cell>>, tuples: seq<seq<Cell>>, rejects: Rejects)
    ensures Isolated(base, tuples, rejects) == base + Skipping(tuples, Failed(base, tuples, rejects))
    decreases |tuples|
  {
    if tuples == [] {
      assert base + [] == base;
    } else {
      var n := |tuples| - 1;
      var init := tuples[..n];
      var f0 := Failed(base, init, rejects);
      var f := Failed(base, tuples, rejects);
      var rejected := rejects(Isolated(base, init, rejects), tuples[n]);
      IsolatedSkipsFailed(base, init, rejects);
      FailedIncreasing(base, init, rejects);
      assert f == f0 + (if rejected then [n] else []);
      assert n in f <==> rejected;
      SkippingAgree(init, f, f0);
    }
  }

  /** Without a failure, RUN.py stores every data row in order and reports
      none as failed. */
  lemma {:induction false} IsolatedWithoutRejects(base: seq<seq<Cell>>, tuples: seq<seq<Cell>>, rejects: Rejects)
    requires FirstReject(base, tuples, rejects).None?
    ensures Isolated(base, tuples, rejects) == base + tuples
    ensures Failed(base, tuples, rejects) == []
    decreases |tuples|
  {
    if tuples == [] {
      assert base + tuples == base;
    } else {
      var n := |tuples| - 1;
      IsolatedWithoutRejects(base, tuples[..n], rejects);
      assert base + tuples[..n] + [tuples[n]] == base + tuples;
    }
  }

  /** A longer run extends a shorter one: rows once stored stay stored. */
  lemma {:induction false} IsolatedGrows(base: seq<seq<Cell>>, tuples: seq<seq<Cell>>, i: nat, rejects: Rejects)
    requires i <= |tuples|
    ensures var short := Isolated(base, tuples[..i], rejects);
      |short| <= |Isolated(base, tuples, rejects)| && Isolated(base, tuples, rejects)[..|short|] == short
    decreases |tuples| - i
  {
    if i < |tuples| {
      var n := |tuples| - 1;
      assert tuples[..n][..i] == tuples[..i];
      IsolatedGrows(base, tuples[..n], i, rejects);
    } else {
      assert tuples[..i] == tuples;
    }
  }

  /** Where popdata.py stores nothing because row `k` fails, RUN.py has
      still stored every row before it. */
  lemma IsolatedKeepsRowsBeforeFailure(base: seq<seq<Cell>>, tuples: seq<seq<Cell>>, rejects: Rejects)
    requires FirstReject(base, tuples, rejects).Some?
    ensures var k := FirstReject(base, tuples, rejects).value;
      k < |tuples| && |base| + k <= |Isolated(base, tuples, rejects)| &&
      Isolated(base, tuples, rejects)[..|base| + k] == base + tuples[..k]
  {
    var k := FirstReject(base, tuples, rejects).value;
    FirstRejectSpec(base, tuples, rejects);
    assert FirstReject(base, tuples[..k], rejects).None? by {
      if FirstReject(base, tuples[..k], rejects).Some? {
        FirstRejectStable(base, tuples, k, rejects);
        FirstRejectSpec(base, tuples[..k], rejects);
      }
    }
    IsolatedWithoutRejects(base, tuples[..k], rejects);
    IsolatedGrows(base, tuples, k, rejects);
  }

  /** One table inside one connection: the committed rows and the inserts
      of the open transaction. */
  class Table {
    var committed: seq<seq<Cell>>
    var pending: seq<seq<Cell>>

    constructor (rows: seq<seq<Cell>>)
      ensures committed == rows && pending == []
    {
      committed := rows;
      pending := [];
    }

    /** The rows the connection itself sees. */
    function Visible(): seq<seq<Cell>>
      reads this
    {
      committed + pending
    }

    /** `cursor.execute(sql, data)`: `false` where SQLite raises, and then
        the statement leaves the table as it was. */
    method Insert(data: seq<Cell>, rejects: Rejects) returns (ok: bool)
      modifies this
      ensures ok == !rejects(old(Visible()), data)
      ensures committed == old(committed)
      ensures pending == old(pending) + (if ok then [data] else [])
    {
      ok := !rejects(Visible(), data);
      if ok {
        pending := pending + [data];
      }
    }

    /** `conn.commit()`. */
    method Commit()
      modifies this
      ensures committed == old(committed) + old(pending) && pending == []
    {
      committed := committed + pending;
      pending := [];
    }

    /** Leaving the `with` block on an exception. */
    method Rollback()
      modifies this
      ensures committed == old(committed) && pending == []
    {
      pending := [];
    }
  }

  /** `dynamic_populate` as RUN.py writes it (RUN.py:231-262). */
  method PopulateIsolated(source: Option<Sheet>, tableInfo: seq<string>, db: Table, rejects: Rejects) returns (outcome: Outcome)
    requires db.pending == []
    modifies db
    ensures db.pending == []
    ensures Prepare(source, tableInfo).LoadError? ==> outcome == LoadFailed && db.committed == old(db.committed)
    ensures Prepare(source, tableInfo).NoCommon? ==> outcome == NoCommonColumns && db.committed == old(db.committed)
    ensures Prepare(source, tableInfo).Ready? ==>
      var tuples := Prepare(source, tableInfo).tuples;
      outcome == Loaded(Failed(old(db.committed), tuples, rejects)) &&
      db.committed == Isolated(old(db.committed), tuples, rejects)
  {
    if source.None? || source.value == [] {
      return LoadFailed;
    }
    var sheet := source.value;
    var excelHeaders := Headers(sheet[0]);
    var commonColumns := CommonColumns(DbColumns(tableInfo), excelHeaders);
    if commonColumns == [] {
      return NoCommonColumns;
    }
    var headerIndex := HeaderIndex(excelHeaders);
    var rows := sheet[1..];
    ghost var tuples := Tuples(rows, commonColumns, headerIndex);
    ghost var base := db.committed;
    var failed: seq<nat> := [];
    for k := 0 to |rows|
      invariant db.committed == base && db.Visible() == Isolated(base, tuples[..k], rejects)
      invariant failed == Failed(base, tuples[..k], rejects)
    {
      assert tuples[..k + 1][..k] == tuples[..k];
      var data := DataTuple(rows[k], commonColumns, headerIndex);
      assert data == tuples[k];
      var ok := db.Insert(data, rejects);
      if !ok {
        failed := failed + [k];
      }
    }
    assert tuples[..|rows|] == tuples;
    db.Commit();
    outcome := Loaded(failed);
  }

  /** `dynamic_populate` as popdata.py and data_import.py write it
      (popdata.py:12-38, data_import.py:73-99): all rows or none. */
  method PopulateAtomic(source: Option<Sheet>, tableInfo: seq<string>, db: Table, rejects: Rejects) returns (outcome: Outcome)
    requires db.pending == []
    modifies db
    ensures db.pending == []
    ensures Prepare(source, tableInfo).LoadError? ==> outcome == LoadFailed && db.committed == old(db.committed)
    ensures Prepare(source, tableInfo).NoCommon? ==> outcome == NoCommonColumns && db.committed == old(db.committed)
    ensures Prepare(source, tableInfo).Ready? ==>
      var tuples := Prepare(source, tableInfo).tuples;
      match FirstReject(old(db.committed), tuples, rejects)
      case None => outcome == Loaded([]) && db.committed == old(db.committed) + tuples
      case Some(k) => outcome == Aborted(k) && db.committed == old(db.committed)
  {
    if source.None? || source.value == [] {
      return LoadFailed;
    }
    var sheet := source.value;
    var headers := Headers(sheet[0]);
    var common := CommonColumns(DbColumns(tableInfo), headers);
    if common == [] {
      return NoCommonColumns;
    }
    var headerIndex := HeaderIndex(headers);
    var rows := sheet[1..];
    ghost var tuples := Tuples(rows, common, headerIndex);
    ghost var base := db.committed;
    for k := 0 to |rows|
      invariant db.committed == base && db.pending == tuples[..k]
      invariant FirstReject(base, tuples[..k], rejects).None?
    {
      assert tuples[..k + 1][..k] == tuples[..k];
      var data := DataTuple(rows[k], common, headerIndex);
      assert data == tuples[k];
      var ok := db.Insert(data, rejects);
      if !ok {
        assert FirstReject(base, tuples[..k + 1], rejects) == Some(k);
        FirstRejectStable(base, tuples, k + 1, rejects);
        db.Rollback();
        return Aborted(k);
      }
    }
    assert tuples[..|rows|] == tuples;
    db.Commit();
    outcome := Loaded([]);
  }
}
