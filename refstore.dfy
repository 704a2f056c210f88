/** The three reference tables the hierarchy import writes, as the schema
    defines them: `abteilungen(abteilung_id, name UNIQUE)`,
    `anlagen(anlage_id, abteilung_id -> abteilungen, name)` and
    `anlagenteile(anlagenteil_id, anlage_id -> anlagen, name)`, every key
    an AUTOINCREMENT primary key. Only `abteilungen.name` is UNIQUE, so
    `INSERT OR IGNORE` deduplicates there and is a plain insert for the
    other two tables. */
module RefStore {

  datatype Option<T> = None | Some(value: T)

  datatype Abteilung = Abteilung(id: nat, name: string)
  datatype Anlage = Anlage(id: nat, abteilungId: nat, name: string)
  datatype Anlagenteil = Anlagenteil(id: nat, anlageId: nat, name: string)

  /** How a `SELECT ... fetchone()` chooses among several matching rows:
      given the matching ids in table order it names one of them (taken
      modulo their number). SQLite does not promise an order, so the
      import is stated for every choice. */
  type Chooser = seq<nat> -> nat

  function Choose(ids: seq<nat>, pick: Chooser): (r: nat)
    requires ids != []
    ensures r in ids
  {
    ids[pick(ids) % |ids|]
  }

  /** The contents of the three tables, and per table the AUTOINCREMENT
      sequence value (the largest id handed out so far). */
  datatype Tables = Tables(
    abteilungen: seq<Abteilung>,
    anlagen: seq<Anlage>,
    anlagenteile: seq<Anlagenteil>,
    abteilungSeq: nat,
    anlageSeq: nat,
    anlagenteilSeq: nat)
  {
    function AbteilungNames(): set<string> {
      set a | a in abteilungen :: a.name
    }

    function AbteilungIds(): set<nat> {
      set a | a in abteilungen :: a.id
    }

    function AnlageIds(): set<nat> {
      set a | a in anlagen :: a.id
    }

    /** What the schema guarantees of any database the import can meet:
        keys are positive and within the AUTOINCREMENT sequence, primary
        keys are distinct, `abteilungen.name` is UNIQUE and both foreign
        keys resolve. */
    ghost predicate Valid() {
      KeysInRange() && DistinctKeys() && UniqueNames() && ForeignKeys()
    }

    /** Every key is positive and no larger than its table's sequence value. */
    ghost predicate KeysInRange() {
      (forall i :: 0 <= i < |abteilungen| ==> 1 <= abteilungen[i].id <= abteilungSeq) &&
      (forall i :: 0 <= i < |anlagen| ==> 1 <= anlagen[i].id <= anlageSeq) &&
      (forall i :: 0 <= i < |anlagenteile| ==> 1 <= anlagenteile[i].id <= anlagenteilSeq)
    }

    /** Primary keys are distinct within each table. */
    ghost predicate DistinctKeys() {
      (forall i, j :: 0 <= i < j < |abteilungen| ==> abteilungen[i].id != abteilungen[j].id) &&
      (forall i, j :: 0 <= i < j < |anlagen| ==> anlagen[i].id != anlagen[j].id) &&
      (forall i, j :: 0 <= i < j < |anlagenteile| ==> anlagenteile[i].id != anlagenteile[j].id)
    }

    /** `abteilungen.name` is UNIQUE. */
    ghost predicate UniqueNames() {
      forall i, j :: 0 <= i < j < |abteilungen| ==> abteilungen[i].name != abteilungen[j].name
    }

    /** Both foreign keys resolve. */
    ghost predicate ForeignKeys() {
      (forall i :: 0 <= i < |anlagen| ==> anlagen[i].abteilungId in AbteilungIds()) &&
      (forall i :: 0 <= i < |anlagenteile| ==> anlagenteile[i].anlageId in AnlageIds())
    }

    /** `INSERT OR IGNORE INTO abteilungen (name) VALUES (?)`: the UNIQUE
        constraint on the name turns a second insert into a no-op. */
    function InsertOrIgnoreAbteilung(name: string): Tables {
      if name in AbteilungNames() then this
      else this.(abteilungen := abteilungen + [Abteilung(abteilungSeq + 1, name)], abteilungSeq := abteilungSeq + 1)
    }

    /** `SELECT abteilung_id FROM abteilungen WHERE name=?` followed by
        `fetchone()`: the id of the first row with that name, if any. */
    function SelectAbteilungId(name: string): (r: Option<nat>)
      ensures r.Some? <==> name in AbteilungNames()
      ensures r.Some? ==> Abteilung(r.value, name) in abteilungen && r.value in AbteilungIds()
    {
      FirstAbteilungId(abteilungen, name)
    }

    /** `INSERT OR IGNORE INTO anlagen (abteilung_id, name) VALUES (?, ?)`:
        no UNIQUE constraint applies, so the row is always added. */
    function InsertAnlage(abteilungId: nat, name: string): Tables {
      this.(anlagen := anlagen + [Anlage(anlageSeq + 1, abteilungId, name)], anlageSeq := anlageSeq + 1)
    }

    /** `SELECT anlage_id FROM anlagen WHERE abteilung_id=? AND name=?`
        followed by `fetchone()`: some matching id, if any row matches. */
    function SelectAnlageId(abteilungId: nat, name: string, pick: Chooser): (r: Option<nat>)
      ensures r.Some? <==> exists i :: 0 <= i < |anlagen| && anlagen[i].abteilungId == abteilungId && anlagen[i].name == name
      ensures r.Some? ==> Anlage(r.value, abteilungId, name) in anlagen
    {
      var ids := MatchingAnlagen(anlagen, abteilungId, name);
      MatchingAnlagenSpec(anlagen, abteilungId, name);
      if ids == [] then None
      else
        var id := Choose(ids, pick);
        var k :| 0 <= k < |ids| && ids[k] == id;
        Some(id)
    }

    /** `INSERT OR IGNORE INTO anlagenteile (anlage_id, name) VALUES (?, ?)`:
        no UNIQUE constraint applies, so the row is always added. */
    function InsertAnlagenteil(anlageId: nat, name: string): Tables {
      this.(anlagenteile := anlagenteile + [Anlagenteil(anlagenteilSeq + 1, anlageId, name)], anlagenteilSeq := anlagenteilSeq + 1)
    }
  }

  /** The UNIQUE name and the AUTOINCREMENT key keep the schema's
      guarantees: a new department gets an unused key, and a name already
      present is not added again. */
  lemma InsertOrIgnoreAbteilungValid(t: Tables, name: string)
    requires t.Valid()
    ensures var r := t.InsertOrIgnoreAbteilung(name);
      r.Valid() && name in r.AbteilungNames() && t.AbteilungIds() <= r.AbteilungIds() &&
      r.abteilungen[..|t.abteilungen|] == t.abteilungen
  {
    var r := t.InsertOrIgnoreAbteilung(name);
    if name !in t.AbteilungNames() {
      NewAbteilungKeys(t, name);
      NewAbteilungUnique(t, name);
      NewAbteilungForeignKeys(t, name);
      assert Abteilung(t.abteilungSeq + 1, name) in r.abteilungen;
    }
  }

  /** A new department's key is the next sequence value, unused so far. */
  lemma NewAbteilungKeys(t: Tables, name: string)
    requires t.KeysInRange() && t.DistinctKeys() && name !in t.AbteilungNames()
    ensures t.InsertOrIgnoreAbteilung(name).KeysInRange() && t.InsertOrIgnoreAbteilung(name).DistinctKeys()
  {
  }

  /** A name not yet present keeps the names unique. */
  lemma NewAbteilungUnique(t: Tables, name: string)
    requires t.UniqueNames() && name !in t.AbteilungNames()
    ensures t.InsertOrIgnoreAbteilung(name).UniqueNames()
  {
    forall i | 0 <= i < |t.abteilungen|
      ensures t.abteilungen[i].name != name
    {
      assert t.abteilungen[i] in t.abteilungen;
    }
  }

  /** Adding a department keeps every department key, so foreign keys still resolve. */
  lemma NewAbteilungForeignKeys(t: Tables, name: string)
    requires t.ForeignKeys() && name !in t.AbteilungNames()
    ensures t.InsertOrIgnoreAbteilung(name).ForeignKeys()
    ensures t.AbteilungIds() <= t.InsertOrIgnoreAbteilung(name).AbteilungIds()
  {
    var r := t.InsertOrIgnoreAbteilung(name);
    assert forall i :: 0 <= i < |t.abteilungen| ==> r.abteilungen[i] == t.abteilungen[i];
    assert t.AbteilungIds() <= r.AbteilungIds();
  }

  /** Get-or-create adds the name to the set of department names and
      nothing else. */
  lemma InsertOrIgnoreAbteilungNames(t: Tables, name: string)
    ensures t.InsertOrIgnoreAbteilung(name).AbteilungNames() == t.AbteilungNames() + {name}
  {
    var r := t.InsertOrIgnoreAbteilung(name);
    if name !in t.AbteilungNames() {
      assert r.abteilungen[|t.abteilungen|].name == name;
      forall a | a in r.abteilungen
        ensures a in t.abteilungen || a == r.abteilungen[|t.abteilungen|]
      {
      }
    }
  }

  /** An Anlage inserted under an existing department keeps the schema's
      guarantees, including the foreign key to `abteilungen`. */
  lemma InsertAnlageValid(t: Tables, abteilungId: nat, name: string)
    requires t.Valid() && abteilungId in t.AbteilungIds()
    ensures var r := t.InsertAnlage(abteilungId, name);
      r.Valid() && t.AnlageIds() <= r.AnlageIds()
  {
    var r := t.InsertAnlage(abteilungId, name);
    assert forall i :: 0 <= i < |t.anlagen| ==> r.anlagen[i] == t.anlagen[i];
    assert t.AnlageIds() <= r.AnlageIds();
    assert r.KeysInRange() && r.DistinctKeys() && r.UniqueNames();
    assert r.ForeignKeys();
  }

  /** An Anlagenteil inserted under an existing Anlage keeps the schema's
      guarantees, including the foreign key to `anlagen`. */
  lemma InsertAnlagenteilValid(t: Tables, anlageId: nat, name: string)
    requires t.Valid() && anlageId in t.AnlageIds()
    ensures t.InsertAnlagenteil(anlageId, name).Valid()
  {
    var r := t.InsertAnlagenteil(anlageId, name);
    assert r.KeysInRange() && r.DistinctKeys() && r.UniqueNames();
    assert r.ForeignKeys();
  }

  /** A database before any reference data has been imported. */
  const Fresh: Tables := Tables([], [], [], 0, 0, 0)

  lemma FreshValid()
    ensures Fresh.Valid()
  {
  }

  function FirstAbteilungId(abts: seq<Abteilung>, name: string): (r: Option<nat>)
    ensures r.Some? <==> name in (set a | a in abts :: a.name)
    ensures r.Some? ==> Abteilung(r.value, name) in abts
  {
    if abts == [] then None
    else if abts[0].name == name then Some(abts[0].id)
    else
      var r := FirstAbteilungId(abts[1..], name);
      assert abts == [abts[0]] + abts[1..];
      r
  }

  function MatchingAnlagen(anlagen: seq<Anlage>, abteilungId: nat, name: string): seq<nat>
  {
    if anlagen == [] then []
    else
      var rest := MatchingAnlagen(anlagen[1..], abteilungId, name);
      if anlagen[0].abteilungId == abteilungId && anlagen[0].name == name then [anlagen[0].id] + rest else rest
  }

  /** Every id `MatchingAnlagen` returns belongs to a matching row, and
      some row matches exactly when the result is not empty. */
  lemma {:induction false} MatchingAnlagenSpec(anlagen: seq<Anlage>, abteilungId: nat, name: string)
    ensures var ids := MatchingAnlagen(anlagen, abteilungId, name);
      (ids != [] <==> exists i :: 0 <= i < |anlagen| && anlagen[i].abteilungId == abteilungId && anlagen[i].name == name) &&
      (forall k :: 0 <= k < |ids| ==> exists i :: 0 <= i < |anlagen| && anlagen[i] == Anlage(ids[k], abteilungId, name))
  {
    if anlagen != [] {
      var rest := MatchingAnlagen(anlagen[1..], abteilungId, name);
      MatchingAnlagenSpec(anlagen[1..], abteilungId, name);
      assert forall i :: 0 <= i < |anlagen| - 1 ==> anlagen[1..][i] == anlagen[i + 1];
      var ids := MatchingAnlagen(anlagen, abteilungId, name);
      if anlagen[0].abteilungId == abteilungId && anlagen[0].name == name {
        forall k | 0 <= k < |ids|
          ensures exists i :: 0 <= i < |anlagen| && anlagen[i] == Anlage(ids[k], abteilungId, name)
        {
          if k == 0 {
            assert anlagen[0] == Anlage(ids[k], abteilungId, name);
          } else {
            assert ids[k] == rest[k - 1];
            var i :| 0 <= i < |anlagen[1..]| && anlagen[1..][i] == Anlage(rest[k - 1], abteilungId, name);
            assert anlagen[i + 1] == Anlage(ids[k], abteilungId, name);
          }
        }
      } else {
        forall k | 0 <= k < |ids|
          ensures exists i :: 0 <= i < |anlagen| && anlagen[i] == Anlage(ids[k], abteilungId, name)
        {
          var i :| 0 <= i < |anlagen[1..]| && anlagen[1..][i] == Anlage(rest[k], abteilungId, name);
          assert anlagen[i + 1] == Anlage(ids[k], abteilungId, name);
        }
        if exists i :: 0 <= i < |anlagen| && anlagen[i].abteilungId == abteilungId && anlagen[i].name == name {
          var i :| 0 <= i < |anlagen| && anlagen[i].abteilungId == abteilungId && anlagen[i].name == name;
          assert i > 0;
          assert anlagen[1..][i - 1] == anlagen[i];
        }
      }
    }
  }

  /** The database connection the import works through: one sequence of
      rows per table and one AUTOINCREMENT counter per table. Each method
      is one SQL statement the import issues. */
  class Store {
    var abteilungen: seq<Abteilung>
    var anlagen: seq<Anlage>
    var anlagenteile: seq<Anlagenteil>
    var abteilungSeq: nat
    var anlageSeq: nat
    var anlagenteilSeq: nat

    function State(): Tables
      reads this
    {
      Tables(abteilungen, anlagen, anlagenteile, abteilungSeq, anlageSeq, anlagenteilSeq)
    }

    constructor (t: Tables)
      ensures State() == t
    {
      abteilungen, anlagen, anlagenteile := t.abteilungen, t.anlagen, t.anlagenteile;
      abteilungSeq, anlageSeq, anlagenteilSeq := t.abteilungSeq, t.anlageSeq, t.anlagenteilSeq;
    }

    method InsertOrIgnoreAbteilung(name: string)
      modifies this
      ensures State() == old(State()).InsertOrIgnoreAbteilung(name)
    {
      if name !in State().AbteilungNames() {
        abteilungen := abteilungen + [Abteilung(abteilungSeq + 1, name)];
        abteilungSeq := abteilungSeq + 1;
      }
    }

    method SelectAbteilungId(name: string) returns (id: Option<nat>)
      ensures id == State().SelectAbteilungId(name)
    {
      id := State().SelectAbteilungId(name);
    }

    method InsertAnlage(abteilungId: nat, name: string)
      modifies this
      ensures State() == old(State()).InsertAnlage(abteilungId, name)
    {
      anlagen := anlagen + [Anlage(anlageSeq + 1, abteilungId, name)];
      anlageSeq := anlageSeq + 1;
    }

    method SelectAnlageId(abteilungId: nat, name: string, pick: Chooser) returns (id: Option<nat>)
      ensures id == State().SelectAnlageId(abteilungId, name, pick)
    {
      id := State().SelectAnlageId(abteilungId, name, pick);
    }

    method InsertAnlagenteil(anlageId: nat, name: string)
      modifies this
      ensures State() == old(State()).InsertAnlagenteil(anlageId, name)
    {
      anlagenteile := anlagenteile + [Anlagenteil(anlagenteilSeq + 1, anlageId, name)];
      anlagenteilSeq := anlagenteilSeq + 1;
    }
  }
}
