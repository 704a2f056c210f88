/** `import_config_data` in demo.py: one factory, then its departments,
    plants and plant parts from three sheets, linked by name through two
    dictionaries that map a name to the id `cursor.lastrowid` reported. */
module DemoSeed {

  datatype Factory = Factory(id: nat, name: string, description: string)

  /** A row of `departments`, `plants` or `plant_parts`: its key, the key
      of its parent row, its name and its description. */
  datatype Child = Child(id: nat, parentId: nat, name: string, description: string)

  /** A department sheet row (`name`, `description`). */
  datatype DepartmentRow = DepartmentRow(name: string, description: string)

  /** A plant or plant-part sheet row: the parent's name (`department`
      or `plant`), its own name (`name` or `part_name`), `description`. */
  datatype LinkedRow = LinkedRow(parent: string, name: string, description: string)

  const FactoryName := "Fabrik Fantasia"
  const FactoryDescription := "Eine fantastische Fabrik, in der Humor und Technik aufeinandertreffen."

  /** What a linking loop leaves behind: the rows it inserted, in order,
      and the name-to-id dictionary it filled. */
  datatype Phase = Phase(children: seq<Child>, mapping: map<string, nat>)

  /** The department loop: every row is inserted under `factoryId` with the
      next key after `last`, and `department_mapping[name]` is set to the
      new key. */
  function Departments(last: nat, factoryId: nat, rows: seq<DepartmentRow>): Phase
    decreases |rows|
  {
    if rows == [] then Phase([], map[])
    else
      var n := |rows| - 1;
      var prev := Departments(last, factoryId, rows[..n]);
      var id := last + |prev.children| + 1;
      Phase(prev.children + [Child(id, factoryId, rows[n].name, rows[n].description)], prev.mapping[rows[n].name := id])
  }

  /** One department row per sheet row, in sheet order, all under the
      factory, keys numbered on from `last`. */
  lemma {:induction false} DepartmentsRows(last: nat, factoryId: nat, rows: seq<DepartmentRow>)
    ensures |Departments(last, factoryId, rows).children| == |rows|
    ensures forall k :: 0 <= k < |rows| ==>
      Departments(last, factoryId, rows).children[k] == Child(last + 1 + k, factoryId, rows[k].name, rows[k].description)
    decreases |rows|
  {
    if rows != [] {
      var n := |rows| - 1;
      DepartmentsRows(last, factoryId, rows[..n]);
      var c0 := Departments(last, factoryId, rows[..n]).children;
      var cs := Departments(last, factoryId, rows).children;
      assert cs == c0 + [Child(last + n + 1, factoryId, rows[n].name, rows[n].description)];
      forall k | 0 <= k < |rows|
        ensures cs[k] == Child(last + 1 + k, factoryId, rows[k].name, rows[k].description)
      {
        if k < n {
          assert rows[..n][k] == rows[k];
        }
      }
    }
  }

  /** `department_mapping` holds every department name, mapped to the key
      of the last row with that name. */
  lemma {:induction false} DepartmentMappingLast(last: nat, factoryId: nat, rows: seq<DepartmentRow>)
    ensures MapsInsertedNames(Departments(last, factoryId, rows))
    ensures LastWins(Departments(last, factoryId, rows), last)
    decreases |rows|
  {
    if rows != [] {
      var n := |rows| - 1;
      DepartmentMappingLast(last, factoryId, rows[..n]);
      DepartmentsRows(last, factoryId, rows[..n]);
      var prev := Departments(last, factoryId, rows[..n]);
      var id := last + |prev.children| + 1;
      StepKeepsMapping(prev, Child(id, factoryId, rows[n].name, rows[n].description), last);
    }
  }

  /** Appending a row with the next key and recording its name keeps both
      properties of the dictionary. */
  lemma StepKeepsMapping(prev: Phase, c: Child, last: nat)
    requires MapsInsertedNames(prev) && LastWins(prev, last)
    requires c.id == last + |prev.children| + 1
    ensures MapsInsertedNames(Phase(prev.children + [c], prev.mapping[c.name := c.id]))
    ensures LastWins(Phase(prev.children + [c], prev.mapping[c.name := c.id]), last)
  {
    StepKeepsNames(prev, c);
    StepKeepsLastWins(prev, c, last);
  }

  lemma StepKeepsNames(prev: Phase, c: Child)
    requires MapsInsertedNames(prev)
    ensures MapsInsertedNames(Phase(prev.children + [c], prev.mapping[c.name := c.id]))
  {
    var children := prev.children + [c];
    var m := prev.mapping[c.name := c.id];
    var c0 := prev.children;
    forall name
      ensures name in m <==> exists k :: 0 <= k < |children| && children[k].name == name
    {
      assert children[|c0|].name == c.name;
      if name in prev.mapping {
        var k :| 0 <= k < |c0| && c0[k].name == name;
        assert children[k].name == name;
      }
      if name != c.name && exists k :: 0 <= k < |children| && children[k].name == name {
        var k :| 0 <= k < |children| && children[k].name == name;
        assert k < |c0| && c0[k].name == name;
      }
    }
  }

  lemma StepKeepsLastWins(prev: Phase, c: Child, last: nat)
    requires LastWins(prev, last)
    requires c.id == last + |prev.children| + 1
    ensures LastWins(Phase(prev.children + [c], prev.mapping[c.name := c.id]), last)
  {
    var children := prev.children + [c];
    var m := prev.mapping[c.name := c.id];
    var c0 := prev.children;
    forall name | name in m
      ensures m[name] > last && LastChildNamed(children, name, m[name] - last - 1)
    {
      if name != c.name {
        var p := prev.mapping[name] - last - 1;
        assert LastChildNamed(c0, name, p);
        assert children[p] == c0[p];
        forall j | p < j < |children|
          ensures children[j].name != name
        {
          if j < |c0| {
            assert children[j] == c0[j];
          }
        }
      } else {
        assert children[|c0|] == c;
      }
    }
  }

  /** A row whose parent name is mapped to a truthy id (`if dep_id:`). */
  predicate Attached(parents: map<string, nat>, r: LinkedRow) {
    r.parent in parents && parents[r.parent] != 0
  }

  /** The plant (or plant-part) loop: a row whose parent is mapped is
      inserted under the parent's id, with the next key after `last`; the
      others are dropped. Returns the rows inserted and the name mapping
      (`plant_mapping`) recorded on the way. */
  function Attach(last: nat, parents: map<string, nat>, rows: seq<LinkedRow>): Phase
    decreases |rows|
  {
    if rows == [] then Phase([], map[])
    else
      var n := |rows| - 1;
      var prev := Attach(last, parents, rows[..n]);
      var r := rows[n];
      if Attached(parents, r) then
        var id := last + |prev.children| + 1;
        Phase(prev.children + [Child(id, parents[r.parent], r.name, r.description)], prev.mapping[r.name := id])
      else prev
  }

  /** The rows that `Attach` inserts: those whose parent is mapped. */
  function AttachedRows(parents: map<string, nat>, rows: seq<LinkedRow>): (r: seq<LinkedRow>)
    ensures forall k :: 0 <= k < |r| ==> Attached(parents, r[k])
    decreases |rows|
  {
    if rows == [] then []
    else
      var n := |rows| - 1;
      AttachedRows(parents, rows[..n]) + (if Attached(parents, rows[n]) then [rows[n]] else [])
  }

  lemma {:induction false} AttachedRowsIff(parents: map<string, nat>, rows: seq<LinkedRow>)
    ensures forall r :: r in AttachedRows(parents, rows) <==> r in rows && Attached(parents, r)
    decreases |rows|
  {
    if rows != [] {
      var n := |rows| - 1;
      AttachedRowsIff(parents, rows[..n]);
      assert rows == rows[..n] + [rows[n]];
    }
  }

  /** The inserted rows are exactly the attached sheet rows, in sheet
      order, each under its parent's id, keys numbered on from `last`. */
  lemma {:induction false} AttachRows(last: nat, parents: map<string, nat>, rows: seq<LinkedRow>)
    ensures var cs := Attach(last, parents, rows).children;
      var kept := AttachedRows(parents, rows);
      |cs| == |kept| &&
      forall k :: 0 <= k < |kept| ==>
        cs[k] == Child(last + 1 + k, parents[kept[k].parent], kept[k].name, kept[k].description)
    decreases |rows|
  {
    if rows != [] {
      var n := |rows| - 1;
      AttachRows(last, parents, rows[..n]);
      var kept0 := AttachedRows(parents, rows[..n]);
      var kept := AttachedRows(parents, rows);
      if Attached(parents, rows[n]) {
        assert kept == kept0 + [rows[n]];
        forall k | 0 <= k < |kept0|
          ensures kept[k] == kept0[k]
        {
        }
      } else {
        assert kept == kept0;
      }
    }
  }

  /** The name mapping the loop records: exactly the names of the inserted
      rows, each mapped to the key of the last inserted row of that name. */
  lemma {:induction false} AttachMappingLast(last: nat, parents: map<string, nat>, rows: seq<LinkedRow>)
    ensures MapsInsertedNames(Attach(last, parents, rows))
    ensures LastWins(Attach(last, parents, rows), last)
    decreases |rows|
  {
    if rows != [] {
      var n := |rows| - 1;
      AttachMappingLast(last, parents, rows[..n]);
      AttachIds(last, parents, rows[..n]);
      var prev := Attach(last, parents, rows[..n]);
      var r := rows[n];
      if Attached(parents, r) {
        StepKeepsMapping(prev, Child(last + |prev.children| + 1, parents[r.parent], r.name, r.description), last);
      }
    }
  }

  /** The dictionary holds exactly the names of the inserted rows. */
  ghost predicate MapsInsertedNames(ph: Phase) {
    forall name :: name in ph.mapping <==> exists k :: 0 <= k < |ph.children| && ph.children[k].name == name
  }

  /** Each name is mapped to the key of the last inserted row carrying it,
      keys counting on from `last`. */
  ghost predicate LastWins(ph: Phase, last: nat) {
    forall name :: name in ph.mapping ==>
      ph.mapping[name] > last && LastChildNamed(ph.children, name, ph.mapping[name] - last - 1)
  }

  /** `p` is the last child named `name`. */
  predicate LastChildNamed(children: seq<Child>, name: string, p: int) {
    0 <= p < |children| && children[p].name == name && forall j :: p < j < |children| ==> children[j].name != name
  }

  /** The keys `Attach` hands out are `last + 1`, `last + 2`, ... */
  lemma {:induction false} AttachIds(last: nat, parents: map<string, nat>, rows: seq<LinkedRow>)
    ensures forall k :: 0 <= k < |Attach(last, parents, rows).children| ==>
      Attach(last, parents, rows).children[k].id == last + 1 + k
    decreases |rows|
  {
    if rows != [] {
      var n := |rows| - 1;
      AttachIds(last, parents, rows[..n]);
      var c0 := Attach(last, parents, rows[..n]).children;
      var children := Attach(last, parents, rows).children;
      if Attached(parents, rows[n]) {
        var r := rows[n];
        assert children == c0 + [Child(last + |c0| + 1, parents[r.parent], r.name, r.description)];
      } else {
        assert children == c0;
      }
    }
  }

  /** Every value the dictionary holds is the key of an inserted row. */
  lemma MappedKeysExist(ph: Phase, last: nat)
    requires LastWins(ph, last)
    requires forall k :: 0 <= k < |ph.children| ==> ph.children[k].id == last + 1 + k
    ensures forall name :: name in ph.mapping ==> exists d :: d in ph.children && d.id == ph.mapping[name]
  {
    forall name | name in ph.mapping
      ensures exists d :: d in ph.children && d.id == ph.mapping[name]
    {
      var p := ph.mapping[name] - last - 1;
      assert ph.children[p].id == ph.mapping[name];
    }
  }

  /** When every id in the parent dictionary names a row of `table`, every
      row the loop inserts hangs under a row of `table`. */
  lemma AttachForeignKeys(table: seq<Child>, last: nat, parents: map<string, nat>, rows: seq<LinkedRow>)
    requires forall name :: name in parents ==> exists d :: d in table && d.id == parents[name]
    ensures forall c :: c in Attach(last, parents, rows).children ==> exists d :: d in table && d.id == c.parentId
  {
    AttachRows(last, parents, rows);
    var cs := Attach(last, parents, rows).children;
    var kept := AttachedRows(parents, rows);
    forall c | c in cs
      ensures exists d :: d in table && d.id == c.parentId
    {
      var k :| 0 <= k < |cs| && cs[k] == c;
      assert Attached(parents, kept[k]);
      assert c.parentId == parents[kept[k].parent];
    }
  }

  /** The four tables `import_config_data` writes, with their AUTOINCREMENT
      counters. */
  datatype Seed = Seed(factories: seq<Factory>, departments: seq<Child>, plants: seq<Child>,
                       parts: seq<Child>, factorySeq: nat, departmentSeq: nat, plantSeq: nat, partSeq: nat)
  {
    ghost predicate KeysInRange() {
      (forall f :: f in factories ==> 1 <= f.id <= factorySeq) &&
      (forall c :: c in departments ==> 1 <= c.id <= departmentSeq) &&
      (forall c :: c in plants ==> 1 <= c.id <= plantSeq) &&
      (forall c :: c in parts ==> 1 <= c.id <= partSeq)
    }

    /** `departments.factory_id`, `plants.department_id` and
        `plant_parts.plant_id` name existing rows. */
    ghost predicate ForeignKeys() {
      (forall c :: c in departments ==> exists f :: f in factories && f.id == c.parentId) &&
      (forall c :: c in plants ==> exists d :: d in departments && d.id == c.parentId) &&
      (forall c :: c in parts ==> exists q :: q in plants && q.id == c.parentId)
    }

    ghost predicate Valid() {
      KeysInRange() && ForeignKeys()
    }
  }

  /** The rows the factory insert and the three loops leave in the tables. */
  function ImportConfig(s: Seed, departmentRows: seq<DepartmentRow>, plantRows: seq<LinkedRow>,
                        partRows: seq<LinkedRow>): Seed
  {
    var factoryId := s.factorySeq + 1;
    var deps := Departments(s.departmentSeq, factoryId, departmentRows);
    var plants := Attach(s.plantSeq, deps.mapping, plantRows);
    var parts := Attach(s.partSeq, plants.mapping, partRows).children;
    Seed(s.factories + [Factory(factoryId, FactoryName, FactoryDescription)],
         s.departments + deps.children, s.plants + plants.children, s.parts + parts,
         factoryId, s.departmentSeq + |departmentRows|, s.plantSeq + |plants.children|, s.partSeq + |parts|)
  }

  /** After the import every department row hangs under a factory. */
  lemma ImportDepartmentsUnderFactory(s: Seed, departmentRows: seq<DepartmentRow>, plantRows: seq<LinkedRow>,
                                      partRows: seq<LinkedRow>)
    requires s.ForeignKeys()
    ensures var r := ImportConfig(s, departmentRows, plantRows, partRows);
      forall c :: c in r.departments ==> exists f :: f in r.factories && f.id == c.parentId
  {
    var r := ImportConfig(s, departmentRows, plantRows, partRows);
    var factoryId := s.factorySeq + 1;
    var deps := Departments(s.departmentSeq, factoryId, departmentRows);
    DepartmentsRows(s.departmentSeq, factoryId, departmentRows);
    var f := Factory(factoryId, FactoryName, FactoryDescription);
    assert f in r.factories;
    forall c | c in r.departments
      ensures exists g :: g in r.factories && g.id == c.parentId
    {
      if c !in s.departments {
        var k :| 0 <= k < |deps.children| && deps.children[k] == c;
        assert c.parentId == factoryId;
      }
    }
  }

  /** After the import every plant row hangs under a department and every
      plant-part row under a plant. */
  lemma ImportPlantsAndPartsLinked(s: Seed, departmentRows: seq<DepartmentRow>, plantRows: seq<LinkedRow>,
                                   partRows: seq<LinkedRow>)
    requires s.ForeignKeys()
    ensures var r := ImportConfig(s, departmentRows, plantRows, partRows);
      (forall c :: c in r.plants ==> exists d :: d in r.departments && d.id == c.parentId) &&
      (forall c :: c in r.parts ==> exists q :: q in r.plants && q.id == c.parentId)
  {
    var r := ImportConfig(s, departmentRows, plantRows, partRows);
    var factoryId := s.factorySeq + 1;
    var deps := Departments(s.departmentSeq, factoryId, departmentRows);
    var plants := Attach(s.plantSeq, deps.mapping, plantRows);
    DepartmentsRows(s.departmentSeq, factoryId, departmentRows);
    DepartmentMappingLast(s.departmentSeq, factoryId, departmentRows);
    MappedKeysExist(deps, s.departmentSeq);
    AttachForeignKeys(deps.children, s.plantSeq, deps.mapping, plantRows);
    AttachIds(s.plantSeq, deps.mapping, plantRows);
    AttachMappingLast(s.plantSeq, deps.mapping, plantRows);
    MappedKeysExist(plants, s.plantSeq);
    AttachForeignKeys(plants.children, s.partSeq, plants.mapping, partRows);
  }

  /** New keys come from the counters, which advance by the number of
      rows inserted. */
  lemma ImportKeysInRange(s: Seed, departmentRows: seq<DepartmentRow>, plantRows: seq<LinkedRow>,
                          partRows: seq<LinkedRow>)
    requires s.KeysInRange()
    ensures ImportConfig(s, departmentRows, plantRows, partRows).KeysInRange()
  {
    var factoryId := s.factorySeq + 1;
    var deps := Departments(s.departmentSeq, factoryId, departmentRows);
    var plants := Attach(s.plantSeq, deps.mapping, plantRows);
    var parts := Attach(s.partSeq, plants.mapping, partRows);
    var r := ImportConfig(s, departmentRows, plantRows, partRows);
    assert r == Seed(s.factories + [Factory(factoryId, FactoryName, FactoryDescription)],
                     s.departments + deps.children, s.plants + plants.children, s.parts + parts.children,
                     factoryId, s.departmentSeq + |departmentRows|, s.plantSeq + |plants.children|,
                     s.partSeq + |parts.children|);
    assert forall f :: f in r.factories ==> 1 <= f.id <= r.factorySeq;
    assert forall c :: c in r.departments ==> 1 <= c.id <= r.departmentSeq by {
      DepartmentsRows(s.departmentSeq, factoryId, departmentRows);
      AppendKeysInRange(s.departments, s.departmentSeq, deps.children);
    }
    assert forall c :: c in r.plants ==> 1 <= c.id <= r.plantSeq by {
      AttachIds(s.plantSeq, deps.mapping, plantRows);
      AppendKeysInRange(s.plants, s.plantSeq, plants.children);
    }
    assert forall c :: c in r.parts ==> 1 <= c.id <= r.partSeq by {
      AttachIds(s.partSeq, plants.mapping, partRows);
      AppendKeysInRange(s.parts, s.partSeq, parts.children);
    }
  }

  /** Rows keyed on from the counter stay within the advanced counter. */
  lemma AppendKeysInRange(rows: seq<Child>, last: nat, added: seq<Child>)
    requires forall c :: c in rows ==> 1 <= c.id <= last
    requires forall k :: 0 <= k < |added| ==> added[k].id == last + 1 + k
    ensures forall c :: c in rows + added ==> 1 <= c.id <= last + |added|
  {
    forall c | c in rows + added
      ensures 1 <= c.id <= last + |added|
    {
      if c !in rows {
        var k :| 0 <= k < |added| && added[k] == c;
      }
    }
  }

  /** The import keeps a consistent database consistent. */
  lemma ImportConfigValid(s: Seed, departmentRows: seq<DepartmentRow>, plantRows: seq<LinkedRow>,
                          partRows: seq<LinkedRow>)
    requires s.Valid()
    ensures ImportConfig(s, departmentRows, plantRows, partRows).Valid()
  {
    ImportKeysInRange(s, departmentRows, plantRows, partRows);
    ImportDepartmentsUnderFactory(s, departmentRows, plantRows, partRows);
    ImportPlantsAndPartsLinked(s, departmentRows, plantRows, partRows);
  }

  /** The demo database connection: the four tables and their counters. */
  class DemoDb {
    var factories: seq<Factory>
    var departments: seq<Child>
    var plants: seq<Child>
    var parts: seq<Child>
    var factorySeq: nat
    var departmentSeq: nat
    var plantSeq: nat
    var partSeq: nat

    function State(): Seed
      reads this
    {
      Seed(factories, departments, plants, parts, factorySeq, departmentSeq, plantSeq, partSeq)
    }

    constructor (s: Seed)
      ensures State() == s
    {
      factories, departments, plants, parts := s.factories, s.departments, s.plants, s.parts;
      factorySeq, departmentSeq, plantSeq, partSeq := s.factorySeq, s.departmentSeq, s.plantSeq, s.partSeq;
    }

    /** `INSERT INTO factories`; returns `cursor.lastrowid`. */
    method InsertFactory(name: string, description: string) returns (id: nat)
      modifies this
      ensures id == old(factorySeq) + 1
      ensures State() == old(State()).(factories := old(factories) + [Factory(id, name, description)], factorySeq := id)
    {
      id := factorySeq + 1;
      factories := factories + [Factory(id, name, description)];
      factorySeq := id;
    }

    /** `INSERT INTO departments`; returns `cursor.lastrowid`. */
    method InsertDepartment(factoryId: nat, name: string, description: string) returns (id: nat)
      modifies this
      ensures id == old(departmentSeq) + 1
      ensures State() == old(State()).(departments := old(departments) + [Child(id, factoryId, name, description)],
                                       departmentSeq := id)
    {
      id := departmentSeq + 1;
      departments := departments + [Child(id, factoryId, name, description)];
      departmentSeq := id;
    }

    /** `INSERT INTO plants`; returns `cursor.lastrowid`. */
    method InsertPlant(departmentId: nat, name: string, description: string) returns (id: nat)
      modifies this
      ensures id == old(plantSeq) + 1
      ensures State() == old(State()).(plants := old(plants) + [Child(id, departmentId, name, description)],
                                       plantSeq := id)
    {
      id := plantSeq + 1;
      plants := plants + [Child(id, departmentId, name, description)];
      plantSeq := id;
    }

    /** `INSERT INTO plant_parts`. */
    method InsertPart(plantId: nat, name: string, description: string)
      modifies this
      ensures State() == old(State()).(parts := old(parts) + [Child(partSeq, plantId, name, description)],
                                       partSeq := old(partSeq) + 1)
    {
      partSeq := partSeq + 1;
      parts := parts + [Child(partSeq, plantId, name, description)];
    }

    /** `import_config_data`: the factory, then the three sheet loops. */
    method ImportConfigData(departmentRows: seq<DepartmentRow>, plantRows: seq<LinkedRow>, partRows: seq<LinkedRow>)
      modifies this
      ensures State() == ImportConfig(old(State()), departmentRows, plantRows, partRows)
    {
      var factoryId := InsertFactory(FactoryName, FactoryDescription);
      var departmentMapping := ImportDepartments(factoryId, departmentRows);
      var plantMapping := ImportPlants(departmentMapping, plantRows);
      ImportParts(plantMapping, partRows);
    }

    /** The department loop, filling `department_mapping`. */
    method ImportDepartments(factoryId: nat, rows: seq<DepartmentRow>) returns (mapping: map<string, nat>)
      modifies this
      ensures mapping == Departments(old(departmentSeq), factoryId, rows).mapping
      ensures State() == old(State()).(departments := old(departments) + Departments(old(departmentSeq), factoryId, rows).children,
                                       departmentSeq := old(departmentSeq) + |rows|)
    {
      ghost var s := State();
      mapping := map[];
      var i := 0;
      while i < |rows|
        invariant 0 <= i <= |rows|
        invariant departments == s.departments + Departments(s.departmentSeq, factoryId, rows[..i]).children
        invariant mapping == Departments(s.departmentSeq, factoryId, rows[..i]).mapping
        invariant State() == s.(departments := departments, departmentSeq := s.departmentSeq + i)
      {
        DepartmentsRows(s.departmentSeq, factoryId, rows[..i]);
        assert rows[..i + 1][..i] == rows[..i];
        var id := InsertDepartment(factoryId, rows[i].name, rows[i].description);
        mapping := mapping[rows[i].name := id];
        i := i + 1;
      }
      assert rows[..i] == rows;
    }

    /** The plant loop: a row is inserted only when its department's name
        maps to a truthy id; `plant_mapping` is filled on the way. */
    method ImportPlants(departmentMapping: map<string, nat>, rows: seq<LinkedRow>) returns (mapping: map<string, nat>)
      modifies this
      ensures mapping == Attach(old(plantSeq), departmentMapping, rows).mapping
      ensures State() == old(State()).(plants := old(plants) + Attach(old(plantSeq), departmentMapping, rows).children,
                                       plantSeq := old(plantSeq) + |Attach(old(plantSeq), departmentMapping, rows).children|)
    {
      ghost var s := State();
      mapping := map[];
      var i := 0;
      while i < |rows|
        invariant 0 <= i <= |rows|
        invariant plants == s.plants + Attach(s.plantSeq, departmentMapping, rows[..i]).children
        invariant mapping == Attach(s.plantSeq, departmentMapping, rows[..i]).mapping
        invariant State() == s.(plants := plants, plantSeq := s.plantSeq + |Attach(s.plantSeq, departmentMapping, rows[..i]).children|)
      {
        assert rows[..i + 1][..i] == rows[..i];
        var row := rows[i];
        if row.parent in departmentMapping && departmentMapping[row.parent] != 0 {
          var id := InsertPlant(departmentMapping[row.parent], row.name, row.description);
          mapping := mapping[row.name := id];
        }
        i := i + 1;
      }
      assert rows[..i] == rows;
    }

    /** The plant-part loop: a row is inserted only when its plant's name
        maps to a truthy id. */
    method ImportParts(plantMapping: map<string, nat>, rows: seq<LinkedRow>)
      modifies this
      ensures State() == old(State()).(parts := old(parts) + Attach(old(partSeq), plantMapping, rows).children,
                                       partSeq := old(partSeq) + |Attach(old(partSeq), plantMapping, rows).children|)
    {
      ghost var s := State();
      var i := 0;
      while i < |rows|
        invariant 0 <= i <= |rows|
        invariant parts == s.parts + Attach(s.partSeq, plantMapping, rows[..i]).children
        invariant State() == s.(parts := parts, partSeq := s.partSeq + |Attach(s.partSeq, plantMapping, rows[..i]).children|)
      {
        assert rows[..i + 1][..i] == rows[..i];
        var row := rows[i];
        if row.parent in plantMapping && plantMapping[row.parent] != 0 {
          InsertPart(plantMapping[row.parent], row.name, row.description);
        }
        i := i + 1;
      }
      assert rows[..i] == rows;
    }
  }
}
