/** The deterministic parts of `generate_incidents` in demo.py: the weighted
    list random draws pick plant parts from, the weekly shift plan, the
    cause chosen from a part's name, and the counter of incidents inserted
    over the days of 2023. The random draws are inputs. */
module DemoIncidents {
  import opened PyText

  /** A row of `SELECT id, part_name FROM plant_parts`. */
  datatype PartRow = PartRow(id: nat, name: string)

  /** How many times a part's id goes into `weighted_parts`, judged on its
      lowercased name: a coffee machine is picked oftener, a biscuit
      machine more rarely. */
  function Weight(name: string): nat {
    var lowered := Lower(name);
    if Contains(lowered, CoffeeKey) then 5
    else if Contains(lowered, BiscuitKey) then 1
    else 2
  }

  /** The substrings the lowercased part name is tested for. */
  const CoffeeKey := "kaffeemaschine"
  const BiscuitKey := "keksomat"

  /** The three weights and the tests that select them, the coffee-machine
      test taking precedence. */
  lemma WeightClasses(name: string)
    ensures Weight(name) == 5 <==> Contains(Lower(name), "kaffeemaschine")
    ensures Weight(name) == 1 <==> !Contains(Lower(name), "kaffeemaschine") && Contains(Lower(name), "keksomat")
    ensures Weight(name) == 2 <==> !Contains(Lower(name), "kaffeemaschine") && !Contains(Lower(name), "keksomat")
    ensures 1 <= Weight(name) <= 5
  {
  }

  /** `[x] * n`. */
  function Repeat(x: nat, n: nat): (r: seq<nat>)
    ensures |r| == n && forall i :: 0 <= i < n ==> r[i] == x
  {
    seq(n, _ => x)
  }

  /** `weighted_parts` after the loop over `parts`. */
  function Weighted(parts: seq<PartRow>): seq<nat>
    decreases |parts|
  {
    if parts == [] then []
    else
      var n := |parts| - 1;
      Weighted(parts[..n]) + Repeat(parts[n].id, Weight(parts[n].name))
  }

  function TotalWeight(parts: seq<PartRow>): nat
    decreases |parts|
  {
    if parts == [] then 0 else TotalWeight(parts[..|parts| - 1]) + Weight(parts[|parts| - 1].name)
  }

  /** The sum of the weights of the parts with id `id`. */
  function WeightOf(parts: seq<PartRow>, id: nat): nat
    decreases |parts|
  {
    if parts == [] then 0
    else
      var n := |parts| - 1;
      WeightOf(parts[..n], id) + (if parts[n].id == id then Weight(parts[n].name) else 0)
  }

  /** The list is as long as the weights add up to, and non-empty exactly
      when there are parts. */
  lemma {:induction false} WeightedLength(parts: seq<PartRow>)
    ensures |Weighted(parts)| == TotalWeight(parts)
    ensures |parts| <= TotalWeight(parts) <= 5 * |parts|
    decreases |parts|
  {
    if parts != [] {
      WeightedLength(parts[..|parts| - 1]);
      WeightClasses(parts[|parts| - 1].name);
    }
  }

  /** Each id occurs in the list as often as the weights of the parts that
      carry it add up to. */
  lemma {:induction false} WeightedCount(parts: seq<PartRow>, id: nat)
    ensures multiset(Weighted(parts))[id] == WeightOf(parts, id)
    decreases |parts|
  {
    if parts != [] {
      var n := |parts| - 1;
      WeightedCount(parts[..n], id);
      var rep := Repeat(parts[n].id, Weight(parts[n].name));
      assert multiset(Weighted(parts)) == multiset(Weighted(parts[..n])) + multiset(rep);
      RepeatCount(parts[n].id, Weight(parts[n].name), id);
    }
  }

  lemma {:induction false} RepeatCount(x: nat, n: nat, id: nat)
    ensures multiset(Repeat(x, n))[id] == if x == id then n else 0
    decreases n
  {
    if n > 0 {
      RepeatCount(x, n - 1, id);
      assert Repeat(x, n) == Repeat(x, n - 1) + [x];
    }
  }

  predicate DistinctIds(parts: seq<PartRow>) {
    forall i, j :: 0 <= i < j < |parts| ==> parts[i].id != parts[j].id
  }

  /** With the ids unique, as the primary key makes them, each part's id
      occurs exactly its weight times. */
  lemma {:induction false} WeightOfDistinct(parts: seq<PartRow>, k: nat)
    requires DistinctIds(parts) && k < |parts|
    ensures multiset(Weighted(parts))[parts[k].id] == Weight(parts[k].name)
    decreases |parts|
  {
    WeightedCount(parts, parts[k].id);
    WeightOfOne(parts, k);
  }

  lemma {:induction false} WeightOfOne(parts: seq<PartRow>, k: nat)
    requires DistinctIds(parts) && k < |parts|
    ensures WeightOf(parts, parts[k].id) == Weight(parts[k].name)
    decreases |parts|
  {
    var n := |parts| - 1;
    if k < n {
      WeightOfOne(parts[..n], k);
      assert parts[..n][k] == parts[k];
    } else {
      WeightOfAbsent(parts[..n], parts[k].id);
    }
  }

  lemma {:induction false} WeightOfAbsent(parts: seq<PartRow>, id: nat)
    requires forall i :: 0 <= i < |parts| ==> parts[i].id != id
    ensures WeightOf(parts, id) == 0
    decreases |parts|
  {
    if parts != [] {
      WeightOfAbsent(parts[..|parts| - 1], id);
    }
  }

  predicate HasId(parts: seq<PartRow>, id: nat) {
    exists k :: 0 <= k < |parts| && parts[k].id == id
  }

  /** A list to draw from: non-empty, and every entry the id of some part. */
  predicate Listed(parts: seq<PartRow>, weighted: seq<nat>) {
    weighted != [] && forall i :: 0 <= i < |weighted| ==> HasId(parts, weighted[i])
  }

  /** The weighted list of a non-empty part list is one to draw from. */
  lemma WeightedListed(parts: seq<PartRow>)
    requires parts != []
    ensures Listed(parts, Weighted(parts))
  {
    WeightedLength(parts);
    WeightedIds(parts);
    var w := Weighted(parts);
    forall i | 0 <= i < |w|
      ensures HasId(parts, w[i])
    {
      assert w[i] in w;
    }
  }

  /** Every entry of the list is the id of some part. */
  lemma {:induction false} WeightedIds(parts: seq<PartRow>)
    ensures forall x :: x in Weighted(parts) ==> HasId(parts, x)
    decreases |parts|
  {
    if parts != [] {
      var n := |parts| - 1;
      WeightedIds(parts[..n]);
      forall x | x in Weighted(parts)
        ensures HasId(parts, x)
      {
        if x in Weighted(parts[..n]) {
          var k :| 0 <= k < n && parts[..n][k].id == x;
          assert parts[k].id == x;
        } else {
          assert parts[n].id == x;
        }
      }
    }
  }

  /** The `weighted_parts.extend` loop. */
  method WeightedParts(parts: seq<PartRow>) returns (weighted: seq<nat>)
    ensures weighted == Weighted(parts)
  {
    weighted := [];
    var i := 0;
    while i < |parts|
      invariant 0 <= i <= |parts|
      invariant weighted == Weighted(parts[..i])
    {
      assert parts[..i + 1][..i] == parts[..i];
      weighted := weighted + Repeat(parts[i].id, Weight(parts[i].name));
      i := i + 1;
    }
    assert parts[..i] == parts;
  }

  const Early := "Früh"
  const Midday := "Mittag"
  const Night := "Nacht"

  /** `shifts.get(weekday, [])`, weekdays counted from Monday as 0: the
      table lists 0 to 4 with all three shifts, 5 with the early shift and
      6 with none. */
  function ActiveShifts(weekday: int): seq<string> {
    if 0 <= weekday < 5 then [Early, Midday, Night]
    else if weekday == 5 then [Early]
    else []
  }

  /** Three shifts on working days, only the early shift on Saturday,
      none on Sunday. */
  lemma ShiftsByWeekday(weekday: int)
    requires 0 <= weekday < 7
    ensures weekday < 5 ==> ActiveShifts(weekday) == ["Früh", "Mittag", "Nacht"]
    ensures weekday == 5 ==> ActiveShifts(weekday) == ["Früh"]
    ensures weekday == 6 ==> ActiveShifts(weekday) == []
    ensures |ActiveShifts(weekday)| > 0 <==> weekday != 6
    ensures |ActiveShifts(weekday)| > 0 ==> ActiveShifts(weekday)[0] == "Früh"
  {
  }

  /** The number of days from 2023-01-01 to 2023-12-31, both included. */
  const Days: nat := 365

  /** The weekday of day `d` of 2023, counted from 0 on 1 January, which was
      a Sunday: days 0 to 6 are Sunday to Saturday, and the week repeats. */
  function Weekday(d: nat): (r: int)
    ensures 0 <= r < 7
    decreases d
  {
    if d < 7 then (if d == 0 then 6 else d - 1) else Weekday(d - 7)
  }

  /** `current_date.weekday()` for 1 January 2023 plus `d` days. */
  lemma {:induction false} WeekdayMod(d: nat)
    ensures Weekday(d) == (6 + d) % 7
    decreases d
  {
    if d >= 7 {
      WeekdayMod(d - 7);
    }
  }

  /** The number of active shifts on day `d`. */
  function ShiftsOn(d: nat): nat {
    |ActiveShifts(Weekday(d))|
  }

  /** The number of active shifts over the first `n` days. */
  function ShiftTotal(n: nat): nat
    decreases n
  {
    if n == 0 then 0 else ShiftTotal(n - 1) + ShiftsOn(n - 1)
  }

  /** The weekday after weekday `w`. */
  function NextWeekday(w: int): int {
    if w == 6 then 0 else w + 1
  }

  /** The day after day `n` falls on the next weekday. */
  lemma {:induction false} WeekdayNext(n: nat)
    ensures Weekday(n + 1) == NextWeekday(Weekday(n))
    decreases n
  {
    if n >= 7 {
      WeekdayNext(n - 7);
    }
  }

  /** Days `n` to `n + 6` hold 16 shifts. */
  lemma SevenDays(n: nat)
    ensures ShiftsOn(n) + ShiftsOn(n + 1) + ShiftsOn(n + 2) + ShiftsOn(n + 3) + ShiftsOn(n + 4)
      + ShiftsOn(n + 5) + ShiftsOn(n + 6) == 16
  {
    WeekdayNext(n);
    WeekdayNext(n + 1);
    WeekdayNext(n + 2);
    WeekdayNext(n + 3);
    WeekdayNext(n + 4);
    WeekdayNext(n + 5);
  }

  /** Any seven consecutive days hold 16 shifts: five days of three, one of one. */
  lemma ShiftWeek(n: nat)
    ensures ShiftTotal(n + 7) == ShiftTotal(n) + 16
  {
    SevenDays(n);
    assert ShiftTotal(n + 7) == ShiftTotal(n + 6) + ShiftsOn(n + 6);
    assert ShiftTotal(n + 6) == ShiftTotal(n + 5) + ShiftsOn(n + 5);
    assert ShiftTotal(n + 5) == ShiftTotal(n + 4) + ShiftsOn(n + 4);
    assert ShiftTotal(n + 4) == ShiftTotal(n + 3) + ShiftsOn(n + 3);
    assert ShiftTotal(n + 3) == ShiftTotal(n + 2) + ShiftsOn(n + 2);
    assert ShiftTotal(n + 2) == ShiftTotal(n + 1) + ShiftsOn(n + 1);
  }

  lemma {:induction false} ShiftWeeks(k: nat)
    ensures ShiftTotal(7 * k) == 16 * k
    decreases k
  {
    if k > 0 {
      ShiftWeeks(k - 1);
      ShiftWeek(7 * (k - 1));
    }
  }

  /** 2023 has 832 active shifts: 52 full weeks, then a Sunday. */
  lemma YearShifts()
    ensures ShiftTotal(Days) == 832
  {
    ShiftWeeks(52);
    WeekdayMod(364);
  }

  /** The cause and description an incident gets from the lowercased name
      of its part. */
  datatype Cause = Cause(cause: string, description: string)

  const CoffeeCause := Cause("Kaffeemaschine kaputt", "Die Kaffeemaschine produzierte zu wenig Kaffee – Notfall am Morgen!")
  const BiscuitCause := Cause("Keksomat defekt", "Der Keksomat blieb länger aus – die Kekse mussten warten.")
  const GeneralCause := Cause("Allgemeiner Defekt", "Ein unerwarteter Fehler störte den Betrieb.")

  function CauseOf(lowered: string): Cause {
    if Contains(lowered, CoffeeKey) then CoffeeCause
    else if Contains(lowered, BiscuitKey) then BiscuitCause
    else GeneralCause
  }

  /** An incident's cause follows the same tests as its part's weight: a
      part drawn five times as often breaks as a coffee machine, one drawn
      once as a biscuit machine. */
  lemma CauseFollowsWeight(name: string)
    ensures CauseOf(Lower(name)).cause == "Kaffeemaschine kaputt" <==> Weight(name) == 5
    ensures CauseOf(Lower(name)).cause == "Keksomat defekt" <==> Weight(name) == 1
    ensures CauseOf(Lower(name)).cause == "Allgemeiner Defekt" <==> Weight(name) == 2
  {
  }

  /** The values `random.randint(3, 5)` can return. */
  type IncidentCount = n: nat | 3 <= n <= 5 witness 3

  /** `random.randint(3, 5)` for shift `s` of day `d`. */
  type Draws = (nat, nat) -> IncidentCount

  /** The index `random.choice` takes for draw `j` of shift `s` of day `d`. */
  type Choices = (nat, nat, nat) -> nat

  /** Incidents drawn for the first `count` shifts of day `d`. */
  function ShiftDraws(draws: Draws, d: nat, count: nat): nat
    decreases count
  {
    if count == 0 then 0 else ShiftDraws(draws, d, count - 1) + draws(d, count - 1)
  }

  /** Incidents drawn over the first `n` days. */
  function YearDraws(draws: Draws, n: nat): nat
    decreases n
  {
    if n == 0 then 0 else YearDraws(draws, n - 1) + ShiftDraws(draws, n - 1, ShiftsOn(n - 1))
  }

  lemma {:induction false} ShiftDrawsBounds(draws: Draws, d: nat, count: nat)
    ensures 3 * count <= ShiftDraws(draws, d, count) <= 5 * count
    decreases count
  {
    if count > 0 {
      ShiftDrawsBounds(draws, d, count - 1);
    }
  }

  /** Between three and five incidents per active shift. */
  lemma {:induction false} YearDrawsBounds(draws: Draws, n: nat)
    ensures 3 * ShiftTotal(n) <= YearDraws(draws, n) <= 5 * ShiftTotal(n)
    decreases n
  {
    if n > 0 {
      YearDrawsBounds(draws, n - 1);
      ShiftDrawsBounds(draws, n - 1, ShiftsOn(n - 1));
    }
  }

  /** So 2023 gets between 2496 and 4160 incidents. */
  lemma YearIncidents(draws: Draws)
    ensures 2496 <= YearDraws(draws, Days) <= 4160
  {
    YearShifts();
    YearDrawsBounds(draws, Days);
  }

  /** A row of `incidents`; `day` counts from 2023-01-01. */
  datatype Incident = Incident(id: nat, partId: nat, day: nat, shift: string, cause: string, description: string)

  /** The first part row with id `id`: what `SELECT part_name ... WHERE id = ?`
      fetches. */
  function PartName(parts: seq<PartRow>, id: nat): string
    requires HasId(parts, id)
    decreases |parts|
  {
    if parts[0].id == id then parts[0].name else PartName(parts[1..], id)
  }

  /** The cause for the first part row with id `id`. */
  function PartCause(parts: seq<PartRow>, id: nat): Cause
    requires HasId(parts, id)
    decreases |parts|
  {
    if parts[0].id == id then CauseOf(Lower(parts[0].name)) else PartCause(parts[1..], id)
  }

  /** ... which is the cause the fetched name calls for. */
  lemma {:induction false} PartCauseOfName(parts: seq<PartRow>, id: nat)
    requires HasId(parts, id)
    ensures PartCause(parts, id) == CauseOf(Lower(PartName(parts, id)))
    decreases |parts|
  {
    if parts[0].id != id {
      var k :| 0 <= k < |parts| && parts[k].id == id;
      assert parts[1..][k - 1].id == id;
      PartCauseOfName(parts[1..], id);
    }
  }

  /** An incident as the loop inserts it: for a part in the list, on an
      active shift of a day of 2023, with the cause the part's name calls for. */
  ghost predicate Drawn(parts: seq<PartRow>, i: Incident) {
    HasId(parts, i.partId) &&
    i.day < Days && i.shift in ActiveShifts(Weekday(i.day)) &&
    Cause(i.cause, i.description) == PartCause(parts, i.partId)
  }

  /** Every row of `rows` was drawn so. */
  ghost predicate AllDrawn(parts: seq<PartRow>, rows: seq<Incident>) {
    forall k :: 0 <= k < |rows| ==> Drawn(parts, rows[k])
  }

  /** The name of shift `s` of day `d`. */
  function ShiftName(d: nat, s: nat): string
    requires s < ShiftsOn(d)
  {
    ActiveShifts(Weekday(d))[s]
  }

  /** The shifts of one day have different names, so a row's day and shift
      name tell which pass of the shift loop inserted it. */
  lemma ShiftNamesDistinct(d: nat, s: nat, t: nat)
    requires s < ShiftsOn(d) && t < ShiftsOn(d) && s != t
    ensures ShiftName(d, s) != ShiftName(d, t)
  {
    assert Early[0] == 'F' && Midday[0] == 'M' && Night[0] == 'N';
  }

  /** The row the draw with index `pick` inserts for shift `s` of day `d`
      when the AUTOINCREMENT counter hands out key `id`. */
  function DrawnRow(parts: seq<PartRow>, weighted: seq<nat>, id: nat, d: nat, s: nat, pick: nat): Incident
    requires Listed(parts, weighted) && s < ShiftsOn(d)
  {
    var partId := weighted[pick % |weighted|];
    var cause := PartCause(parts, partId);
    Incident(id, partId, d, ShiftName(d, s), cause.cause, cause.description)
  }

  /** Such a row is one the loop may insert. */
  lemma DrawnRowDrawn(parts: seq<PartRow>, weighted: seq<nat>, id: nat, d: nat, s: nat, pick: nat)
    requires Listed(parts, weighted) && d < Days && s < ShiftsOn(d)
    ensures Drawn(parts, DrawnRow(parts, weighted, id, d, s, pick))
  {
  }

  /** The `count` rows of shift `s` of day `d`, the counter standing at
      `first` before them: draw `k` uses `choices(d, s, k)` and gets key
      `first + k + 1`. */
  function ShiftBlock(parts: seq<PartRow>, weighted: seq<nat>, d: nat, s: nat, choices: Choices,
                      first: nat, count: nat): (r: seq<Incident>)
    requires Listed(parts, weighted) && s < ShiftsOn(d)
    ensures |r| == count
  {
    seq(count, k requires 0 <= k < count => DrawnRow(parts, weighted, first + k + 1, d, s, choices(d, s, k)))
  }

  /** A shift's rows are dated `d`, carry its name and the consecutive keys
      after `first`. */
  lemma ShiftBlockShape(parts: seq<PartRow>, weighted: seq<nat>, d: nat, s: nat, choices: Choices,
                        first: nat, count: nat)
    requires Listed(parts, weighted) && s < ShiftsOn(d)
    ensures var r := ShiftBlock(parts, weighted, d, s, choices, first, count);
      KeyedFrom(r, first) && DayIs(r, d) && forall k :: 0 <= k < |r| ==> At(r[k], d, ShiftName(d, s))
  {
    var r := ShiftBlock(parts, weighted, d, s, choices, first, count);
    forall k | 0 <= k < |r|
      ensures r[k].id == first + k + 1 && At(r[k], d, ShiftName(d, s))
    {
      assert r[k] == DrawnRow(parts, weighted, first + k + 1, d, s, choices(d, s, k));
    }
  }

  /** The rows of the first `n` shifts of day `d`, the counter standing at
      `first` before them. */
  function DayRows(parts: seq<PartRow>, weighted: seq<nat>, d: nat, draws: Draws, choices: Choices,
                   first: nat, n: nat): seq<Incident>
    requires Listed(parts, weighted) && n <= ShiftsOn(d)
    decreases n
  {
    if n == 0 then []
    else
      DayRows(parts, weighted, d, draws, choices, first, n - 1) +
      ShiftBlock(parts, weighted, d, n - 1, choices, first + ShiftDraws(draws, d, n - 1), draws(d, n - 1))
  }

  /** Shift `s` appends its rows, keyed from `mid`, to those of the shifts
      before it. */
  lemma DayRowsSnoc(parts: seq<PartRow>, weighted: seq<nat>, d: nat, draws: Draws, choices: Choices,
                    first: nat, s: nat, mid: nat, block: seq<Incident>)
    requires Listed(parts, weighted) && s < ShiftsOn(d)
    requires mid == first + ShiftDraws(draws, d, s)
    requires block == ShiftBlock(parts, weighted, d, s, choices, mid, draws(d, s))
    ensures DayRows(parts, weighted, d, draws, choices, first, s + 1) ==
            DayRows(parts, weighted, d, draws, choices, first, s) + block
  {
  }

  /** The rows of the first `n` days of 2023, the counter standing at
      `first` before them. */
  function YearRows(parts: seq<PartRow>, weighted: seq<nat>, draws: Draws, choices: Choices,
                    first: nat, n: nat): seq<Incident>
    requires Listed(parts, weighted)
    decreases n
  {
    if n == 0 then [] else YearRows(parts, weighted, draws, choices, first, n - 1) + DayBlock(parts, weighted, draws, choices, first, n - 1)
  }

  /** The rows of day `d`, the counter standing at `first` before 2023. */
  function DayBlock(parts: seq<PartRow>, weighted: seq<nat>, draws: Draws, choices: Choices,
                    first: nat, d: nat): seq<Incident>
    requires Listed(parts, weighted)
  {
    DayRows(parts, weighted, d, draws, choices, first + YearDraws(draws, d), ShiftsOn(d))
  }

  /** Day `n` appends its rows, keyed from `mid`, to those of the days
      before it. */
  lemma YearRowsSnoc(parts: seq<PartRow>, weighted: seq<nat>, draws: Draws, choices: Choices,
                     first: nat, n: nat, mid: nat, day: seq<Incident>)
    requires Listed(parts, weighted)
    requires mid == first + YearDraws(draws, n)
    requires day == DayRows(parts, weighted, n, draws, choices, mid, ShiftsOn(n))
    ensures YearRows(parts, weighted, draws, choices, first, n + 1) ==
            YearRows(parts, weighted, draws, choices, first, n) + day
  {
    assert day == DayBlock(parts, weighted, draws, choices, first, n);
  }

  /** The rows carry the consecutive keys after `first`. */
  predicate KeyedFrom(rows: seq<Incident>, first: nat) {
    forall k :: 0 <= k < |rows| ==> rows[k].id == first + k + 1
  }

  lemma KeyedFromConcat(a: seq<Incident>, b: seq<Incident>, first: nat, mid: nat)
    requires mid == first + |a|
    requires KeyedFrom(a, first) && KeyedFrom(b, mid)
    ensures KeyedFrom(a + b, first)
  {
    forall k | 0 <= k < |a + b|
      ensures (a + b)[k].id == first + k + 1
    {
      if k >= |a| {
        assert (a + b)[k] == b[k - |a|];
      }
    }
  }

  /** Rows inserted on day `d` in shift `shift`. */
  predicate At(i: Incident, d: nat, shift: string) {
    i.day == d && i.shift == shift
  }

  /** How many of `rows` were inserted on day `d` in shift `shift`. */
  function CountAt(rows: seq<Incident>, d: nat, shift: string): nat
    decreases |rows|
  {
    if rows == [] then 0
    else CountAt(rows[..|rows| - 1], d, shift) + (if At(rows[|rows| - 1], d, shift) then 1 else 0)
  }

  lemma {:induction false} CountAtAppend(a: seq<Incident>, b: seq<Incident>, d: nat, shift: string)
    ensures CountAt(a + b, d, shift) == CountAt(a, d, shift) + CountAt(b, d, shift)
    decreases |b|
  {
    if b == [] {
      assert a + b == a;
    } else {
      var n := |b| - 1;
      CountAtAppend(a, b[..n], d, shift);
      assert (a + b)[..|a + b| - 1] == a + b[..n];
    }
  }

  lemma {:induction false} CountAtNone(rows: seq<Incident>, d: nat, shift: string)
    requires forall k :: 0 <= k < |rows| ==> !At(rows[k], d, shift)
    ensures CountAt(rows, d, shift) == 0
    decreases |rows|
  {
    if rows != [] {
      var n := |rows| - 1;
      assert !At(rows[n], d, shift);
      CountAtNone(rows[..n], d, shift);
    }
  }

  lemma {:induction false} CountAtAll(rows: seq<Incident>, d: nat, shift: string)
    requires forall k :: 0 <= k < |rows| ==> At(rows[k], d, shift)
    ensures CountAt(rows, d, shift) == |rows|
    decreases |rows|
  {
    if rows != [] {
      var n := |rows| - 1;
      assert At(rows[n], d, shift);
      CountAtAll(rows[..n], d, shift);
    }
  }

  /** The rows of one shift are all that shift's rows of that day. */
  lemma ShiftBlockCount(parts: seq<PartRow>, weighted: seq<nat>, d: nat, s: nat, choices: Choices,
                        first: nat, count: nat, d': nat, shift: string)
    requires Listed(parts, weighted) && s < ShiftsOn(d)
    ensures CountAt(ShiftBlock(parts, weighted, d, s, choices, first, count), d', shift) ==
            if d' == d && shift == ShiftName(d, s) then count else 0
  {
    var r := ShiftBlock(parts, weighted, d, s, choices, first, count);
    ShiftBlockShape(parts, weighted, d, s, choices, first, count);
    if d' == d && shift == ShiftName(d, s) {
      CountAtAll(r, d', shift);
    } else {
      CountAtNone(r, d', shift);
    }
  }

  /** Every row is dated `d`. */
  predicate DayIs(rows: seq<Incident>, d: nat) {
    forall k :: 0 <= k < |rows| ==> rows[k].day == d
  }

  /** Every row is dated before day `n`. */
  predicate DaysBefore(rows: seq<Incident>, n: nat) {
    forall k :: 0 <= k < |rows| ==> rows[k].day < n
  }

  lemma DayIsConcat(a: seq<Incident>, b: seq<Incident>, d: nat)
    requires DayIs(a, d) && DayIs(b, d)
    ensures DayIs(a + b, d)
  {
    forall k | 0 <= k < |a + b|
      ensures (a + b)[k].day == d
    {
      if k >= |a| {
        assert (a + b)[k] == b[k - |a|];
      }
    }
  }

  lemma DaysBeforeConcat(a: seq<Incident>, b: seq<Incident>, n: nat)
    requires DaysBefore(a, n) && DayIs(b, n)
    ensures DaysBefore(a + b, n + 1)
  {
    forall k | 0 <= k < |a + b|
      ensures (a + b)[k].day < n + 1
    {
      if k >= |a| {
        assert (a + b)[k] == b[k - |a|];
      }
    }
  }

  /** Rows of one day count nothing for another day. */
  lemma OtherDayNone(rows: seq<Incident>, d: nat, e: nat, shift: string)
    requires DayIs(rows, d) && e != d
    ensures CountAt(rows, e, shift) == 0
  {
    CountAtNone(rows, e, shift);
  }

  /** Rows dated before day `n` count nothing for day `n` or later. */
  lemma LaterDayNone(rows: seq<Incident>, n: nat, e: nat, shift: string)
    requires DaysBefore(rows, n) && n <= e
    ensures CountAt(rows, e, shift) == 0
  {
    CountAtNone(rows, e, shift);
  }

  /** Each active shift `t` of each day `e` before day `n` holds exactly
      `draws(e, t)` of the rows: the per-shift `randint(3, 5)`. */
  predicate ShiftCounts(rows: seq<Incident>, draws: Draws, n: nat) {
    forall e: nat, t: nat :: e < n && t < ShiftsOn(e) ==> CountAt(rows, e, ShiftName(e, t)) == draws(e, t)
  }

  /** The rows are in date order. */
  predicate Chronological(rows: seq<Incident>) {
    forall i, j :: 0 <= i < j < |rows| ==> rows[i].day <= rows[j].day
  }

  /** Appending day `d`'s rows, counted per shift, to rows of the days
      before it extends the per-shift counts to day `d`. */
  lemma ShiftCountsStep(rows: seq<Incident>, day: seq<Incident>, draws: Draws, d: nat)
    requires ShiftCounts(rows, draws, d) && DaysBefore(rows, d) && DayIs(day, d)
    requires forall t: nat :: t < ShiftsOn(d) ==> CountAt(day, d, ShiftName(d, t)) == draws(d, t)
    ensures ShiftCounts(rows + day, draws, d + 1)
  {
    forall e: nat, t: nat | e < d + 1 && t < ShiftsOn(e)
      ensures CountAt(rows + day, e, ShiftName(e, t)) == draws(e, t)
    {
      CountAtAppend(rows, day, e, ShiftName(e, t));
      if e < d {
        OtherDayNone(day, d, e, ShiftName(e, t));
      } else {
        LaterDayNone(rows, d, e, ShiftName(e, t));
      }
    }
  }

  lemma ChronologicalStep(rows: seq<Incident>, day: seq<Incident>, d: nat)
    requires Chronological(rows) && DaysBefore(rows, d) && DayIs(day, d)
    ensures Chronological(rows + day)
  {
    forall i, j | 0 <= i < j < |rows + day|
      ensures (rows + day)[i].day <= (rows + day)[j].day
    {
      if j >= |rows| {
        assert (rows + day)[j] == day[j - |rows|];
        if i >= |rows| {
          assert (rows + day)[i] == day[i - |rows|];
        }
      }
    }
  }

  /** Day `d`'s first `n` shifts insert `ShiftDraws(draws, d, n)` rows, all
      dated `d`, with consecutive keys. */
  lemma {:induction false} DayRowsShape(parts: seq<PartRow>, weighted: seq<nat>, d: nat, draws: Draws,
                                        choices: Choices, first: nat, n: nat)
    requires Listed(parts, weighted) && n <= ShiftsOn(d)
    ensures var r := DayRows(parts, weighted, d, draws, choices, first, n);
      |r| == ShiftDraws(draws, d, n) && KeyedFrom(r, first) && DayIs(r, d)
    decreases n
  {
    if n > 0 {
      var prev := DayRows(parts, weighted, d, draws, choices, first, n - 1);
      var f := first + ShiftDraws(draws, d, n - 1);
      var block := ShiftBlock(parts, weighted, d, n - 1, choices, f, draws(d, n - 1));
      DayRowsSnoc(parts, weighted, d, draws, choices, first, n - 1, f, block);
      DayRowsShape(parts, weighted, d, draws, choices, first, n - 1);
      ShiftBlockShape(parts, weighted, d, n - 1, choices, f, draws(d, n - 1));
      KeyedFromConcat(prev, block, first, f);
      DayIsConcat(prev, block, d);
    }
  }

  /** Shift `t` of day `d` gets `draws(d, t)` rows once the loop has passed it. */
  lemma {:induction false} DayRowsCount(parts: seq<PartRow>, weighted: seq<nat>, d: nat, draws: Draws,
                                        choices: Choices, first: nat, n: nat, t: nat)
    requires Listed(parts, weighted) && n <= ShiftsOn(d) && t < ShiftsOn(d)
    ensures CountAt(DayRows(parts, weighted, d, draws, choices, first, n), d, ShiftName(d, t)) ==
            if t < n then draws(d, t) else 0
    decreases n
  {
    if n > 0 {
      var prev := DayRows(parts, weighted, d, draws, choices, first, n - 1);
      var f := first + ShiftDraws(draws, d, n - 1);
      var block := ShiftBlock(parts, weighted, d, n - 1, choices, f, draws(d, n - 1));
      DayRowsSnoc(parts, weighted, d, draws, choices, first, n - 1, f, block);
      var name := ShiftName(d, t);
      DayRowsCount(parts, weighted, d, draws, choices, first, n - 1, t);
      CountAtAppend(prev, block, d, name);
      ShiftBlockCount(parts, weighted, d, n - 1, choices, f, draws(d, n - 1), d, name);
      if t == n - 1 {
        assert CountAt(prev, d, name) == 0 && CountAt(block, d, name) == draws(d, t);
      } else {
        ShiftNamesDistinct(d, t, n - 1);
        assert CountAt(block, d, name) == 0;
      }
    }
  }

  /** The first `n` days insert `YearDraws(draws, n)` rows, in date order,
      dated before day `n`, with consecutive keys and `draws(e, t)` rows for
      each active shift `t` of each day `e`. */
  lemma {:induction false} YearRowsShape(parts: seq<PartRow>, weighted: seq<nat>, draws: Draws, choices: Choices,
                                         first: nat, n: nat)
    requires Listed(parts, weighted)
    ensures var r := YearRows(parts, weighted, draws, choices, first, n);
      |r| == YearDraws(draws, n) && KeyedFrom(r, first) && DaysBefore(r, n) && Chronological(r) &&
      ShiftCounts(r, draws, n)
    decreases n
  {
    if n > 0 {
      var m := n - 1;
      var prev := YearRows(parts, weighted, draws, choices, first, m);
      var mid := first + YearDraws(draws, m);
      var day := DayRows(parts, weighted, m, draws, choices, mid, ShiftsOn(m));
      YearRowsSnoc(parts, weighted, draws, choices, first, m, mid, day);
      YearRowsShape(parts, weighted, draws, choices, first, m);
      DayRowsShape(parts, weighted, m, draws, choices, mid, ShiftsOn(m));
      forall t: nat | t < ShiftsOn(m)
        ensures CountAt(day, m, ShiftName(m, t)) == draws(m, t)
      {
        DayRowsCount(parts, weighted, m, draws, choices, mid, ShiftsOn(m), t);
      }
      KeyedFromConcat(prev, day, first, mid);
      DaysBeforeConcat(prev, day, m);
      ChronologicalStep(prev, day, m);
      ShiftCountsStep(prev, day, draws, m);
    }
  }

  /** The `incidents` table and its AUTOINCREMENT counter. */
  class IncidentLog {
    var incidents: seq<Incident>
    var incidentSeq: nat

    constructor (rows: seq<Incident>, last: nat)
      ensures incidents == rows && incidentSeq == last
    {
      incidents, incidentSeq := rows, last;
    }

    method Insert(partId: nat, day: nat, shift: string, cause: Cause)
      modifies this
      ensures incidentSeq == old(incidentSeq) + 1
      ensures incidents == old(incidents) + [Incident(incidentSeq, partId, day, shift, cause.cause, cause.description)]
    {
      incidentSeq := incidentSeq + 1;
      incidents := incidents + [Incident(incidentSeq, partId, day, shift, cause.cause, cause.description)];
    }
  }

  /** The `for _ in range(num_incidents)` loop of shift `s` on day `d`: each
      draw picks a part from the weighted list, fetches its name and inserts
      an incident with the matching cause. */
  method InsertShiftIncidents(log: IncidentLog, parts: seq<PartRow>, weighted: seq<nat>, d: nat, s: nat,
                              count: nat, choices: Choices) returns (ghost added: seq<Incident>)
    requires Listed(parts, weighted)
    requires d < Days && s < ShiftsOn(d)
    modifies log
    ensures log.incidentSeq == old(log.incidentSeq) + count
    ensures log.incidents == old(log.incidents) + added && |added| == count
    ensures added == ShiftBlock(parts, weighted, d, s, choices, old(log.incidentSeq), count)
    ensures forall k :: 0 <= k < count ==> added[k].day == d && added[k].shift == ShiftName(d, s)
    ensures AllDrawn(parts, added)
  {
    ghost var before := log.incidents;
    ghost var first := log.incidentSeq;
    added := [];
    var j := 0;
    while j < count
      invariant 0 <= j <= count
      invariant log.incidentSeq == first + j
      invariant log.incidents == before + added
      invariant added == ShiftBlock(parts, weighted, d, s, choices, first, j)
      invariant AllDrawn(parts, added)
    {
      ghost var row := DrawIncident(log, parts, weighted, d, s, choices(d, s, j));
      ShiftBlockSnoc(parts, weighted, d, s, choices, first, j);
      AllDrawnSnoc(parts, added, row);
      AppendAssoc(before, added, [row]);
      added := added + [row];
      j := j + 1;
    }
    ShiftBlockShape(parts, weighted, d, s, choices, first, count);
  }

  /** One more draw extends the shift's rows by the row it inserts. */
  lemma ShiftBlockSnoc(parts: seq<PartRow>, weighted: seq<nat>, d: nat, s: nat, choices: Choices,
                       first: nat, j: nat)
    requires Listed(parts, weighted) && s < ShiftsOn(d)
    ensures ShiftBlock(parts, weighted, d, s, choices, first, j + 1) ==
            ShiftBlock(parts, weighted, d, s, choices, first, j) +
            [DrawnRow(parts, weighted, first + j + 1, d, s, choices(d, s, j))]
  {
    var a := ShiftBlock(parts, weighted, d, s, choices, first, j + 1);
    var b := ShiftBlock(parts, weighted, d, s, choices, first, j) +
             [DrawnRow(parts, weighted, first + j + 1, d, s, choices(d, s, j))];
    forall k | 0 <= k < j + 1
      ensures a[k] == b[k]
    {
    }
  }

  /** One pass of the innermost loop body: `random.choice(weighted_parts)`
      (drawn index `pick`), the name lookup, the cause, the insert. */
  method DrawIncident(log: IncidentLog, parts: seq<PartRow>, weighted: seq<nat>, d: nat, s: nat, pick: nat)
      returns (ghost row: Incident)
    requires Listed(parts, weighted)
    requires d < Days && s < ShiftsOn(d)
    modifies log
    ensures log.incidentSeq == old(log.incidentSeq) + 1
    ensures row == DrawnRow(parts, weighted, log.incidentSeq, d, s, pick)
    ensures log.incidents == old(log.incidents) + [row]
    ensures Drawn(parts, row)
  {
    var partId := weighted[pick % |weighted|];
    var shift := ActiveShifts(Weekday(d))[s];
    var cause := CauseOf(Lower(PartName(parts, partId)));
    PartCauseOfName(parts, partId);
    log.Insert(partId, d, shift, cause);
    row := log.incidents[|log.incidents| - 1];
  }

  lemma AllDrawnSnoc(parts: seq<PartRow>, rows: seq<Incident>, row: Incident)
    requires AllDrawn(parts, rows) && Drawn(parts, row)
    ensures AllDrawn(parts, rows + [row])
  {
    forall k | 0 <= k < |rows| + 1
      ensures Drawn(parts, (rows + [row])[k])
    {
      if k == |rows| {
        assert (rows + [row])[k] == row;
      }
    }
  }

  /** `generate_incidents`: nothing without parts; otherwise, for each day of
      2023 and each of its active shifts, `draws(d, s)` incidents on parts
      picked from the weighted list. Returns `incidents_inserted`. */
  method GenerateIncidents(log: IncidentLog, parts: seq<PartRow>, draws: Draws, choices: Choices)
      returns (inserted: nat)
    modifies log
    ensures parts == [] ==> inserted == 0 && log.incidents == old(log.incidents)
    ensures parts != [] ==> inserted == YearDraws(draws, Days)
    ensures log.incidentSeq == old(log.incidentSeq) + inserted
    ensures |log.incidents| == |old(log.incidents)| + inserted
    ensures log.incidents[..|old(log.incidents)|] == old(log.incidents)
    ensures AllDrawn(parts, log.incidents[|old(log.incidents)|..])
    ensures KeyedFrom(log.incidents[|old(log.incidents)|..], old(log.incidentSeq))
    ensures Chronological(log.incidents[|old(log.incidents)|..])
    ensures parts != [] ==> ShiftCounts(log.incidents[|old(log.incidents)|..], draws, Days)
    ensures parts != [] ==> Listed(parts, Weighted(parts))
    ensures parts != [] ==>
      log.incidents[|old(log.incidents)|..] == YearRows(parts, Weighted(parts), draws, choices, old(log.incidentSeq), Days)
  {
    inserted := 0;
    if parts == [] {
      assert log.incidents[|old(log.incidents)|..] == [];
      return;
    }
    var weighted := WeightedParts(parts);
    WeightedListed(parts);
    ghost var before := log.incidents;
    ghost var first := log.incidentSeq;
    ghost var added: seq<Incident> := [];
    var d := 0;
    while d < Days
      invariant 0 <= d <= Days
      invariant inserted == YearDraws(draws, d)
      invariant log.incidentSeq == first + inserted
      invariant log.incidents == before + added
      invariant added == YearRows(parts, weighted, draws, choices, first, d)
      invariant AllDrawn(parts, added)
    {
      ghost var mid := log.incidentSeq;
      var count, rows := InsertDayIncidents(log, parts, weighted, d, draws, choices);
      YearRowsSnoc(parts, weighted, draws, choices, first, d, mid, rows);
      AllDrawnConcat(parts, added, rows);
      AppendAssoc(before, added, rows);
      added := added + rows;
      inserted := inserted + count;
      d := d + 1;
    }
    YearRowsShape(parts, weighted, draws, choices, first, Days);
    assert log.incidents[..|before|] == before && log.incidents[|before|..] == added;
  }

  /** The shifts of day `d`: `draws(d, s)` incidents for each active shift `s`. */
  method InsertDayIncidents(log: IncidentLog, parts: seq<PartRow>, weighted: seq<nat>, d: nat, draws: Draws,
                            choices: Choices) returns (count: nat, ghost added: seq<Incident>)
    requires Listed(parts, weighted)
    requires d < Days
    modifies log
    ensures count == ShiftDraws(draws, d, ShiftsOn(d))
    ensures log.incidentSeq == old(log.incidentSeq) + count
    ensures log.incidents == old(log.incidents) + added && |added| == count
    ensures added == DayRows(parts, weighted, d, draws, choices, old(log.incidentSeq), ShiftsOn(d))
    ensures KeyedFrom(added, old(log.incidentSeq)) && DayIs(added, d)
    ensures forall t: nat :: t < ShiftsOn(d) ==> CountAt(added, d, ShiftName(d, t)) == draws(d, t)
    ensures AllDrawn(parts, added)
  {
    ghost var before := log.incidents;
    ghost var first := log.incidentSeq;
    added := [];
    var n := ShiftsOn(d);
    count := 0;
    var s := 0;
    while s < n
      invariant 0 <= s <= n
      invariant count == ShiftDraws(draws, d, s)
      invariant log.incidentSeq == first + count
      invariant log.incidents == before + added
      invariant added == DayRows(parts, weighted, d, draws, choices, first, s)
      invariant AllDrawn(parts, added)
    {
      count, added := ShiftStep(log, parts, weighted, d, s, draws, choices, count, before, first, added);
      s := s + 1;
    }
    DayRowsShape(parts, weighted, d, draws, choices, first, n);
    forall t | 0 <= t < n
      ensures CountAt(added, d, ShiftName(d, t)) == draws(d, t)
    {
      DayRowsCount(parts, weighted, d, draws, choices, first, n, t);
    }
  }

  /** One pass of the `for shift in active_shifts` loop. */
  method ShiftStep(log: IncidentLog, parts: seq<PartRow>, weighted: seq<nat>, d: nat, s: nat, draws: Draws,
                   choices: Choices, count: nat, ghost before: seq<Incident>, ghost first: nat,
                   ghost added: seq<Incident>)
      returns (count': nat, ghost added': seq<Incident>)
    requires Listed(parts, weighted)
    requires d < Days && s < ShiftsOn(d)
    requires count == ShiftDraws(draws, d, s)
    requires log.incidentSeq == first + count
    requires log.incidents == before + added
    requires added == DayRows(parts, weighted, d, draws, choices, first, s)
    requires AllDrawn(parts, added)
    modifies log
    ensures count' == ShiftDraws(draws, d, s + 1)
    ensures log.incidentSeq == first + count'
    ensures log.incidents == before + added'
    ensures added' == DayRows(parts, weighted, d, draws, choices, first, s + 1)
    ensures AllDrawn(parts, added')
  {
    var k := draws(d, s);
    ghost var mid := log.incidentSeq;
    ghost var rows := InsertShiftIncidents(log, parts, weighted, d, s, k, choices);
    DayRowsSnoc(parts, weighted, d, draws, choices, first, s, mid, rows);
    AllDrawnConcat(parts, added, rows);
    AppendAssoc(before, added, rows);
    added' := added + rows;
    count' := count + k;
  }

  lemma AllDrawnConcat(parts: seq<PartRow>, a: seq<Incident>, b: seq<Incident>)
    requires AllDrawn(parts, a) && AllDrawn(parts, b)
    ensures AllDrawn(parts, a + b)
  {
    forall k | 0 <= k < |a + b|
      ensures Drawn(parts, (a + b)[k])
    {
      if k >= |a| {
        assert (a + b)[k] == b[k - |a|];
      }
    }
  }

  lemma AppendAssoc(a: seq<Incident>, b: seq<Incident>, c: seq<Incident>)
    ensures (a + b) + c == a + (b + c)
  {
  }
}
