/** What both versions of `init_reference_data_from_excel` share: the
    sheets they skip, the department name a sheet yields, and the batch of
    `anlagenteile` inserts that follows the unit row. */
module Hierarchy {
  import opened PyText
  import opened Workbook
  import opened RefStore

  /** Sheets never imported; matched against the raw sheet name, before
      stripping. */
  const SkipSheets: set<string> := {"General", "OptionalFields"}

  /** The Abteilung a sheet yields: none for a skipped sheet or a sheet
      whose stripped name is empty, else its stripped name. */
  function DepartmentName(sheetName: string): (r: Option<string>)
    ensures r.Some? <==> sheetName !in SkipSheets && !AllSpace(sheetName)
    ensures r.Some? ==> r.value == Strip(sheetName) && r.value != ""
  {
    StripEmptyIff(sheetName);
    if sheetName in SkipSheets then None
    else
      var name := Strip(sheetName);
      if name == "" then None else Some(name)
  }

  /** One `anlagenteile` insert: the Anlage it hangs under and its name. */
  datatype Link = Link(anlageId: nat, name: string)

  predicate LinksResolve(t: Tables, links: seq<Link>) {
    forall k :: 0 <= k < |links| ==> links[k].anlageId in t.AnlageIds()
  }

  /** Issuing the inserts of `links` one after the other. */
  function ApplyLinks(t: Tables, links: seq<Link>): Tables
    decreases |links|
  {
    if links == [] then t
    else
      var n := |links| - 1;
      ApplyLinks(t, links[..n]).InsertAnlagenteil(links[n].anlageId, links[n].name)
  }

  /** Each insert adds one `anlagenteile` row with the next AUTOINCREMENT
      key, in the order of `links`, and nothing else changes. */
  lemma {:induction false} ApplyLinksRows(t: Tables, links: seq<Link>)
    ensures var r := ApplyLinks(t, links);
      r.abteilungen == t.abteilungen && r.anlagen == t.anlagen &&
      r.abteilungSeq == t.abteilungSeq && r.anlageSeq == t.anlageSeq &&
      r.anlagenteilSeq == t.anlagenteilSeq + |links| &&
      |r.anlagenteile| == |t.anlagenteile| + |links| &&
      r.anlagenteile[..|t.anlagenteile|] == t.anlagenteile &&
      forall k :: 0 <= k < |links| ==>
        r.anlagenteile[|t.anlagenteile| + k] == Anlagenteil(t.anlagenteilSeq + 1 + k, links[k].anlageId, links[k].name)
    decreases |links|
  {
    if links != [] {
      var n := |links| - 1;
      ApplyLinksRows(t, links[..n]);
      var r0 := ApplyLinks(t, links[..n]);
      var r := ApplyLinks(t, links);
      assert r.anlagenteile == r0.anlagenteile + [Anlagenteil(r0.anlagenteilSeq + 1, links[n].anlageId, links[n].name)];
      forall k | 0 <= k < |links|
        ensures r.anlagenteile[|t.anlagenteile| + k] == Anlagenteil(t.anlagenteilSeq + 1 + k, links[k].anlageId, links[k].name)
      {
        if k < n {
          assert links[..n][k] == links[k];
        }
      }
    }
  }

  /** Issuing two batches one after the other is issuing their concatenation. */
  lemma {:induction false} ApplyLinksAppend(t: Tables, a: seq<Link>, b: seq<Link>)
    ensures ApplyLinks(ApplyLinks(t, a), b) == ApplyLinks(t, a + b)
    decreases |b|
  {
    if b == [] {
      assert a + b == a;
    } else {
      var n := |b| - 1;
      ApplyLinksAppend(t, a, b[..n]);
      assert (a + b)[..|a + b| - 1] == a + b[..n];
      assert (a + b)[|a + b| - 1] == b[n];
    }
  }

  /** Inserts under existing Anlagen never break a foreign key. */
  lemma {:induction false} ApplyLinksValid(t: Tables, links: seq<Link>)
    requires t.Valid() && LinksResolve(t, links)
    ensures ApplyLinks(t, links).Valid()
    decreases |links|
  {
    if links != [] {
      var n := |links| - 1;
      assert LinksResolve(t, links[..n]);
      ApplyLinksValid(t, links[..n]);
      var t0 := ApplyLinks(t, links[..n]);
      ApplyLinksRows(t, links[..n]);
      assert t0.AnlageIds() == t.AnlageIds();
      InsertAnlagenteilValid(t0, links[n].anlageId, links[n].name);
    }
  }
}
