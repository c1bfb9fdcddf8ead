/** map_scan: writing every framework's control results and score, and what is conserved on the
    way from evaluation to controls. */
module ComplianceMapping {
  import opened Wrappers
  import opened Tables
  import opened Findings
  import opened Compliance

  const CUSTOMER_PRIMARY_FRAMEWORK := "drantiq_security_assessment_v1"

  const SCAN_FRAMEWORK_IDS: seq<string> := [
    CUSTOMER_PRIMARY_FRAMEWORK,
    "cis_aws_v6",
    "nist_800_53_rev5_aws",
    "nist_800_53_rev5_azure",
    "soc2_aws",
    "soc2_azure"]

  datatype ScoreRow = ScoreRow(score: nat, summary: Summary)

  /** The enabled frameworks with their enabled controls. */
  type Catalog = map<string, seq<Control>>

  datatype ComplianceTables = ComplianceTables(results: map<(string, string), Aggregate>, scores: map<string, ScoreRow>)

  // ----- what map_scan writes

  function ControlPairs(controls: seq<Control>, grouped: Grouped): seq<((string, string), Aggregate)> {
    seq(|controls|, i requires 0 <= i < |controls| =>
      ((controls[i].frameworkId, controls[i].controlId), AggregateOf(controls[i], grouped)))
  }

  function ScoreRowOf(controls: seq<Control>, grouped: Grouped): ScoreRow {
    ScoreRow(ScoreOf(AggregatesOf(controls, grouped)), SummaryOf(AggregatesOf(controls, grouped)))
  }

  function ResultPairs(catalog: Catalog, ids: seq<string>, grouped: Grouped): seq<((string, string), Aggregate)> {
    if ids == [] then []
    else
      var id := ids[|ids| - 1];
      ResultPairs(catalog, ids[..|ids| - 1], grouped)
      + if id in catalog then ControlPairs(catalog[id], grouped) else []
  }

  function ScorePairs(catalog: Catalog, ids: seq<string>, grouped: Grouped): seq<(string, ScoreRow)> {
    if ids == [] then []
    else
      var id := ids[|ids| - 1];
      ScorePairs(catalog, ids[..|ids| - 1], grouped)
      + if id in catalog then [(id, ScoreRowOf(catalog[id], grouped))] else []
  }

  function MapTables(catalog: Catalog, tables: ComplianceTables, grouped: Grouped): ComplianceTables {
    ComplianceTables(
      PutAll(tables.results, ResultPairs(catalog, SCAN_FRAMEWORK_IDS, grouped)),
      PutAll(tables.scores, ScorePairs(catalog, SCAN_FRAMEWORK_IDS, grouped)))
  }

  class ComplianceMapper {
    const catalog: Catalog
    var results: map<(string, string), Aggregate>
    var scores: map<string, ScoreRow>

    constructor (catalog: Catalog)
      ensures this.catalog == catalog && Contents() == ComplianceTables(map[], map[])
    {
      this.catalog := catalog;
      results, scores := map[], map[];
    }

    function Contents(): ComplianceTables
      reads this
    {
      ComplianceTables(results, scores)
    }

    /** _map_single_framework; None stands for the LookupError. */
    method MapSingleFramework(frameworkId: string, rows: seq<Finding>) returns (summary: Option<ScoreRow>)
      modifies this
      ensures summary == if frameworkId in catalog then Some(ScoreRowOf(catalog[frameworkId], GroupRows(rows))) else None
      ensures frameworkId !in catalog ==> Contents() == old(Contents())
      ensures frameworkId in catalog ==>
                && results == PutAll(old(results), ControlPairs(catalog[frameworkId], GroupRows(rows)))
                && scores == old(scores)[frameworkId := ScoreRowOf(catalog[frameworkId], GroupRows(rows))]
    {
      if frameworkId !in catalog {
        return None;
      }
      var controls := catalog[frameworkId];
      var grouped := GetFindingsByPolicy(rows);
      var aggregates: seq<Aggregate> := [];
      for i := 0 to |controls|
        invariant aggregates == AggregatesOf(controls[..i], grouped)
        invariant results == PutAll(old(results), ControlPairs(controls[..i], grouped))
        invariant scores == old(scores)
      {
        var aggregate := AggregateControl(controls[i], grouped);
        aggregates := aggregates + [aggregate];
        results := results[(aggregate.frameworkId, aggregate.controlId) := aggregate];
        assert AggregatesOf(controls[..i + 1], grouped) == AggregatesOf(controls[..i], grouped) + [aggregate];
        assert ControlPairs(controls[..i + 1], grouped)[..i] == ControlPairs(controls[..i], grouped);
      }
      assert controls[..|controls|] == controls;
      var row := ScoreRow(ScoreOf(aggregates), SummaryOf(aggregates));
      scores := scores[frameworkId := row];
      summary := Some(row);
    }

    /** map_scan without a framework argument; None stands for the LookupError raised, after the
        other frameworks were mapped, when the primary framework is not enabled. */
    method MapScan(rows: seq<Finding>) returns (primary: Option<ScoreRow>)
      modifies this
      ensures Contents() == MapTables(catalog, old(Contents()), GroupRows(rows))
      ensures primary == if CUSTOMER_PRIMARY_FRAMEWORK in catalog
                         then Some(ScoreRowOf(catalog[CUSTOMER_PRIMARY_FRAMEWORK], GroupRows(rows))) else None
    {
      primary := None;
      ghost var grouped := GroupRows(rows);
      for i := 0 to |SCAN_FRAMEWORK_IDS|
        invariant results == PutAll(old(results), ResultPairs(catalog, SCAN_FRAMEWORK_IDS[..i], grouped))
        invariant scores == PutAll(old(scores), ScorePairs(catalog, SCAN_FRAMEWORK_IDS[..i], grouped))
        invariant primary == if i > 0 && CUSTOMER_PRIMARY_FRAMEWORK in catalog
                             then Some(ScoreRowOf(catalog[CUSTOMER_PRIMARY_FRAMEWORK], grouped)) else None
      {
        var id := SCAN_FRAMEWORK_IDS[i];
        PairsStep(catalog, i, grouped, old(Contents()));
        if id in catalog {
          var summary := MapSingleFramework(id, rows);
          if id == CUSTOMER_PRIMARY_FRAMEWORK {
            primary := summary;
          }
        }
      }
      assert SCAN_FRAMEWORK_IDS[..|SCAN_FRAMEWORK_IDS|] == SCAN_FRAMEWORK_IDS;
    }
  }

  lemma PairsStep(catalog: Catalog, i: nat, grouped: Grouped, tables: ComplianceTables)
    requires i < |SCAN_FRAMEWORK_IDS|
    ensures i > 0 ==> SCAN_FRAMEWORK_IDS[i] != CUSTOMER_PRIMARY_FRAMEWORK
    ensures var ids, id := SCAN_FRAMEWORK_IDS, SCAN_FRAMEWORK_IDS[i];
            if id in catalog then
              && PutAll(tables.results, ResultPairs(catalog, ids[..i + 1], grouped))
                 == PutAll(PutAll(tables.results, ResultPairs(catalog, ids[..i], grouped)), ControlPairs(catalog[id], grouped))
              && PutAll(tables.scores, ScorePairs(catalog, ids[..i + 1], grouped))
                 == PutAll(tables.scores, ScorePairs(catalog, ids[..i], grouped))[id := ScoreRowOf(catalog[id], grouped)]
            else
              && ResultPairs(catalog, ids[..i + 1], grouped) == ResultPairs(catalog, ids[..i], grouped)
              && ScorePairs(catalog, ids[..i + 1], grouped) == ScorePairs(catalog, ids[..i], grouped)
  {
    var ids, id := SCAN_FRAMEWORK_IDS, SCAN_FRAMEWORK_IDS[i];
    assert ids[..i + 1][..i] == ids[..i];
    if i > 0 {
      assert id[0] != CUSTOMER_PRIMARY_FRAMEWORK[0];
    }
    if id in catalog {
      PutAllAppend(tables.results, ResultPairs(catalog, ids[..i], grouped), ControlPairs(catalog[id], grouped));
      var pairs := ScorePairs(catalog, ids[..i + 1], grouped);
      assert pairs[..|pairs| - 1] == ScorePairs(catalog, ids[..i], grouped);
    }
  }

  /** Mapping the same findings again writes nothing new. */
  lemma MapTablesIdempotent(catalog: Catalog, tables: ComplianceTables, grouped: Grouped)
    ensures MapTables(catalog, MapTables(catalog, tables, grouped), grouped) == MapTables(catalog, tables, grouped)
  {
    PutAllIdempotent(tables.results, ResultPairs(catalog, SCAN_FRAMEWORK_IDS, grouped));
    PutAllIdempotent(tables.scores, ScorePairs(catalog, SCAN_FRAMEWORK_IDS, grouped));
  }

  // ----- conservation of failures

  /** The rows of a findings table in some order. */
  ghost predicate Lists(rows: seq<Finding>, table: map<Key, Finding>) {
    && (forall i, j | 0 <= i < j < |rows| :: KeyOf(rows[i].draft) != KeyOf(rows[j].draft))
    && (forall f | f in rows :: KeyOf(f.draft) in table && table[KeyOf(f.draft)] == f)
    && (forall k | k in table :: table[k] in rows)
  }

  ghost function FailingKeysOf(rows: seq<Finding>): set<Key> {
    set f | f in rows && f.draft.result == Fail :: KeyOf(f.draft)
  }

  lemma OneMoreFailingKey(init: seq<Finding>, last: Finding)
    requires forall f | f in init :: KeyOf(f.draft) != KeyOf(last.draft)
    ensures |FailingKeysOf(init + [last])| == |FailingKeysOf(init)| + if last.draft.result == Fail then 1 else 0
  {
    var key := KeyOf(last.draft);
    assert key !in FailingKeysOf(init);
    assert FailingKeysOf(init + [last]) == FailingKeysOf(init) + if last.draft.result == Fail then {key} else {};
  }

  lemma {:induction false} FailingRowsAreKeys(rows: seq<Finding>)
    requires forall i, j | 0 <= i < j < |rows| :: KeyOf(rows[i].draft) != KeyOf(rows[j].draft)
    ensures |FailingKeysOf(rows)| == CountResult(rows, Fail)
  {
    if rows != [] {
      var init, last := rows[..|rows| - 1], rows[|rows| - 1];
      FailingRowsAreKeys(init);
      OneMoreFailingKey(init, last);
      assert rows == init + [last];
    }
  }

  lemma ListedFailures(rows: seq<Finding>, table: map<Key, Finding>)
    requires Lists(rows, table) && forall k | k in table :: KeyOf(table[k].draft) == k
    ensures CountResult(rows, Fail) == |FailKeys(table)|
  {
    FailingRowsAreKeys(rows);
    assert FailingKeysOf(rows) == FailKeys(table);
  }

  function FailSum(aggregates: seq<Aggregate>): nat {
    if aggregates == [] then 0 else FailSum(aggregates[..|aggregates| - 1]) + aggregates[|aggregates| - 1].failCount
  }

  /** The policy ids mapped to automated controls, control by control. */
  function AutomatedPolicyIds(controls: seq<Control>): seq<string> {
    if controls == [] then []
    else
      var last := controls[|controls| - 1];
      AutomatedPolicyIds(controls[..|controls| - 1]) + if last.assessmentType != "manual" then last.mappedPolicyIds else []
  }

  lemma {:induction false} TotalOfAppend(front: seq<string>, back: seq<string>, grouped: Grouped)
    ensures TotalOf(front + back, grouped, Fail) == TotalOf(front, grouped, Fail) + TotalOf(back, grouped, Fail)
  {
    if back == [] {
      assert front + back == front;
    } else {
      TotalOfAppend(front, back[..|back| - 1], grouped);
      assert (front + back)[..|front + back| - 1] == front + back[..|back| - 1];
    }
  }

  lemma {:induction false} FailSumIsTotal(controls: seq<Control>, grouped: Grouped)
    ensures FailSum(AggregatesOf(controls, grouped)) == TotalOf(AutomatedPolicyIds(controls), grouped, Fail)
  {
    if controls != [] {
      var init, last := controls[..|controls| - 1], controls[|controls| - 1];
      FailSumIsTotal(init, grouped);
      assert AggregatesOf(controls, grouped)[..|controls| - 1] == AggregatesOf(init, grouped);
      TotalOfAppend(AutomatedPolicyIds(init), if last.assessmentType != "manual" then last.mappedPolicyIds else [], grouped);
    }
  }

  lemma {:induction false} OneMoreRow(ids: seq<string>, rows: seq<Finding>, row: Finding)
    ensures TotalOf(ids, GroupRows(rows + [row]), Fail) ==
            TotalOf(ids, GroupRows(rows), Fail) + if row.draft.result == Fail then multiset(ids)[row.draft.policyId] else 0
  {
    if ids != [] {
      var init, last := ids[..|ids| - 1], ids[|ids| - 1];
      OneMoreRow(init, rows, row);
      assert ids == init + [last];
      GroupsAreRows(rows, last);
      GroupsAreRows(rows + [row], last);
      assert (rows + [row])[..|rows|] == rows;
      if last == row.draft.policyId {
        var group := RowsOfPolicy(rows, last);
        assert (group + [row])[..|group|] == group;
      }
    }
  }

  /** When every row's policy is mapped exactly once, the mapped totals count every failing row
      once. */
  lemma {:induction false} EachRowCountedOnce(ids: seq<string>, rows: seq<Finding>)
    requires forall f | f in rows :: multiset(ids)[f.draft.policyId] == 1
    ensures TotalOf(ids, GroupRows(rows), Fail) == CountResult(rows, Fail)
  {
    if rows == [] {
      NothingToTotal(ids);
    } else {
      var init, last := rows[..|rows| - 1], rows[|rows| - 1];
      assert rows == init + [last];
      EachRowCountedOnce(ids, init);
      OneMoreRow(ids, init, last);
    }
  }

  lemma {:induction false} NothingToTotal(ids: seq<string>)
    ensures TotalOf(ids, GroupRows([]), Fail) == 0
  {
    if ids != [] {
      NothingToTotal(ids[..|ids| - 1]);
    }
  }

  lemma {:induction false} LastDraftHasKey(drafts: seq<Draft>, key: Key)
    ensures LastDraft(drafts, key).Some? ==> KeyOf(LastDraft(drafts, key).value) == key && LastDraft(drafts, key).value in drafts
  {
    if drafts != [] && KeyOf(drafts[|drafts| - 1]) != key {
      LastDraftHasKey(drafts[..|drafts| - 1], key);
    }
  }

  lemma EvaluatedRows(policies: seq<Policy>, assets: seq<Asset>, nextId: nat)
    requires forall a | a in assets :: IsAssetRow(a)
    ensures var table := UpsertAll(Store(map[], nextId), Drafts(policies, assets)).rows;
            forall k | k in table ::
              KeyOf(table[k].draft) == k && exists p | p in policies :: p.policyId == table[k].draft.policyId
  {
    var drafts := Drafts(policies, assets);
    var table := UpsertAll(Store(map[], nextId), drafts).rows;
    UpsertAllKeepsLast(Store(map[], nextId), drafts);
    forall k | k in table
      ensures KeyOf(table[k].draft) == k && exists p | p in policies :: p.policyId == table[k].draft.policyId
    {
      LastDraftHasKey(drafts, k);
      DraftsAreMatches(policies, assets);
      var d := LastDraft(drafts, k).value;
      var p, a :| p in policies && a in assets && Matches(p, a) && d == Judge(p, a);
    }
  }

  /** Conservation end to end: when each evaluated policy is mapped to exactly one automated
      control, the controls' fail counts sum to the fail_count evaluate_scan returned. */
  lemma FailuresAreConserved(policies: seq<Policy>, assets: seq<Asset>, nextId: nat, rows: seq<Finding>, controls: seq<Control>)
    requires forall a | a in assets :: IsAssetRow(a)
    requires DistinctPolicies(policies) && DistinctAssets(assets)
    requires Lists(rows, UpsertAll(Store(map[], nextId), Drafts(policies, assets)).rows)
    requires forall p | p in policies :: multiset(AutomatedPolicyIds(controls))[p.policyId] == 1
    ensures FailSum(AggregatesOf(controls, GroupRows(rows))) == FailCount(Drafts(policies, assets))
  {
    EvaluatedRows(policies, assets, nextId);
    CountersCountRows(policies, assets, nextId);
    ListedFailures(rows, UpsertAll(Store(map[], nextId), Drafts(policies, assets)).rows);
    EachRowCountedOnce(AutomatedPolicyIds(controls), rows);
    FailSumIsTotal(controls, GroupRows(rows));
  }
}
