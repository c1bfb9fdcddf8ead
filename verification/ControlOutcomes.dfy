/** What the control results and framework scores say about the findings table itself. */
module ControlOutcomes {
  import opened Findings
  import opened Compliance
  import opened ComplianceMapping
  import opened Tables

  // ----- a framework's summary and score

  ghost function WithStatus(aggregates: seq<Aggregate>, statuses: set<ControlStatus>): set<nat> {
    set i: nat | i < |aggregates| && aggregates[i].status in statuses
  }

  lemma OneMoreAggregate(aggregates: seq<Aggregate>, statuses: set<ControlStatus>)
    requires aggregates != []
    ensures var n := |aggregates| - 1;
            |WithStatus(aggregates, statuses)| ==
            |WithStatus(aggregates[..n], statuses)| + if aggregates[n].status in statuses then 1 else 0
  {
    var n := |aggregates| - 1;
    assert n !in WithStatus(aggregates[..n], statuses);
    assert WithStatus(aggregates, statuses) ==
           WithStatus(aggregates[..n], statuses) + if aggregates[n].status in statuses then {n} else {};
  }

  lemma {:induction false} CountsArePositions(aggregates: seq<Aggregate>, status: ControlStatus)
    ensures CountStatus(aggregates, status) == |WithStatus(aggregates, {status})|
  {
    if aggregates != [] {
      CountsArePositions(aggregates[..|aggregates| - 1], status);
      OneMoreAggregate(aggregates, {status});
    }
  }

  /** Each count of the summary is the number of controls in its own status. */
  lemma SummaryCountsControls(aggregates: seq<Aggregate>)
    ensures var s := SummaryOf(aggregates);
            && s.pass == |WithStatus(aggregates, {Passing})|
            && s.fail == |WithStatus(aggregates, {Failing})|
            && s.notAssessed == |WithStatus(aggregates, {NotAssessed})|
            && s.manual == |WithStatus(aggregates, {Manual})|
            && s.error == |WithStatus(aggregates, {Erroneous})|
            && s.total == |aggregates|
  {
    CountsArePositions(aggregates, Passing);
    CountsArePositions(aggregates, Failing);
    CountsArePositions(aggregates, NotAssessed);
    CountsArePositions(aggregates, Manual);
    CountsArePositions(aggregates, Erroneous);
  }

  lemma {:induction false} AssessedPositions(aggregates: seq<Aggregate>)
    ensures |WithStatus(aggregates, {Passing, Failing, Erroneous})| ==
            |WithStatus(aggregates, {Passing})| + |WithStatus(aggregates, {Failing})| + |WithStatus(aggregates, {Erroneous})|
  {
    if aggregates != [] {
      AssessedPositions(aggregates[..|aggregates| - 1]);
      OneMoreAggregate(aggregates, {Passing, Failing, Erroneous});
      OneMoreAggregate(aggregates, {Passing});
      OneMoreAggregate(aggregates, {Failing});
      OneMoreAggregate(aggregates, {Erroneous});
    }
  }

  /** A framework scores the share of passing controls among those that passed, failed or raised, in
      hundredths of a percent, rounded half up; without such controls it scores 0. */
  lemma FrameworkScore(aggregates: seq<Aggregate>)
    requires |WithStatus(aggregates, {Passing})| < DecimalScore.Pow10(23)
    ensures var p, a := |WithStatus(aggregates, {Passing})|, |WithStatus(aggregates, {Passing, Failing, Erroneous})|;
            ScoreOf(aggregates) == if a == 0 then 0 else (20000 * p + a) / (2 * a)
  {
    ScoreIsOfPositions(aggregates);
    var p, a := |WithStatus(aggregates, {Passing})|, |WithStatus(aggregates, {Passing, Failing, Erroneous})|;
    if a > 0 {
      DecimalScore.ScoreIsSingleRounding(p, a);
    }
  }

  lemma ScoreIsOfPositions(aggregates: seq<Aggregate>)
    ensures |WithStatus(aggregates, {Passing})| <= |WithStatus(aggregates, {Passing, Failing, Erroneous})|
    ensures ScoreOf(aggregates) ==
            DecimalScore.Score(|WithStatus(aggregates, {Passing})|, |WithStatus(aggregates, {Passing, Failing, Erroneous})|)
  {
    SummaryCountsControls(aggregates);
    AssessedPositions(aggregates);
  }

  // ----- one control

  ghost predicate MappedRow(control: Control, rows: seq<Finding>, j: int) {
    0 <= j < |rows| && rows[j].draft.policyId in control.mappedPolicyIds
  }

  lemma {:induction false} PolicyRowsListed(rows: seq<Finding>, policyId: string)
    ensures forall f :: f in RowsOfPolicy(rows, policyId) <==> f in rows && f.draft.policyId == policyId
  {
    if rows != [] {
      var init, last := rows[..|rows| - 1], rows[|rows| - 1];
      PolicyRowsListed(init, policyId);
      assert rows == init + [last];
    }
  }

  lemma GroupListed(rows: seq<Finding>, policyId: string)
    ensures forall f :: f in For(GroupRows(rows), policyId) <==> f in rows && f.draft.policyId == policyId
    ensures For(GroupRows(rows), policyId) != [] <==> exists j :: 0 <= j < |rows| && rows[j].draft.policyId == policyId
  {
    GroupsAreRows(rows, policyId);
    PolicyRowsListed(rows, policyId);
    var group := For(GroupRows(rows), policyId);
    if group != [] {
      assert group[0] in rows;
    }
    if j :| 0 <= j < |rows| && rows[j].draft.policyId == policyId {
      assert rows[j] in group;
    }
  }

  lemma RowIsGrouped(control: Control, rows: seq<Finding>, j: nat)
    requires MappedRow(control, rows, j)
    ensures rows[j] in For(GroupRows(rows), rows[j].draft.policyId)
  {
    GroupListed(rows, rows[j].draft.policyId);
    assert rows[j] in rows;
  }

  lemma GroupedIsRow(control: Control, rows: seq<Finding>, policyId: string, f: Finding) returns (j: nat)
    requires policyId in control.mappedPolicyIds && f in For(GroupRows(rows), policyId)
    ensures MappedRow(control, rows, j) && rows[j] == f
  {
    GroupListed(rows, policyId);
    j :| 0 <= j < |rows| && rows[j] == f;
  }

  lemma ResultListed(control: Control, rows: seq<Finding>, result: FindingResult)
    ensures HasResult(control, GroupRows(rows), result) <==>
            exists j :: MappedRow(control, rows, j) && rows[j].draft.result == result
  {
    if HasResult(control, GroupRows(rows), result) {
      var p :| p in control.mappedPolicyIds && exists f | f in For(GroupRows(rows), p) :: f.draft.result == result;
      var f :| f in For(GroupRows(rows), p) && f.draft.result == result;
      var j := GroupedIsRow(control, rows, p, f);
    }
    if j :| MappedRow(control, rows, j) && rows[j].draft.result == result {
      RowIsGrouped(control, rows, j);
    }
  }

  lemma FindingListed(control: Control, rows: seq<Finding>)
    ensures HasFinding(control, GroupRows(rows)) <==> exists j :: MappedRow(control, rows, j)
  {
    if HasFinding(control, GroupRows(rows)) {
      var p :| p in control.mappedPolicyIds && For(GroupRows(rows), p) != [];
      var j := GroupedIsRow(control, rows, p, For(GroupRows(rows), p)[0]);
    }
    if j :| MappedRow(control, rows, j) {
      RowIsGrouped(control, rows, j);
    }
  }

  /** The five statuses, said of the rows of the findings table whose policy is mapped to the
      control. */
  lemma ControlStatusMeaning(control: Control, rows: seq<Finding>)
    ensures var status, manual := AggregateOf(control, GroupRows(rows)).status, control.assessmentType == "manual";
            && (status == Manual <==> manual)
            && (status == NotAssessed <==> !manual && forall j :: !MappedRow(control, rows, j))
            && (status == Failing <==> !manual && exists j :: MappedRow(control, rows, j) && rows[j].draft.result == Fail)
            && (status == Erroneous <==>
                  && !manual && (forall j | MappedRow(control, rows, j) :: rows[j].draft.result != Fail)
                  && exists j :: MappedRow(control, rows, j) && rows[j].draft.result == Error)
            && (status == Passing <==>
                  && !manual && (exists j :: MappedRow(control, rows, j))
                  && forall j | MappedRow(control, rows, j) :: rows[j].draft.result == Pass)
  {
    FindingListed(control, rows);
    ResultListed(control, rows, Fail);
    ResultListed(control, rows, Error);
    forall j | MappedRow(control, rows, j)
      ensures rows[j].draft.result == Fail || rows[j].draft.result == Error || rows[j].draft.result == Pass
    {
    }
  }

  // ----- its counts

  ghost function RowsWith(rows: seq<Finding>, policyId: string, result: FindingResult): set<nat> {
    set j: nat | j < |rows| && rows[j].draft.policyId == policyId && rows[j].draft.result == result
  }

  lemma OneMoreResult(findings: seq<Finding>, last: Finding, result: FindingResult)
    ensures CountResult(findings + [last], result) == CountResult(findings, result) + if last.draft.result == result then 1 else 0
  {
    assert (findings + [last])[..|findings|] == findings;
  }

  lemma OneMoreRowWith(rows: seq<Finding>, policyId: string, result: FindingResult)
    requires rows != []
    ensures var n := |rows| - 1;
            |RowsWith(rows, policyId, result)| ==
            |RowsWith(rows[..n], policyId, result)|
            + if rows[n].draft.policyId == policyId && rows[n].draft.result == result then 1 else 0
  {
    var n := |rows| - 1;
    var counted := rows[n].draft.policyId == policyId && rows[n].draft.result == result;
    var before := RowsWith(rows[..n], policyId, result);
    assert n !in before;
    forall j: nat ensures j in RowsWith(rows, policyId, result) <==> j in before || (counted && j == n) {
      assert j < n ==> rows[..n][j] == rows[j];
    }
    assert RowsWith(rows, policyId, result) == before + if counted then {n} else {};
  }

  lemma {:induction false} CountIsRows(rows: seq<Finding>, policyId: string, result: FindingResult)
    ensures CountResult(RowsOfPolicy(rows, policyId), result) == |RowsWith(rows, policyId, result)|
  {
    if rows != [] {
      var n := |rows| - 1;
      var init, last := rows[..n], rows[n];
      CountIsRows(init, policyId, result);
      OneMoreRowWith(rows, policyId, result);
      if last.draft.policyId == policyId {
        OneMoreResult(RowsOfPolicy(init, policyId), last, result);
      } else {
        assert RowsOfPolicy(rows, policyId) == RowsOfPolicy(init, policyId);
      }
    }
  }

  /** A mapped policy, by its position, with a row of it, by its own. */
  ghost function PairsWith(ids: seq<string>, rows: seq<Finding>, result: FindingResult): set<(nat, nat)> {
    set i: nat, j: nat | i < |ids| && j < |rows| && rows[j].draft.policyId == ids[i] && rows[j].draft.result == result :: (i, j)
  }

  ghost function Paired(i: nat, s: set<nat>): set<(nat, nat)> {
    set j | j in s :: (i, j)
  }

  lemma {:induction false} PairedSize(i: nat, s: set<nat>)
    ensures |Paired(i, s)| == |s|
  {
    if s == {} {
      assert Paired(i, s) == {};
    } else {
      var j :| j in s;
      PairedSize(i, s - {j});
      assert Paired(i, s) == Paired(i, s - {j}) + {(i, j)};
    }
  }

  lemma PairsGrow(ids: seq<string>, rows: seq<Finding>, result: FindingResult)
    requires ids != []
    ensures var n := |ids| - 1;
            |PairsWith(ids, rows, result)| == |PairsWith(ids[..n], rows, result)| + |RowsWith(rows, ids[n], result)|
  {
    var n := |ids| - 1;
    var front, back := PairsWith(ids[..n], rows, result), Paired(n, RowsWith(rows, ids[n], result));
    PairedSize(n, RowsWith(rows, ids[n], result));
    forall i: nat, j: nat
      ensures (i, j) in PairsWith(ids, rows, result) <==> (i, j) in front || (i, j) in back
      ensures !((i, j) in front && (i, j) in back)
    {
      PairIn(ids, rows, result, i, j);
      PairIn(ids[..n], rows, result, i, j);
    }
    assert PairsWith(ids, rows, result) == front + back;
    assert front !! back;
  }

  lemma PairIn(ids: seq<string>, rows: seq<Finding>, result: FindingResult, i: nat, j: nat)
    ensures (i, j) in PairsWith(ids, rows, result) <==> i < |ids| && j in RowsWith(rows, ids[i], result)
  {
  }

  lemma {:induction false} TotalIsPairs(ids: seq<string>, rows: seq<Finding>, result: FindingResult)
    ensures TotalOf(ids, GroupRows(rows), result) == |PairsWith(ids, rows, result)|
  {
    if ids == [] {
      assert PairsWith(ids, rows, result) == {};
    } else {
      var n := |ids| - 1;
      TotalIsPairs(ids[..n], rows, result);
      GroupsAreRows(rows, ids[n]);
      CountIsRows(rows, ids[n], result);
      PairsGrow(ids, rows, result);
      assert TotalOf(ids, GroupRows(rows), result) ==
             TotalOf(ids[..n], GroupRows(rows), result) + CountResult(For(GroupRows(rows), ids[n]), result);
    }
  }

  /** An automated control counts each failing and each passing row once for every time its policy is
      mapped, and lists the identifiers of the failing rows; a manual one counts nothing. */
  lemma ControlCountsRows(control: Control, rows: seq<Finding>)
    ensures var aggregate, ids := AggregateOf(control, GroupRows(rows)), control.mappedPolicyIds;
            if control.assessmentType == "manual" then
              aggregate.failCount == 0 && aggregate.passCount == 0 && aggregate.findingIds == []
            else
              && aggregate.failCount == |PairsWith(ids, rows, Fail)|
              && aggregate.passCount == |PairsWith(ids, rows, Pass)|
              && forall id: nat :: id in aggregate.findingIds <==>
                   exists j :: MappedRow(control, rows, j) && rows[j].draft.result == Fail && rows[j].id == id
  {
    TotalIsPairs(control.mappedPolicyIds, rows, Fail);
    TotalIsPairs(control.mappedPolicyIds, rows, Pass);
    forall id: nat
      ensures id in FailingIdsOf(control.mappedPolicyIds, GroupRows(rows)) <==>
              exists j :: MappedRow(control, rows, j) && rows[j].draft.result == Fail && rows[j].id == id
    {
      MappedIdsListed(control, rows, id);
    }
  }

  lemma {:induction false} FailingIdsListed(findings: seq<Finding>, id: nat)
    ensures id in FailingIds(findings) <==> exists f :: f in findings && f.draft.result == Fail && f.id == id
  {
    if findings != [] {
      var init, last := findings[..|findings| - 1], findings[|findings| - 1];
      FailingIdsListed(init, id);
      assert findings == init + [last];
    }
  }

  lemma {:induction false} FailingIdsOfListed(ids: seq<string>, grouped: Grouped, id: nat)
    ensures id in FailingIdsOf(ids, grouped) <==>
            exists p, f :: p in ids && f in For(grouped, p) && f.draft.result == Fail && f.id == id
  {
    if ids != [] {
      var init, last := ids[..|ids| - 1], ids[|ids| - 1];
      FailingIdsOfListed(init, grouped, id);
      FailingIdsListed(For(grouped, last), id);
      assert ids == init + [last];
    }
  }

  lemma MappedIdsListed(control: Control, rows: seq<Finding>, id: nat)
    ensures id in FailingIdsOf(control.mappedPolicyIds, GroupRows(rows)) <==>
            exists j :: MappedRow(control, rows, j) && rows[j].draft.result == Fail && rows[j].id == id
  {
    FailingIdsOfListed(control.mappedPolicyIds, GroupRows(rows), id);
    if id in FailingIdsOf(control.mappedPolicyIds, GroupRows(rows)) {
      var p, f :| p in control.mappedPolicyIds && f in For(GroupRows(rows), p) && f.draft.result == Fail && f.id == id;
      var j := GroupedIsRow(control, rows, p, f);
    }
    if j :| MappedRow(control, rows, j) && rows[j].draft.result == Fail && rows[j].id == id {
      RowIsGrouped(control, rows, j);
    }
  }

  // ----- what map_scan writes

  /** The frameworks a scan is mapped to, enabled or not. */
  const MAPPED_FRAMEWORKS: set<string> := {
    "drantiq_security_assessment_v1", "cis_aws_v6", "nist_800_53_rev5_aws", "nist_800_53_rev5_azure", "soc2_aws",
    "soc2_azure"}

  lemma {:induction false} ScoresWritten(catalog: Catalog, ids: seq<string>, grouped: Grouped, scores: map<string, ScoreRow>)
    ensures var after := PutAll(scores, ScorePairs(catalog, ids, grouped));
            && (forall id :: id in after <==> id in scores || (id in ids && id in catalog))
            && (forall id | id in after ::
                  after[id] == if id in ids && id in catalog then ScoreRowOf(catalog[id], grouped) else scores[id])
  {
    if ids != [] {
      var init, last := ids[..|ids| - 1], ids[|ids| - 1];
      ScoresWritten(catalog, init, grouped, scores);
      assert ids == init + [last];
      if last in catalog {
        PutOneMore(scores, ScorePairs(catalog, init, grouped), (last, ScoreRowOf(catalog[last], grouped)));
      } else {
        assert ScorePairs(catalog, ids, grouped) == ScorePairs(catalog, init, grouped);
      }
    }
  }

  /** map_scan leaves a score for exactly the enabled frameworks among the mapped ones, next to the
      scores stored before. */
  lemma MappingScoresFrameworks(catalog: Catalog, tables: ComplianceTables, rows: seq<Finding>, id: string)
    ensures var after, aggregates := MapTables(catalog, tables, GroupRows(rows)).scores,
                                     if id in catalog then AggregatesOf(catalog[id], GroupRows(rows)) else [];
            && (id in after <==> id in tables.scores || (id in MAPPED_FRAMEWORKS && id in catalog))
            && (id in after && !(id in MAPPED_FRAMEWORKS && id in catalog) ==> after[id] == tables.scores[id])
            && (id in MAPPED_FRAMEWORKS && id in catalog ==>
                  after[id].score == ScoreOf(aggregates) && after[id].summary == SummaryOf(aggregates))
  {
    ScoresWritten(catalog, SCAN_FRAMEWORK_IDS, GroupRows(rows), tables.scores);
    FrameworksListed(id);
  }

  lemma {:induction false} ResultsWritten(catalog: Catalog, ids: seq<string>, grouped: Grouped, p: ((string, string), Aggregate))
    ensures p in ResultPairs(catalog, ids, grouped) <==>
            exists id, i :: id in ids && id in catalog && 0 <= i < |catalog[id]| && p == ControlPairs(catalog[id], grouped)[i]
  {
    if ids != [] {
      var init, last := ids[..|ids| - 1], ids[|ids| - 1];
      ResultsWritten(catalog, init, grouped, p);
      assert ids == init + [last];
    }
  }

  lemma {:induction false} LastValueListed<K, V>(pairs: seq<(K, V)>, key: K)
    ensures LastValue(pairs, key).Some? ==> (key, LastValue(pairs, key).value) in pairs
  {
    if pairs != [] && pairs[|pairs| - 1].0 != key {
      LastValueListed(pairs[..|pairs| - 1], key);
    }
  }

  /** It leaves a result for every enabled control of these frameworks; each is the outcome of a control
      with that framework and identifier. */
  lemma MappingStoresControls(catalog: Catalog, tables: ComplianceTables, rows: seq<Finding>, id: string, i: nat)
    requires id in MAPPED_FRAMEWORKS && id in catalog && i < |catalog[id]|
    ensures var after, control := MapTables(catalog, tables, GroupRows(rows)).results, catalog[id][i];
            var key := (control.frameworkId, control.controlId);
            && key in after
            && exists other, j :: other in MAPPED_FRAMEWORKS && other in catalog && 0 <= j < |catalog[other]|
                 && (catalog[other][j].frameworkId, catalog[other][j].controlId) == key
                 && after[key] == AggregateOf(catalog[other][j], GroupRows(rows))
  {
    var grouped, control := GroupRows(rows), catalog[id][i];
    var key, pairs := (control.frameworkId, control.controlId), ResultPairs(catalog, SCAN_FRAMEWORK_IDS, grouped);
    PutAllKeepsLast(tables.results, pairs);
    FrameworksListed(id);
    ResultsWritten(catalog, SCAN_FRAMEWORK_IDS, grouped, ControlPairs(catalog[id], grouped)[i]);
    assert ControlPairs(catalog[id], grouped)[i] in pairs;
    assert LastValue(pairs, ControlPairs(catalog[id], grouped)[i].0).Some?;
    var stored := (key, LastValue(pairs, key).value);
    LastValueListed(pairs, key);
    ResultsWritten(catalog, SCAN_FRAMEWORK_IDS, grouped, stored);
    var other, j :| other in SCAN_FRAMEWORK_IDS && other in catalog && 0 <= j < |catalog[other]|
                    && stored == ControlPairs(catalog[other], grouped)[j];
    FrameworksListed(other);
  }

  lemma FrameworksListed(id: string)
    ensures id in SCAN_FRAMEWORK_IDS <==> id in MAPPED_FRAMEWORKS
  {
  }

  /** The title is the one meant for display if there is one, and the evidence keeps, for each mapped
      policy, its rows and how many of them failed, passed and raised. */
  lemma ControlTexts(control: Control, rows: seq<Finding>)
    ensures var aggregate := AggregateOf(control, GroupRows(rows));
            && aggregate.title == (match control.displayTitle
                                   case Some(title) => if title == "" then control.title else title
                                   case None => control.title)
            && aggregate.frameworkId == control.frameworkId && aggregate.controlId == control.controlId
            && aggregate.severity == control.severity && aggregate.assessmentType == control.assessmentType
            && aggregate.mappedPolicyIds == control.mappedPolicyIds
            && (aggregate.evidence.ManualAssessment? <==> control.assessmentType == "manual")
            && (aggregate.evidence.NoPolicyMapping? <==> control.assessmentType != "manual" && control.mappedPolicyIds == [])
            && (aggregate.evidence.ByPolicy? ==>
                  && (forall p :: p in aggregate.evidence.policies <==> p in control.mappedPolicyIds)
                  && (forall p | p in control.mappedPolicyIds ::
                        aggregate.evidence.policies[p] == PolicyEvidence(
                          |RowsWith(rows, p, Fail)|, |RowsWith(rows, p, Pass)|, |RowsWith(rows, p, Error)|, RowsOfPolicy(rows, p))))
  {
    forall p
      ensures For(GroupRows(rows), p) == RowsOfPolicy(rows, p)
      ensures CountResult(RowsOfPolicy(rows, p), Fail) == |RowsWith(rows, p, Fail)|
      ensures CountResult(RowsOfPolicy(rows, p), Pass) == |RowsWith(rows, p, Pass)|
      ensures CountResult(RowsOfPolicy(rows, p), Error) == |RowsWith(rows, p, Error)|
    {
      GroupsAreRows(rows, p);
      CountIsRows(rows, p, Fail);
      CountIsRows(rows, p, Pass);
      CountIsRows(rows, p, Error);
    }
  }
}
