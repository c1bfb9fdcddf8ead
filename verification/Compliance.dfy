/** Mapping findings to compliance controls: per-control status, framework scores, and the
    tables they are written to. */
module Compliance {
  import opened Wrappers
  import opened Findings
  import DecimalScore

  datatype Control = Control(
    frameworkId: string,
    controlId: string,
    title: string,
    displayTitle: Option<string>,
    severity: string,
    assessmentType: string,
    mappedPolicyIds: seq<string>)

  datatype ControlStatus = Passing | Failing | NotAssessed | Manual | Erroneous

  datatype PolicyEvidence = PolicyEvidence(fail: nat, pass: nat, error: nat, findings: seq<Finding>)

  datatype ControlEvidence =
    | ManualAssessment
    | NoPolicyMapping
    | ByPolicy(policies: map<string, PolicyEvidence>)

  datatype Aggregate = Aggregate(
    frameworkId: string,
    controlId: string,
    title: string,
    severity: string,
    assessmentType: string,
    mappedPolicyIds: seq<string>,
    status: ControlStatus,
    failCount: nat,
    passCount: nat,
    findingIds: seq<nat>,
    evidence: ControlEvidence)

  type Grouped = map<string, seq<Finding>>

  /** findings_by_policy.get(policy_id, []) */
  function For(grouped: Grouped, policyId: string): seq<Finding> {
    if policyId in grouped then grouped[policyId] else []
  }

  // ----- grouping

  function GroupRows(rows: seq<Finding>): Grouped {
    if rows == [] then map[]
    else
      var grouped, last := GroupRows(rows[..|rows| - 1]), rows[|rows| - 1];
      grouped[last.draft.policyId := For(grouped, last.draft.policyId) + [last]]
  }

  method GetFindingsByPolicy(rows: seq<Finding>) returns (grouped: Grouped)
    ensures grouped == GroupRows(rows)
  {
    grouped := map[];
    for i := 0 to |rows|
      invariant grouped == GroupRows(rows[..i])
    {
      var policyId := rows[i].draft.policyId;
      var group := if policyId in grouped then grouped[policyId] else [];
      grouped := grouped[policyId := group + [rows[i]]];
      assert rows[..i + 1][..i] == rows[..i];
    }
    assert rows[..|rows|] == rows;
  }

  function RowsOfPolicy(rows: seq<Finding>, policyId: string): seq<Finding> {
    if rows == [] then []
    else
      RowsOfPolicy(rows[..|rows| - 1], policyId)
      + if rows[|rows| - 1].draft.policyId == policyId then [rows[|rows| - 1]] else []
  }

  /** Grouping keeps, for each policy, exactly its rows in table order, and no empty group. */
  lemma {:induction false} GroupsAreRows(rows: seq<Finding>, policyId: string)
    ensures For(GroupRows(rows), policyId) == RowsOfPolicy(rows, policyId)
    ensures policyId in GroupRows(rows) <==> RowsOfPolicy(rows, policyId) != []
  {
    if rows != [] {
      GroupsAreRows(rows[..|rows| - 1], policyId);
    }
  }

  // ----- aggregating one control

  function CountResult(findings: seq<Finding>, result: FindingResult): nat {
    if findings == [] then 0
    else CountResult(findings[..|findings| - 1], result) + if findings[|findings| - 1].draft.result == result then 1 else 0
  }

  function FailingIds(findings: seq<Finding>): seq<nat> {
    if findings == [] then []
    else
      FailingIds(findings[..|findings| - 1])
      + if findings[|findings| - 1].draft.result == Fail then [findings[|findings| - 1].id] else []
  }

  function TotalOf(policyIds: seq<string>, grouped: Grouped, result: FindingResult): nat {
    if policyIds == [] then 0
    else TotalOf(policyIds[..|policyIds| - 1], grouped, result) + CountResult(For(grouped, policyIds[|policyIds| - 1]), result)
  }

  function FailingIdsOf(policyIds: seq<string>, grouped: Grouped): seq<nat> {
    if policyIds == [] then []
    else FailingIdsOf(policyIds[..|policyIds| - 1], grouped) + FailingIds(For(grouped, policyIds[|policyIds| - 1]))
  }

  function EvidenceOf(policyIds: seq<string>, grouped: Grouped): map<string, PolicyEvidence> {
    map p | p in policyIds :: PolicyEvidence(
      CountResult(For(grouped, p), Fail),
      CountResult(For(grouped, p), Pass),
      CountResult(For(grouped, p), Error),
      For(grouped, p))
  }

  predicate Assessable(control: Control) {
    control.assessmentType != "manual" && control.mappedPolicyIds != []
  }

  predicate HasFinding(control: Control, grouped: Grouped) {
    exists p | p in control.mappedPolicyIds :: For(grouped, p) != []
  }

  predicate HasResult(control: Control, grouped: Grouped, result: FindingResult) {
    exists p | p in control.mappedPolicyIds :: exists f | f in For(grouped, p) :: f.draft.result == result
  }

  /** What a control's status means, said of the findings mapped to it. */
  function StatusOf(control: Control, grouped: Grouped): ControlStatus {
    if control.assessmentType == "manual" then Manual
    else if !HasFinding(control, grouped) then NotAssessed
    else if HasResult(control, grouped, Fail) then Failing
    else if HasResult(control, grouped, Error) then Erroneous
    else Passing
  }

  function AggregateOf(control: Control, grouped: Grouped): Aggregate {
    var ids := control.mappedPolicyIds;
    Aggregate(
      control.frameworkId,
      control.controlId,
      if control.displayTitle.Some? && control.displayTitle.value != "" then control.displayTitle.value else control.title,
      control.severity,
      control.assessmentType,
      ids,
      StatusOf(control, grouped),
      if Assessable(control) then TotalOf(ids, grouped, Fail) else 0,
      if Assessable(control) then TotalOf(ids, grouped, Pass) else 0,
      if Assessable(control) then FailingIdsOf(ids, grouped) else [],
      if control.assessmentType == "manual" then ManualAssessment
      else if ids == [] then NoPolicyMapping
      else ByPolicy(EvidenceOf(ids, grouped)))
  }

  lemma {:induction false} CountedWhenPresent(findings: seq<Finding>, result: FindingResult)
    ensures CountResult(findings, result) > 0 <==> exists f :: f in findings && f.draft.result == result
  {
    if findings != [] {
      var init, last := findings[..|findings| - 1], findings[|findings| - 1];
      CountedWhenPresent(init, result);
      assert findings == init + [last];
    }
  }

  lemma {:induction false} TotalWhenPresent(policyIds: seq<string>, grouped: Grouped, result: FindingResult)
    ensures TotalOf(policyIds, grouped, result) > 0 <==>
            exists p | p in policyIds :: exists f | f in For(grouped, p) :: f.draft.result == result
  {
    if policyIds != [] {
      var init, last := policyIds[..|policyIds| - 1], policyIds[|policyIds| - 1];
      TotalWhenPresent(init, grouped, result);
      CountedWhenPresent(For(grouped, last), result);
      assert policyIds == init + [last];
    }
  }

  /** _aggregate_control. */
  method AggregateControl(control: Control, grouped: Grouped) returns (aggregate: Aggregate)
    ensures aggregate == AggregateOf(control, grouped)
  {
    var ids := control.mappedPolicyIds;
    var customerTitle := control.title;
    if control.displayTitle.Some? && control.displayTitle.value != "" {
      customerTitle := control.displayTitle.value;
    }
    if control.assessmentType == "manual" {
      return Aggregate(control.frameworkId, control.controlId, customerTitle, control.severity,
                       control.assessmentType, ids, Manual, 0, 0, [], ManualAssessment);
    }
    if ids == [] {
      return Aggregate(control.frameworkId, control.controlId, customerTitle, control.severity,
                       control.assessmentType, [], NotAssessed, 0, 0, [], NoPolicyMapping);
    }
    var failCount, passCount, findingIds, evidence, hasError, anyFindings := TallyPolicies(ids, grouped);
    TotalWhenPresent(ids, grouped, Fail);
    TotalWhenPresent(ids, grouped, Error);
    var status := if !anyFindings then NotAssessed
                  else if failCount > 0 then Failing
                  else if hasError then Erroneous
                  else Passing;
    aggregate := Aggregate(control.frameworkId, control.controlId, customerTitle, control.severity,
                           control.assessmentType, ids, status, failCount, passCount, findingIds, ByPolicy(evidence));
  }

  /** The loop of _aggregate_control over the mapped policies. */
  method TallyPolicies(ids: seq<string>, grouped: Grouped)
    returns (failCount: nat, passCount: nat, findingIds: seq<nat>, evidence: map<string, PolicyEvidence>,
             hasError: bool, anyFindings: bool)
    ensures failCount == TotalOf(ids, grouped, Fail) && passCount == TotalOf(ids, grouped, Pass)
    ensures findingIds == FailingIdsOf(ids, grouped)
    ensures evidence == EvidenceOf(ids, grouped)
    ensures hasError <==> TotalOf(ids, grouped, Error) > 0
    ensures anyFindings <==> exists p | p in ids :: For(grouped, p) != []
  {
    failCount, passCount, findingIds, evidence := 0, 0, [], map[];
    hasError, anyFindings := false, false;
    for i := 0 to |ids|
      invariant failCount == TotalOf(ids[..i], grouped, Fail) && passCount == TotalOf(ids[..i], grouped, Pass)
      invariant findingIds == FailingIdsOf(ids[..i], grouped)
      invariant evidence == EvidenceOf(ids[..i], grouped)
      invariant hasError <==> TotalOf(ids[..i], grouped, Error) > 0
      invariant anyFindings <==> exists p | p in ids[..i] :: For(grouped, p) != []
    {
      TallyStep(ids, i, grouped);
      var findings := For(grouped, ids[i]);
      var fails, passes, errors := CountResult(findings, Fail), CountResult(findings, Pass), CountResult(findings, Error);
      failCount := failCount + fails;
      passCount := passCount + passes;
      hasError := hasError || errors > 0;
      evidence := evidence[ids[i] := PolicyEvidence(fails, passes, errors, findings)];
      findingIds := findingIds + FailingIds(findings);
      anyFindings := anyFindings || findings != [];
    }
    assert ids[..|ids|] == ids;
  }

  lemma TallyStep(ids: seq<string>, i: nat, grouped: Grouped)
    requires i < |ids|
    ensures forall r :: TotalOf(ids[..i + 1], grouped, r) == TotalOf(ids[..i], grouped, r) + CountResult(For(grouped, ids[i]), r)
    ensures FailingIdsOf(ids[..i + 1], grouped) == FailingIdsOf(ids[..i], grouped) + FailingIds(For(grouped, ids[i]))
    ensures forall p :: p in ids[..i + 1] <==> p in ids[..i] || p == ids[i]
    ensures EvidenceOf(ids[..i + 1], grouped) ==
            EvidenceOf(ids[..i], grouped)[ids[i] := PolicyEvidence(
              CountResult(For(grouped, ids[i]), Fail), CountResult(For(grouped, ids[i]), Pass),
              CountResult(For(grouped, ids[i]), Error), For(grouped, ids[i]))]
  {
    assert ids[..i + 1][..i] == ids[..i];
    assert ids[..i + 1] == ids[..i] + [ids[i]];
  }

  lemma {:induction false} FailingIdsLength(findings: seq<Finding>)
    ensures |FailingIds(findings)| == CountResult(findings, Fail)
  {
    if findings != [] {
      FailingIdsLength(findings[..|findings| - 1]);
    }
  }

  lemma {:induction false} FailingIdsOfLength(policyIds: seq<string>, grouped: Grouped)
    ensures |FailingIdsOf(policyIds, grouped)| == TotalOf(policyIds, grouped, Fail)
  {
    if policyIds != [] {
      FailingIdsOfLength(policyIds[..|policyIds| - 1], grouped);
      FailingIdsLength(For(grouped, policyIds[|policyIds| - 1]));
    }
  }

  /** A control lists one finding id for each failing finding it counts, and it is failing exactly
      when it lists one. */
  lemma FindingIdsMatchFailCount(control: Control, grouped: Grouped)
    ensures var aggregate := AggregateOf(control, grouped);
            && |aggregate.findingIds| == aggregate.failCount
            && (aggregate.status == Failing <==> aggregate.failCount > 0)
  {
    FailingIdsOfLength(control.mappedPolicyIds, grouped);
    TotalWhenPresent(control.mappedPolicyIds, grouped, Fail);
  }

  // ----- scoring a framework

  datatype Summary = Summary(pass: nat, fail: nat, notAssessed: nat, manual: nat, error: nat, total: nat)

  function CountStatus(aggregates: seq<Aggregate>, status: ControlStatus): nat {
    if aggregates == [] then 0
    else CountStatus(aggregates[..|aggregates| - 1], status) + if aggregates[|aggregates| - 1].status == status then 1 else 0
  }

  function SummaryOf(aggregates: seq<Aggregate>): Summary {
    Summary(CountStatus(aggregates, Passing), CountStatus(aggregates, Failing), CountStatus(aggregates, NotAssessed),
            CountStatus(aggregates, Manual), CountStatus(aggregates, Erroneous), |aggregates|)
  }

  function AssessedOf(summary: Summary): nat {
    summary.pass + summary.fail + summary.error
  }

  /** _compute_score, in hundredths. */
  function ScoreOf(aggregates: seq<Aggregate>): nat {
    var summary := SummaryOf(aggregates);
    DecimalScore.Score(summary.pass, AssessedOf(summary))
  }

  lemma {:induction false} StatusCountsSumToTotal(aggregates: seq<Aggregate>)
    ensures var s := SummaryOf(aggregates); s.pass + s.fail + s.notAssessed + s.manual + s.error == s.total
  {
    if aggregates != [] {
      StatusCountsSumToTotal(aggregates[..|aggregates| - 1]);
    }
  }

  function AggregatesOf(controls: seq<Control>, grouped: Grouped): seq<Aggregate> {
    seq(|controls|, i requires 0 <= i < |controls| => AggregateOf(controls[i], grouped))
  }

  // ----- monotonicity

  /** A pass may become a fail or an error, and fails and errors may change into each other. */
  ghost predicate NoBetter(worse: FindingResult, than: FindingResult) {
    worse == Pass ==> than == Pass
  }

  ghost predicate Worsened(worse: Grouped, than: Grouped) {
    && worse.Keys == than.Keys
    && (forall p | p in than :: |worse[p]| == |than[p]|)
    && (forall p, i | p in than && 0 <= i < |than[p]| :: NoBetter(worse[p][i].draft.result, than[p][i].draft.result))
  }

  predicate IsAssessed(status: ControlStatus) {
    status == Passing || status == Failing || status == Erroneous
  }

  lemma PassingMeansAllPass(control: Control, grouped: Grouped)
    ensures StatusOf(control, grouped) == Passing <==>
              && control.assessmentType != "manual"
              && HasFinding(control, grouped)
              && (forall p | p in control.mappedPolicyIds :: forall f | f in For(grouped, p) :: f.draft.result == Pass)
  {
    forall p, f | p in control.mappedPolicyIds && f in For(grouped, p) && f.draft.result != Pass
      ensures HasResult(control, grouped, Fail) || HasResult(control, grouped, Error)
    {
      assert f.draft.result == Fail || f.draft.result == Error;
    }
  }

  lemma WorseningOneControl(control: Control, worse: Grouped, than: Grouped)
    requires Worsened(worse, than)
    ensures IsAssessed(StatusOf(control, worse)) <==> IsAssessed(StatusOf(control, than))
    ensures StatusOf(control, worse) == Passing ==> StatusOf(control, than) == Passing
  {
    forall p ensures For(worse, p) != [] <==> For(than, p) != [] {
    }
    PassingMeansAllPass(control, worse);
    PassingMeansAllPass(control, than);
    if StatusOf(control, worse) == Passing {
      forall p, f | p in control.mappedPolicyIds && f in For(than, p)
        ensures f.draft.result == Pass
      {
        var i :| 0 <= i < |than[p]| && than[p][i] == f;
        assert worse[p][i] in For(worse, p);
      }
    }
  }

  lemma {:induction false} WorseningCounts(controls: seq<Control>, worse: Grouped, than: Grouped)
    requires Worsened(worse, than)
    ensures var w, t := SummaryOf(AggregatesOf(controls, worse)), SummaryOf(AggregatesOf(controls, than));
            AssessedOf(w) == AssessedOf(t) && w.pass <= t.pass
  {
    if controls != [] {
      var init, last := controls[..|controls| - 1], controls[|controls| - 1];
      WorseningCounts(init, worse, than);
      WorseningOneControl(last, worse, than);
      SummaryGrows(controls, worse);
      SummaryGrows(controls, than);
    }
  }

  lemma SummaryGrows(controls: seq<Control>, grouped: Grouped)
    requires controls != []
    ensures var init, last := controls[..|controls| - 1], controls[|controls| - 1];
            var before, after := SummaryOf(AggregatesOf(init, grouped)), SummaryOf(AggregatesOf(controls, grouped));
            && after.pass == before.pass + (if StatusOf(last, grouped) == Passing then 1 else 0)
            && AssessedOf(after) == AssessedOf(before) + (if IsAssessed(StatusOf(last, grouped)) then 1 else 0)
  {
    assert AggregatesOf(controls, grouped)[..|controls| - 1] == AggregatesOf(controls[..|controls| - 1], grouped);
  }

  /** Turning findings from pass to fail or error, or between fail and error, never raises a
      framework's score and never changes how many controls were assessed, however many controls
      share a policy. */
  lemma ScoreMonotonicity(controls: seq<Control>, worse: Grouped, than: Grouped)
    requires Worsened(worse, than)
    ensures ScoreOf(AggregatesOf(controls, worse)) <= ScoreOf(AggregatesOf(controls, than))
    ensures AssessedOf(SummaryOf(AggregatesOf(controls, worse))) == AssessedOf(SummaryOf(AggregatesOf(controls, than)))
  {
    WorseningCounts(controls, worse, than);
    var w, t := SummaryOf(AggregatesOf(controls, worse)), SummaryOf(AggregatesOf(controls, than));
    DecimalScore.ScoreMonotone(w.pass, t.pass, AssessedOf(t));
  }
}
