/** A handler run on its own from its first call to its end, and what handling the same
    policy.evaluate again does. */
module Handlers {
  import opened Wrappers
  import opened ScanLifecycle
  import opened Assets
  import opened Findings
  import opened ComplianceMapping
  import opened PipelineModel
  import opened PipelineOutcome

  /** How each call of a run ends, first to last. */
  type Calls = nat -> Call

  // ----- running a handler to its end

  function PolicyRank(pc: PolicyPc): nat {
    match pc
    case LogRequest(_) => 17
    case LoadScan(_) => 16
    case EvaluatingStatus(_) => 15
    case StartEvaluation(_) => 14
    case ListAssets(_) => 13
    case UpsertFinding(_, _, _) => 12
    case CompleteEvaluation(_, _) => 11
    case ReadFindings(_) => 10
    case WriteCompliance(_, _, _) => 9
    case LoadCollectionRun(_) => 8
    case FinalStatus(_) => 7
    case LogPolicyCompleted(_) => 6
    case LogComplianceUpdated(_) => 5
    case LogScanCompleted(_) => 4
    case FailEvaluation(_) => 3
    case FailStatus(_) => 2
    case LogFailure => 1
    case PolicyIdle => 0
  }

  function PolicyLeft(pc: PolicyPc): nat {
    match pc
    case UpsertFinding(_, drafts, i) => if i < |drafts| then |drafts| - i else 0
    case WriteCompliance(_, writes, i) => if i < |writes| then |writes| - i else 0
    case _ => 0
  }

  /** Every call brings the handler nearer to its end. */
  lemma PolicyDescends(setup: Setup, cell: Cell, pc: PolicyPc, call: Call)
    requires !pc.PolicyIdle?
    ensures var next := PolicyNext(setup, cell, pc, call);
            PolicyRank(next) < PolicyRank(pc) || (PolicyRank(next) == PolicyRank(pc) && PolicyLeft(next) < PolicyLeft(pc))
  {
  }

  /** The rows of the scan when the policy worker's handler, started at pc with its n-th call, ends. */
  function PolicyRun(setup: Setup, cell: Cell, pc: PolicyPc, calls: Calls, n: nat): Cell
    decreases PolicyRank(pc), PolicyLeft(pc)
  {
    if pc.PolicyIdle? then cell
    else
      PolicyDescends(setup, cell, pc, calls(n));
      PolicyRun(setup, PolicyCell(setup, cell, pc, calls(n)), PolicyNext(setup, cell, pc, calls(n)), calls, n + 1)
  }

  function IngestRank(pc: IngestPc): nat {
    match pc
    case LogEvent(_) => 20
    case StartedStatus => 19
    case StartedRun => 18
    case FailedStatus => 19
    case FailedRun => 18
    case FailedMark => 17
    case FailedLog => 16
    case CollectedStatus(_) => 15
    case ReportedRun(_) => 14
    case CompletedMark(_) => 13
    case IngestingStatus(_) => 12
    case ReadFiles(_) => 11
    case LoadRun(_) => 10
    case InsertResource(_, _, _) => 9
    case InsertEdge(_, _, _) => 8
    case ReadyStatus(_) => 7
    case CountRows(_) => 6
    case LogUpdated(_) => 5
    case Publish(_) => 4
    case IngestFailed => 3
    case IngestIdle => 0
  }

  function IngestLeft(pc: IngestPc): nat {
    match pc
    case InsertResource(_, inventory, i) => if i < |inventory.resources| then |inventory.resources| - i else 0
    case InsertEdge(_, inventory, i) => if i < |inventory.edges| then |inventory.edges| - i else 0
    case _ => 0
  }

  lemma IngestDescends(cell: Cell, pc: IngestPc, call: Call)
    requires !pc.IngestIdle?
    ensures var next := IngestNext(cell, pc, call);
            IngestRank(next) < IngestRank(pc) || (IngestRank(next) == IngestRank(pc) && IngestLeft(next) < IngestLeft(pc))
  {
  }

  /** The rows of the scan, and the policy.evaluate enqueued, when the ingest worker's handler ends. */
  function IngestRun(cell: Cell, pc: IngestPc, calls: Calls, n: nat): (Cell, Option<string>)
    decreases IngestRank(pc), IngestLeft(pc)
  {
    if pc.IngestIdle? then (cell, None)
    else
      IngestDescends(cell, pc, calls(n));
      var rest := IngestRun(IngestCell(cell, pc, calls(n)), IngestNext(cell, pc, calls(n)), calls, n + 1);
      if Publishes(pc, calls(n)) then (rest.0, Some(pc.report.status)) else rest
  }

  function ApiRank(api: ApiPc): nat {
    match api
    case WriteQueued => 2
    case PushJob => 1
    case ApiDone => 0
  }

  /** The rows of a new scan, and whether its job was enqueued, when create_scan ends. */
  function ApiRun(cell: Cell, api: ApiPc, calls: Calls, n: nat): (Cell, bool)
    decreases ApiRank(api)
  {
    if api.ApiDone? then (cell, false)
    else
      var rest := ApiRun(ApiCell(cell, api, calls(n)), ApiNext(api, calls(n)), calls, n + 1);
      (rest.0, rest.1 || (api.PushJob? && Took(calls(n))))
  }

  /** Handling one policy.evaluate. */
  function HandleEvaluate(setup: Setup, cell: Cell, reported: string, calls: Calls): Cell {
    PolicyRun(setup, cell, LogRequest(reported), calls, 0)
  }

  // ----- a policy.evaluate handled without raising

  ghost predicate NothingRaises(calls: Calls) {
    forall n :: Returned(calls(n))
  }

  function UpsertedCell(setup: Setup, cell: Cell): Cell {
    cell.(findings := UpsertAll(cell.findings, DraftsFor(setup, cell.resources, cell.ingestedAt)))
  }

  function MappedCell(setup: Setup, cell: Cell): Cell {
    cell.(tables := WriteAll(cell.tables, WritesFor(setup.catalog, setup.findingOrder(cell.findings.rows))))
  }

  function CountedCell(setup: Setup, cell: Cell): Cell {
    cell.(evaluation := Some(CompletedEvaluation(setup, DraftsFor(setup, cell.resources, cell.ingestedAt))))
  }

  /** The end of an evaluation: without the primary framework it fails. */
  function Concluded(setup: Setup, cell: Cell, reported: string, now: int): Cell {
    if CUSTOMER_PRIMARY_FRAMEWORK in setup.catalog then
      cell.(status := FinalFor(cell.runStatus, reported), completedAt := Some(now))
    else
      cell.(status := Failed, completedAt := Some(now), evaluation := Some(FAILED_EVALUATION))
  }

  /** What one undisturbed evaluation leaves. */
  function EvaluateOnce(setup: Setup, cell: Cell, reported: string, now: int): Cell {
    if !Evaluable(cell.status) then cell
    else Concluded(setup, MappedCell(setup, CountedCell(setup, UpsertedCell(setup, cell))), reported, now)
  }

  lemma {:induction false} UpsertLoop(setup: Setup, cell: Cell, reported: string, drafts: seq<Draft>, i: nat,
                                      base: Store, calls: Calls, n: nat)
    returns (m: nat)
    requires i <= |drafts| && NothingRaises(calls) && cell.findings == UpsertAll(base, drafts[..i])
    ensures PolicyRun(setup, cell, UpsertFrom(reported, drafts, i), calls, n) ==
            PolicyRun(setup, cell.(findings := UpsertAll(base, drafts)), CompleteEvaluation(reported, drafts), calls, m)
    decreases |drafts| - i
  {
    if i == |drafts| {
      assert drafts[..i] == drafts;
      m := n;
    } else {
      assert Returned(calls(n)) && drafts[..i + 1][..i] == drafts[..i];
      var next := cell.(findings := Upsert(cell.findings, drafts[i]));
      assert next.findings == UpsertAll(base, drafts[..i + 1]);
      assert next.(findings := UpsertAll(base, drafts)) == cell.(findings := UpsertAll(base, drafts));
      m := UpsertLoop(setup, next, reported, drafts, i + 1, base, calls, n + 1);
    }
  }

  lemma {:induction false} WriteLoop(setup: Setup, cell: Cell, reported: string, writes: seq<ComplianceWrite>,
                                     i: nat, base: ComplianceTables, calls: Calls, n: nat)
    returns (m: nat)
    requires i <= |writes| && NothingRaises(calls) && cell.tables == WriteAll(base, writes[..i])
    ensures PolicyRun(setup, cell, WriteFrom(setup, reported, writes, i), calls, n) ==
            PolicyRun(setup, cell.(tables := WriteAll(base, writes)), WriteFrom(setup, reported, writes, |writes|), calls, m)
    decreases |writes| - i
  {
    if i == |writes| {
      assert writes[..i] == writes;
      m := n;
    } else {
      assert Returned(calls(n)) && writes[..i + 1][..i] == writes[..i];
      var next := cell.(tables := Write(cell.tables, writes[i]));
      assert next.tables == WriteAll(base, writes[..i + 1]);
      assert next.(tables := WriteAll(base, writes)) == cell.(tables := WriteAll(base, writes));
      m := WriteLoop(setup, next, reported, writes, i + 1, base, calls, n + 1);
    }
  }

  lemma FinishRun(setup: Setup, cell: Cell, reported: string, calls: Calls, n: nat) returns (now: int)
    requires NothingRaises(calls)
    ensures PolicyRun(setup, cell, LoadCollectionRun(reported), calls, n) ==
            cell.(status := FinalFor(cell.runStatus, reported), completedAt := Some(now))
  {
    now := calls(n + 1).now;
    var status := FinalFor(cell.runStatus, reported);
    var final := cell.(status := status, completedAt := Some(now));
    assert Returned(calls(n)) && Returned(calls(n + 1)) && Returned(calls(n + 2)) && Returned(calls(n + 3)) && Returned(calls(n + 4));
    assert PolicyRun(setup, cell, LoadCollectionRun(reported), calls, n) ==
           PolicyRun(setup, cell, FinalStatus(status), calls, n + 1);
    assert PolicyRun(setup, cell, FinalStatus(status), calls, n + 1) ==
           PolicyRun(setup, final, LogPolicyCompleted(status), calls, n + 2);
    assert PolicyRun(setup, final, LogPolicyCompleted(status), calls, n + 2) ==
           PolicyRun(setup, final, LogComplianceUpdated(status), calls, n + 3);
    assert PolicyRun(setup, final, LogComplianceUpdated(status), calls, n + 3) ==
           PolicyRun(setup, final, LogScanCompleted(status), calls, n + 4);
  }

  lemma FailRun(setup: Setup, cell: Cell, calls: Calls, n: nat) returns (now: int)
    requires NothingRaises(calls) && cell.evaluation.Some?
    ensures PolicyRun(setup, cell, FailEvaluation(None), calls, n) ==
            cell.(status := Failed, completedAt := Some(now), evaluation := Some(FAILED_EVALUATION))
  {
    now := calls(n + 1).now;
    var marked := cell.(evaluation := Some(FAILED_EVALUATION));
    var failed := marked.(status := Failed, completedAt := Some(now));
    assert Returned(calls(n)) && Returned(calls(n + 1)) && Returned(calls(n + 2));
    assert PolicyRun(setup, cell, FailEvaluation(None), calls, n) == PolicyRun(setup, marked, FailStatus(None), calls, n + 1);
    assert PolicyRun(setup, marked, FailStatus(None), calls, n + 1) == PolicyRun(setup, failed, LogFailure, calls, n + 2);
  }

  lemma MapRun(setup: Setup, cell: Cell, reported: string, calls: Calls, n: nat) returns (now: int)
    requires NothingRaises(calls) && cell.evaluation.Some?
    ensures PolicyRun(setup, cell, ReadFindings(reported), calls, n) == Concluded(setup, MappedCell(setup, cell), reported, now)
  {
    var writes := WritesFor(setup.catalog, setup.findingOrder(cell.findings.rows));
    assert Returned(calls(n)) && writes[..0] == [];
    assert PolicyRun(setup, cell, ReadFindings(reported), calls, n) ==
           PolicyRun(setup, cell, WriteFrom(setup, reported, writes, 0), calls, n + 1);
    var m := WriteLoop(setup, cell, reported, writes, 0, cell.tables, calls, n + 1);
    if CUSTOMER_PRIMARY_FRAMEWORK in setup.catalog {
      now := FinishRun(setup, MappedCell(setup, cell), reported, calls, m);
    } else {
      now := FailRun(setup, MappedCell(setup, cell), calls, m);
    }
  }

  lemma CountRun(setup: Setup, cell: Cell, reported: string, drafts: seq<Draft>, calls: Calls, n: nat)
    requires Returned(calls(n)) && cell.evaluation.Some? && drafts == DraftsFor(setup, cell.resources, cell.ingestedAt)
    ensures PolicyRun(setup, cell, CompleteEvaluation(reported, drafts), calls, n) ==
            PolicyRun(setup, CountedCell(setup, cell), ReadFindings(reported), calls, n + 1)
  {
  }

  lemma ListRun(setup: Setup, cell: Cell, reported: string, calls: Calls, n: nat)
    requires Returned(calls(n))
    ensures PolicyRun(setup, cell, ListAssets(reported), calls, n) ==
            PolicyRun(setup, cell, UpsertFrom(reported, DraftsFor(setup, cell.resources, cell.ingestedAt), 0), calls, n + 1)
  {
  }

  lemma UpsertRun(setup: Setup, cell: Cell, reported: string, drafts: seq<Draft>, calls: Calls, n: nat) returns (m: nat)
    requires NothingRaises(calls) && drafts == DraftsFor(setup, cell.resources, cell.ingestedAt)
    ensures PolicyRun(setup, cell, UpsertFrom(reported, drafts, 0), calls, n) ==
            PolicyRun(setup, UpsertedCell(setup, cell), CompleteEvaluation(reported, drafts), calls, m)
  {
    assert drafts[..0] == [];
    m := UpsertLoop(setup, cell, reported, drafts, 0, cell.findings, calls, n);
  }

  lemma UpsertAndCountRun(setup: Setup, cell: Cell, reported: string, drafts: seq<Draft>, calls: Calls, n: nat)
    returns (m: nat)
    requires NothingRaises(calls) && cell.evaluation.Some? && drafts == DraftsFor(setup, cell.resources, cell.ingestedAt)
    ensures PolicyRun(setup, cell, UpsertFrom(reported, drafts, 0), calls, n) ==
            PolicyRun(setup, CountedCell(setup, UpsertedCell(setup, cell)), ReadFindings(reported), calls, m)
  {
    var upserted := UpsertedCell(setup, cell);
    m := UpsertRun(setup, cell, reported, drafts, calls, n);
    assert Returned(calls(m)) && upserted.evaluation.Some?;
    assert upserted.resources == cell.resources && upserted.ingestedAt == cell.ingestedAt;
    CountRun(setup, upserted, reported, drafts, calls, m);
    m := m + 1;
  }

  lemma JudgeRun(setup: Setup, cell: Cell, reported: string, calls: Calls, n: nat) returns (m: nat)
    requires NothingRaises(calls) && cell.evaluation.Some?
    ensures PolicyRun(setup, cell, ListAssets(reported), calls, n) ==
            PolicyRun(setup, CountedCell(setup, UpsertedCell(setup, cell)), ReadFindings(reported), calls, m)
  {
    assert Returned(calls(n));
    ListRun(setup, cell, reported, calls, n);
    m := UpsertAndCountRun(setup, cell, reported, DraftsFor(setup, cell.resources, cell.ingestedAt), calls, n + 1);
  }

  lemma EvaluateRun(setup: Setup, cell: Cell, reported: string, calls: Calls, n: nat) returns (now: int)
    requires NothingRaises(calls) && cell.evaluation.Some?
    ensures PolicyRun(setup, cell, ListAssets(reported), calls, n) ==
            Concluded(setup, MappedCell(setup, CountedCell(setup, UpsertedCell(setup, cell))), reported, now)
  {
    var m := JudgeRun(setup, cell, reported, calls, n);
    now := MapRun(setup, CountedCell(setup, UpsertedCell(setup, cell)), reported, calls, m);
  }

  /** Running the handler call by call without an exception is one evaluation, or nothing when the
      scan is not up for evaluation. */
  lemma HandledIsEvaluatedOnce(setup: Setup, cell: Cell, reported: string, calls: Calls) returns (now: int)
    requires NothingRaises(calls)
    ensures HandleEvaluate(setup, cell, reported, calls) == EvaluateOnce(setup, cell, reported, now)
  {
    assert Returned(calls(0)) && Returned(calls(1)) && Returned(calls(2)) && Returned(calls(3));
    assert HandleEvaluate(setup, cell, reported, calls) == PolicyRun(setup, cell, LoadScan(reported), calls, 1);
    if Evaluable(cell.status) {
      var marked := cell.(status := Evaluating);
      var started := marked.(evaluation := Some(STARTED_EVALUATION));
      assert PolicyRun(setup, cell, LoadScan(reported), calls, 1) == PolicyRun(setup, cell, EvaluatingStatus(reported), calls, 2);
      assert PolicyRun(setup, cell, EvaluatingStatus(reported), calls, 2) ==
             PolicyRun(setup, marked, StartEvaluation(reported), calls, 3);
      assert PolicyRun(setup, marked, StartEvaluation(reported), calls, 3) ==
             PolicyRun(setup, started, ListAssets(reported), calls, 4);
      now := EvaluateRun(setup, started, reported, calls, 4);
    } else {
      now := 0;
      assert PolicyRun(setup, cell, LoadScan(reported), calls, 1) == PolicyRun(setup, cell, PolicyIdle, calls, 2);
    }
  }

  // ----- which scans are evaluated, and what that leaves

  /** What an evaluation that nothing disturbs stores: the upserted answers, the mapped tables, and, with
      the primary framework enabled, a completed run that counts policies, answers and failures and the
      final status; without it a failed run and a FAILED scan. */
  ghost predicate EvaluatedFrom(setup: Setup, before: Cell, after: Cell, reported: string) {
    var drafts := Drafts(setup.policies, ToAssets(setup.assetOrder(before.resources), before.ingestedAt, setup.iso));
    var completed := before.runStatus == "completed" || (before.runStatus == "" && (reported == "completed" || reported == ""));
    && after.findings == UpsertAll(before.findings, drafts)
    && after.tables == MapTables(setup.catalog, before.tables, Compliance.GroupRows(setup.findingOrder(after.findings.rows)))
    && after.completedAt.Some? && after.evaluation.Some?
    && var run := after.evaluation.value;
       && !run.running
       && if "drantiq_security_assessment_v1" in setup.catalog then
            && !run.failed && run.policiesRun == |setup.policies| && run.findingsCount == |drafts|
            && run.failCount == |FailPositions(drafts)|
            && after.status == if completed then Completed else CompletedWithErrors
          else
            run.failed && run.policiesRun == 0 && run.findingsCount == 0 && run.failCount == 0 && after.status == Failed
  }

  lemma OnceIsEvaluatedFrom(setup: Setup, cell: Cell, reported: string, now: int)
    requires cell.status == InventoryReady || cell.status == CompletedWithErrors
    ensures EvaluatedFrom(setup, cell, EvaluateOnce(setup, cell, reported, now), reported)
  {
    var drafts := DraftsFor(setup, cell.resources, cell.ingestedAt);
    var rows := UpsertAll(cell.findings, drafts).rows;
    FailCountIsPositions(drafts);
    MapWritesAreTables(setup.catalog, SCAN_FRAMEWORK_IDS, Compliance.GroupRows(setup.findingOrder(rows)), cell.tables);
  }

  /** Handling a policy.evaluate without an exception evaluates a scan that is INVENTORY_READY or
      COMPLETED_WITH_ERRORS, and leaves any other scan as it is. */
  lemma HandledScans(setup: Setup, cell: Cell, reported: string, calls: Calls)
    requires NothingRaises(calls)
    ensures var after := HandleEvaluate(setup, cell, reported, calls);
            && (cell.status in {InventoryReady, CompletedWithErrors} ==> EvaluatedFrom(setup, cell, after, reported))
            && (cell.status !in {InventoryReady, CompletedWithErrors} ==> after == cell)
            && (cell.evaluation.None? ==> (after.evaluation.Some? <==> cell.status in {InventoryReady, CompletedWithErrors}))
  {
    var now := HandledIsEvaluatedOnce(setup, cell, reported, calls);
    if cell.status in {InventoryReady, CompletedWithErrors} {
      OnceIsEvaluatedFrom(setup, cell, reported, now);
    }
  }

  // ----- the same policy.evaluate again

  /** Equal rows, time stamps aside. */
  predicate SameButTimes(a: Cell, b: Cell) {
    a.(startedAt := None, completedAt := None) == b.(startedAt := None, completedAt := None)
  }

  lemma EvaluateOnceIgnoresTimes(setup: Setup, a: Cell, b: Cell, reported: string, now: int, later: int)
    requires SameButTimes(a, b)
    ensures SameButTimes(EvaluateOnce(setup, a, reported, now), EvaluateOnce(setup, b, reported, later))
  {
  }

  lemma EvaluateTwice(setup: Setup, cell: Cell, reported: string, now: int, later: int)
    ensures SameButTimes(EvaluateOnce(setup, EvaluateOnce(setup, cell, reported, now), reported, later),
                         EvaluateOnce(setup, cell, reported, now))
  {
    var once := EvaluateOnce(setup, cell, reported, now);
    if Evaluable(cell.status) && Evaluable(once.status) {
      UpsertAllIdempotent(cell.findings, DraftsFor(setup, cell.resources, cell.ingestedAt));
      assert UpsertedCell(setup, once).findings == once.findings;
      WritesIdempotent(setup.catalog, setup.findingOrder(once.findings.rows), cell.tables);
      assert MappedCell(setup, UpsertedCell(setup, once)).tables == once.tables;
    }
  }

  /** Handling copy after copy of one policy.evaluate; each copy has its own calls. */
  function HandleCopies(setup: Setup, cell: Cell, reported: string, calls: nat -> Calls, n: nat): Cell {
    if n == 0 then cell
    else HandleEvaluate(setup, HandleCopies(setup, cell, reported, calls, n - 1), reported, calls(n - 1))
  }

  /** Handling n >= 1 copies of a policy.evaluate leaves status, findings, evaluation run, control
      results and scores as one copy does, whatever the scan's rows were before. */
  lemma {:induction false} CopiesActAsOne(setup: Setup, cell: Cell, reported: string, calls: nat -> Calls, n: nat)
    requires n >= 1 && forall i: nat :: NothingRaises(calls(i))
    ensures SameButTimes(HandleCopies(setup, cell, reported, calls, n), HandleEvaluate(setup, cell, reported, calls(0)))
  {
    var one := HandleEvaluate(setup, cell, reported, calls(0));
    if n == 1 {
      assert HandleCopies(setup, cell, reported, calls, 0) == cell;
    } else {
      var before := HandleCopies(setup, cell, reported, calls, n - 1);
      CopiesActAsOne(setup, cell, reported, calls, n - 1);
      assert NothingRaises(calls(0)) && NothingRaises(calls(n - 1));
      var now := HandledIsEvaluatedOnce(setup, cell, reported, calls(0));
      var later := HandledIsEvaluatedOnce(setup, before, reported, calls(n - 1));
      EvaluateOnceIgnoresTimes(setup, before, one, reported, later, later);
      EvaluateTwice(setup, cell, reported, now, later);
    }
  }
}
