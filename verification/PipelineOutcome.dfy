/** What a scan's row, findings and scores are once it has been evaluated. */
module PipelineOutcome {
  import opened Wrappers
  import opened ScanLifecycle
  import opened Assets
  import opened Findings
  import opened ComplianceMapping
  import opened PipelineModel
  import opened PipelineViews
  import opened PipelineSafety
  import opened PipelineInventory

  // ----- one complete evaluation, as a function of the assets

  const NO_FINDINGS: Store := Store(map[], 0)
  const NO_TABLES: ComplianceTables := ComplianceTables(map[], map[])

  function FullFindings(setup: Setup, resources: map<string, Resource>, times: Times): Store {
    UpsertAll(NO_FINDINGS, DraftsFor(setup, resources, times))
  }

  function FullWrites(setup: Setup, resources: map<string, Resource>, times: Times): seq<ComplianceWrite> {
    WritesFor(setup.catalog, setup.findingOrder(FullFindings(setup, resources, times).rows))
  }

  function FullTables(setup: Setup, resources: map<string, Resource>, times: Times): ComplianceTables {
    WriteAll(NO_TABLES, FullWrites(setup, resources, times))
  }

  lemma FullTablesAreMapped(setup: Setup, resources: map<string, Resource>, times: Times)
    ensures FullTables(setup, resources, times) ==
            MapTables(setup.catalog, NO_TABLES, Compliance.GroupRows(setup.findingOrder(FullFindings(setup, resources, times).rows)))
  {
    MapWritesAreTables(setup.catalog, SCAN_FRAMEWORK_IDS,
                       Compliance.GroupRows(setup.findingOrder(FullFindings(setup, resources, times).rows)), NO_TABLES);
  }

  lemma WritesIdempotent(catalog: Catalog, rows: seq<Finding>, tables: ComplianceTables)
    ensures WriteAll(WriteAll(tables, WritesFor(catalog, rows)), WritesFor(catalog, rows)) == WriteAll(tables,
                     WritesFor(catalog, rows))
  {
    var grouped := Compliance.GroupRows(rows);
    MapWritesAreTables(catalog, SCAN_FRAMEWORK_IDS, grouped, tables);
    MapWritesAreTables(catalog, SCAN_FRAMEWORK_IDS, grouped, MapTables(catalog, tables, grouped));
    MapTablesIdempotent(catalog, tables, grouped);
  }

  // ----- the invariant

  /** The findings table before an evaluation: empty, or complete from an earlier one. */
  predicate FindingsBase(setup: Setup, cell: Cell, base: Store) {
    base == NO_FINDINGS || base == FullFindings(setup, cell.resources, cell.ingestedAt)
  }

  predicate TablesBase(setup: Setup, cell: Cell, base: ComplianceTables) {
    base == NO_TABLES || base == FullTables(setup, cell.resources, cell.ingestedAt)
  }

  predicate Evaluated(setup: Setup, cell: Cell) {
    && cell.findings == FullFindings(setup, cell.resources, cell.ingestedAt)
    && cell.tables == FullTables(setup, cell.resources, cell.ingestedAt)
  }

  predicate Counted(setup: Setup, cell: Cell) {
    cell.evaluation == Some(CompletedEvaluation(setup, DraftsFor(setup, cell.resources, cell.ingestedAt)))
  }

  predicate Unevaluated(cell: Cell) {
    cell.findings == NO_FINDINGS && cell.tables == NO_TABLES && cell.evaluation.None?
  }

  /** The final status of a scan whose collection reported this status. */
  function Verdict(reported: string): ScanStatus {
    if reported == "completed" || reported == "" then Completed else CompletedWithErrors
  }

  predicate Started(cell: Cell) {
    cell.evaluation == Some(STARTED_EVALUATION)
  }

  predicate GivenUp(cell: Cell) {
    cell.evaluation == Some(FAILED_EVALUATION)
  }

  /** What is stored while nothing is being evaluated. */
  predicate Resting(setup: Setup, faults: Faults, cell: Cell, reported: string) {
    match cell.status
    case InventoryReady => Unevaluated(cell)
    case Completed => Evaluated(setup, cell) && (Counted(setup, cell) || faults.lateRaise) && Verdict(reported) == Completed
    case CompletedWithErrors =>
      Evaluated(setup, cell) && (Counted(setup, cell) || faults.lateRaise) && Verdict(reported) == CompletedWithErrors
    case Failed => GivenUp(cell)
    case _ => true
  }

  ghost predicate EvaluationData(setup: Setup, faults: Faults, cell: Cell, policy: PolicyPc, reported: string) {
    match policy
    case PolicyIdle => Resting(setup, faults, cell, reported)
    case LogRequest(payload) => payload == reported && Resting(setup, faults, cell, reported)
    case LoadScan(payload) => payload == reported && Resting(setup, faults, cell, reported)
    case EvaluatingStatus(payload) => payload == reported && Resting(setup, faults, cell, reported)
    case StartEvaluation(payload) =>
      payload == reported && FindingsBase(setup, cell, cell.findings) && TablesBase(setup, cell, cell.tables)
    case ListAssets(payload) =>
      payload == reported && FindingsBase(setup, cell, cell.findings) && TablesBase(setup, cell, cell.tables)
      && Started(cell)
    case UpsertFinding(payload, drafts, i) =>
      payload == reported && drafts == DraftsFor(setup, cell.resources, cell.ingestedAt) && i < |drafts|
      && Upserted(setup, cell, drafts, i) && TablesBase(setup, cell, cell.tables) && Started(cell)
    case CompleteEvaluation(payload, drafts) =>
      payload == reported && drafts == DraftsFor(setup, cell.resources, cell.ingestedAt)
      && cell.findings == FullFindings(setup, cell.resources, cell.ingestedAt)
      && TablesBase(setup, cell, cell.tables) && Started(cell)
    case ReadFindings(payload) =>
      payload == reported && cell.findings == FullFindings(setup, cell.resources, cell.ingestedAt)
      && TablesBase(setup, cell, cell.tables) && Counted(setup, cell)
    case WriteCompliance(payload, writes, i) =>
      payload == reported && writes == FullWrites(setup, cell.resources, cell.ingestedAt) && i < |writes|
      && cell.findings == FullFindings(setup, cell.resources, cell.ingestedAt)
      && Mapped(setup, cell, writes, i) && Counted(setup, cell)
    case LoadCollectionRun(payload) => payload == reported && Evaluated(setup, cell) && Counted(setup, cell)
    case FinalStatus(status) => status == Verdict(reported) && Evaluated(setup, cell) && Counted(setup, cell)
    case LogPolicyCompleted(status) => status == Verdict(reported) && Evaluated(setup, cell) && Counted(setup, cell)
    case LogComplianceUpdated(status) => status == Verdict(reported) && Evaluated(setup, cell) && Counted(setup, cell)
    case LogScanCompleted(status) => status == Verdict(reported) && Evaluated(setup, cell) && Counted(setup, cell)
    case FailEvaluation(after) => cell.evaluation.Some? && (after.Some? ==> after.value == Verdict(reported) && Evaluated(setup, cell))
    case FailStatus(after) => GivenUp(cell) && (after.Some? ==> after.value == Verdict(reported) && Evaluated(setup, cell))
    case LogFailure => GivenUp(cell)
  }

  ghost predicate Upserted(setup: Setup, cell: Cell, drafts: seq<Draft>, i: nat)
    requires i <= |drafts|
  {
    exists base :: FindingsBase(setup, cell, base) && cell.findings == UpsertAll(base, drafts[..i])
  }

  ghost predicate Mapped(setup: Setup, cell: Cell, writes: seq<ComplianceWrite>, i: nat)
    requires i <= |writes|
  {
    exists base :: TablesBase(setup, cell, base) && cell.tables == WriteAll(base, writes[..i])
  }

  ghost predicate Assessed(setup: Setup, faults: Faults, v: View) {
    if v.scan.published then
      HasReport(v.scan.collector) && EvaluationData(setup, faults, v.scan.cell, v.policy,
                v.scan.collector.body.report.value.status)
    else
      Unevaluated(v.scan.cell)
  }

  // ----- the evaluation loops

  lemma AllUpserted(setup: Setup, cell: Cell, drafts: seq<Draft>)
    requires drafts == DraftsFor(setup, cell.resources, cell.ingestedAt) && Upserted(setup, cell, drafts, |drafts|)
    ensures cell.findings == FullFindings(setup, cell.resources, cell.ingestedAt)
  {
    assert drafts[..|drafts|] == drafts;
    UpsertAllIdempotent(NO_FINDINGS, drafts);
  }

  lemma AllMapped(setup: Setup, cell: Cell, writes: seq<ComplianceWrite>)
    requires writes == FullWrites(setup, cell.resources, cell.ingestedAt) && Mapped(setup, cell, writes, |writes|)
    ensures cell.tables == FullTables(setup, cell.resources, cell.ingestedAt)
  {
    assert writes[..|writes|] == writes;
    WritesIdempotent(setup.catalog, setup.findingOrder(FullFindings(setup, cell.resources, cell.ingestedAt).rows), NO_TABLES);
  }

  lemma UpsertedNext(setup: Setup, cell: Cell, drafts: seq<Draft>, i: nat, after: Cell)
    requires i < |drafts| && Upserted(setup, cell, drafts, i)
    requires after.findings == Upsert(cell.findings, drafts[i])
    requires after.resources == cell.resources && after.ingestedAt == cell.ingestedAt
    ensures Upserted(setup, after, drafts, i + 1)
  {
    var base :| FindingsBase(setup, cell, base) && cell.findings == UpsertAll(base, drafts[..i]);
    assert drafts[..i + 1][..i] == drafts[..i];
    assert FindingsBase(setup, after, base) && after.findings == UpsertAll(base, drafts[..i + 1]);
  }

  lemma MappedNext(setup: Setup, cell: Cell, writes: seq<ComplianceWrite>, i: nat, after: Cell)
    requires i < |writes| && Mapped(setup, cell, writes, i)
    requires after.tables == Write(cell.tables, writes[i])
    requires after.resources == cell.resources && after.ingestedAt == cell.ingestedAt
    ensures Mapped(setup, after, writes, i + 1)
  {
    var base :| TablesBase(setup, cell, base) && cell.tables == WriteAll(base, writes[..i]);
    assert writes[..i + 1][..i] == writes[..i];
    assert TablesBase(setup, after, base) && after.tables == WriteAll(base, writes[..i + 1]);
  }

  lemma ListStepKeeps(setup: Setup, faults: Faults, cell: Cell, pc: PolicyPc, call: Call, reported: string)
    requires EvaluationData(setup, faults, cell, pc, reported) && pc.ListAssets? && Returned(call)
    ensures EvaluationData(setup, faults, PolicyCell(setup, cell, pc, call), PolicyNext(setup, cell, pc, call), reported)
  {
    var drafts := DraftsFor(setup, cell.resources, cell.ingestedAt);
    assert drafts[..0] == [];
    assert FindingsBase(setup, cell, cell.findings) && cell.findings == UpsertAll(cell.findings, drafts[..0]);
    assert Upserted(setup, cell, drafts, 0);
    if drafts == [] {
      AllUpserted(setup, cell, drafts);
    }
  }

  lemma UpsertStepKeeps(setup: Setup, faults: Faults, cell: Cell, pc: PolicyPc, call: Call, reported: string)
    requires EvaluationData(setup, faults, cell, pc, reported) && pc.UpsertFinding? && Returned(call)
    ensures EvaluationData(setup, faults, PolicyCell(setup, cell, pc, call), PolicyNext(setup, cell, pc, call), reported)
  {
    var after := PolicyCell(setup, cell, pc, call);
    UpsertedNext(setup, cell, pc.drafts, pc.i, after);
    if pc.i + 1 == |pc.drafts| {
      AllUpserted(setup, after, pc.drafts);
    }
  }

  lemma ReadStepKeeps(setup: Setup, faults: Faults, cell: Cell, pc: PolicyPc, call: Call, reported: string)
    requires EvaluationData(setup, faults, cell, pc, reported) && pc.ReadFindings? && Returned(call)
    ensures EvaluationData(setup, faults, PolicyCell(setup, cell, pc, call), PolicyNext(setup, cell, pc, call), reported)
  {
    var writes := FullWrites(setup, cell.resources, cell.ingestedAt);
    assert writes[..0] == [];
    assert TablesBase(setup, cell, cell.tables) && cell.tables == WriteAll(cell.tables, writes[..0]);
    assert Mapped(setup, cell, writes, 0);
    if writes == [] {
      AllMapped(setup, cell, writes);
    }
  }

  lemma WriteStepKeeps(setup: Setup, faults: Faults, cell: Cell, pc: PolicyPc, call: Call, reported: string)
    requires EvaluationData(setup, faults, cell, pc, reported) && pc.WriteCompliance? && Returned(call)
    ensures EvaluationData(setup, faults, PolicyCell(setup, cell, pc, call), PolicyNext(setup, cell, pc, call), reported)
  {
    var after := PolicyCell(setup, cell, pc, call);
    MappedNext(setup, cell, pc.writes, pc.i, after);
    if pc.i + 1 == |pc.writes| {
      AllMapped(setup, after, pc.writes);
    }
  }

  lemma RaisingKeeps(setup: Setup, faults: Faults, cell: Cell, pc: PolicyPc, call: Call, reported: string)
    requires pc.ListAssets? || pc.UpsertFinding? || pc.ReadFindings? || pc.WriteCompliance?
    requires !Returned(call) && cell.evaluation.Some?
    ensures EvaluationData(setup, faults, PolicyCell(setup, cell, pc, call), PolicyNext(setup, cell, pc, call), reported)
  {
  }

  lemma BeginningKeeps(setup: Setup, faults: Faults, cell: Cell, pc: PolicyPc, call: Call, reported: string)
    requires EvaluationData(setup, faults, cell, pc, reported)
    requires pc.LogRequest? || pc.LoadScan? || pc.EvaluatingStatus? || pc.StartEvaluation?
    requires pc.EvaluatingStatus? ==> Evaluable(cell.status)
    requires pc.StartEvaluation? ==> cell.status == Evaluating
    ensures EvaluationData(setup, faults, PolicyCell(setup, cell, pc, call), PolicyNext(setup, cell, pc, call), reported)
  {
  }

  lemma CountingKeeps(setup: Setup, faults: Faults, cell: Cell, pc: PolicyPc, call: Call, reported: string)
    requires EvaluationData(setup, faults, cell, pc, reported)
    requires pc.CompleteEvaluation? || pc.LoadCollectionRun?
    requires cell.runStatus == reported
    ensures EvaluationData(setup, faults, PolicyCell(setup, cell, pc, call), PolicyNext(setup, cell, pc, call), reported)
  {
  }

  lemma FinalKeeps(setup: Setup, faults: Faults, cell: Cell, pc: PolicyPc, call: Call, reported: string)
    requires EvaluationData(setup, faults, cell, pc, reported) && pc.FinalStatus?
    ensures EvaluationData(setup, faults, PolicyCell(setup, cell, pc, call), PolicyNext(setup, cell, pc, call), reported)
  {
  }

  lemma FinishingKeeps(setup: Setup, faults: Faults, cell: Cell, pc: PolicyPc, call: Call, reported: string)
    requires EvaluationData(setup, faults, cell, pc, reported)
    requires pc.LogPolicyCompleted? || pc.LogComplianceUpdated? || pc.LogScanCompleted?
    requires cell.status == pc.status
    ensures EvaluationData(setup, faults, PolicyCell(setup, cell, pc, call), PolicyNext(setup, cell, pc, call), reported)
  {
  }

  /** An evaluation that is being given up leaves rows that fit the scan's status. */
  lemma UnwindingRests(setup: Setup, faults: Faults, cell: Cell, after: Option<ScanStatus>, reported: string)
    requires Unwinding(faults, cell.status, after)
    requires after.Some? ==> after.value == Verdict(reported) && Evaluated(setup, cell)
    ensures Resting(setup, faults, cell, reported)
  {
  }

  lemma FailingKeeps(setup: Setup, faults: Faults, cell: Cell, after: Option<ScanStatus>, call: Call, reported: string)
    requires Unwinding(faults, cell.status, after) && GivenUp(cell)
    requires after.Some? ==> after.value == Verdict(reported) && Evaluated(setup, cell)
    ensures var failed := PolicyCell(setup, cell, FailStatus(after), call);
            EvaluationData(setup, faults, failed, PolicyNext(setup, cell, FailStatus(after), call), reported)
  {
    UnwindingRests(setup, faults, cell, after, reported);
  }

  lemma MarkingKeeps(setup: Setup, faults: Faults, cell: Cell, after: Option<ScanStatus>, call: Call, reported: string)
    requires Unwinding(faults, cell.status, after) && cell.evaluation.Some?
    requires after.Some? ==> after.value == Verdict(reported) && Evaluated(setup, cell)
    ensures var marked := PolicyCell(setup, cell, FailEvaluation(after), call);
            EvaluationData(setup, faults, marked, PolicyNext(setup, cell, FailEvaluation(after), call), reported)
  {
    UnwindingRests(setup, faults, PolicyCell(setup, cell, FailEvaluation(after), call), after, reported);
  }

  /** The loops and the reads around them. */
  lemma TryingKeeps(setup: Setup, faults: Faults, cell: Cell, pc: PolicyPc, call: Call, reported: string)
    requires EvaluationData(setup, faults, cell, pc, reported)
    requires pc.ListAssets? || pc.UpsertFinding? || pc.ReadFindings? || pc.WriteCompliance?
    ensures EvaluationData(setup, faults, PolicyCell(setup, cell, pc, call), PolicyNext(setup, cell, pc, call), reported)
  {
    if !Returned(call) {
      RaisingKeeps(setup, faults, cell, pc, call, reported);
    } else if pc.ListAssets? {
      ListStepKeeps(setup, faults, cell, pc, call, reported);
    } else if pc.UpsertFinding? {
      UpsertStepKeeps(setup, faults, cell, pc, call, reported);
    } else if pc.ReadFindings? {
      ReadStepKeeps(setup, faults, cell, pc, call, reported);
    } else {
      WriteStepKeeps(setup, faults, cell, pc, call, reported);
    }
  }

  /** The final status and everything after it. */
  lemma EndingKeeps(setup: Setup, faults: Faults, v: View, call: Call, reported: string)
    requires Evaluation(faults, v) && EvaluationData(setup, faults, v.scan.cell, v.policy, reported)
    requires PolicyMay(faults, v.policy, call)
    requires v.policy.FinalStatus? || v.policy.LogPolicyCompleted? || v.policy.LogComplianceUpdated? || v.policy.LogScanCompleted?
             || v.policy.FailEvaluation? || v.policy.FailStatus? || v.policy.LogFailure?
    ensures var cell, pc := v.scan.cell, v.policy;
            EvaluationData(setup, faults, PolicyCell(setup, cell, pc, call), PolicyNext(setup, cell, pc, call), reported)
  {
    var cell, pc := v.scan.cell, v.policy;
    if pc.FinalStatus? {
      FinalKeeps(setup, faults, cell, pc, call, reported);
    } else if pc.FailEvaluation? {
      MarkingKeeps(setup, faults, cell, pc.after, call, reported);
    } else if pc.FailStatus? {
      FailingKeeps(setup, faults, cell, pc.after, call, reported);
    } else if !pc.LogFailure? {
      FinishingKeeps(setup, faults, cell, pc, call, reported);
    }
  }

  lemma PolicyKeepsEvaluationData(setup: Setup, faults: Faults, v: View, call: Call)
    requires Evaluation(faults, v) && !v.policy.PolicyIdle? && PolicyMay(faults, v.policy, call)
    requires EvaluationData(setup, faults, v.scan.cell, v.policy, v.scan.cell.runStatus)
    ensures var cell, pc := v.scan.cell, v.policy;
            EvaluationData(setup, faults, PolicyCell(setup, cell, pc, call), PolicyNext(setup, cell, pc, call), cell.runStatus)
  {
    var cell, pc := v.scan.cell, v.policy;
    if pc.LogRequest? || pc.LoadScan? || pc.EvaluatingStatus? || pc.StartEvaluation? {
      BeginningKeeps(setup, faults, cell, pc, call, cell.runStatus);
    } else if pc.ListAssets? || pc.UpsertFinding? || pc.ReadFindings? || pc.WriteCompliance? {
      TryingKeeps(setup, faults, cell, pc, call, cell.runStatus);
    } else if pc.CompleteEvaluation? || pc.LoadCollectionRun? {
      CountingKeeps(setup, faults, cell, pc, call, cell.runStatus);
    } else {
      EndingKeeps(setup, faults, v, call, cell.runStatus);
    }
  }

  // ----- every step keeps it

  lemma IngestKeepsUnevaluated(cell: Cell, pc: IngestPc, call: Call)
    requires Unevaluated(cell)
    ensures Unevaluated(IngestCell(cell, pc, call))
  {
  }

  lemma IngestKeepsAssessed(setup: Setup, faults: Faults, v: View, call: Call)
    requires !faults.phantomPublish && Staged(faults, v) && Inventoried(v) && Assessed(setup, faults, v)
    requires !v.ingest.IngestIdle? && IngestMay(faults, v.ingest, call)
    ensures Assessed(setup, faults, ViewIngest(v, call))
  {
    IngestKeepsUnevaluated(v.scan.cell, v.ingest, call);
    IngestKeepsStaged(faults, v, call);
  }

  lemma PolicyKeepsAssessed(setup: Setup, faults: Faults, v: View, call: Call)
    requires Staged(faults, v) && Inventoried(v) && Assessed(setup, faults, v)
    requires !v.policy.PolicyIdle? && PolicyMay(faults, v.policy, call)
    ensures Assessed(setup, faults, ViewPolicy(setup, v, call))
  {
    BusyIsEvaluating(faults, v);
    PolicyKeepsEvaluationData(setup, faults, v, call);
    PolicyKeepsStored(setup, v.scan.cell, v.policy, call);
  }

  lemma BusyIsEvaluating(faults: Faults, v: View)
    requires Staged(faults, v) && !v.policy.PolicyIdle?
    ensures v.scan.published && Evaluation(faults, v)
  {
  }

  lemma NextKeepsAssessed(setup: Setup, faults: Faults, v: View, w: View)
    requires !faults.phantomPublish && Staged(faults, v) && Inventoried(v) && Assessed(setup, faults, v)
    requires ViewNext(setup, faults, v, w)
    ensures Assessed(setup, faults, w)
  {
    if call: Call :| !v.ingest.IngestIdle? && IngestMay(faults, v.ingest, call) && w == ViewIngest(v, call) {
      IngestKeepsAssessed(setup, faults, v, call);
    } else if call: Call :| !v.policy.PolicyIdle? && PolicyMay(faults, v.policy, call) && w == ViewPolicy(setup, v, call) {
      PolicyKeepsAssessed(setup, faults, v, call);
    } else {
      OtherStepsKeepAssessed(setup, faults, v, w);
    }
  }

  lemma OtherStepsKeepAssessed(setup: Setup, faults: Faults, v: View, w: View)
    requires Staged(faults, v) && Inventoried(v) && Assessed(setup, faults, v)
    requires
      || (exists call: Call :: !v.scan.api.ApiDone? && w == ViewApi(v, call))
      || (v.jobs != [] && w == ViewTakeJob(v))
      || (exists wellFormed: bool :: v.scan.collector.HasJob? && w == ViewAnnounce(v, wellFormed))
      || (exists body: EventBody :: v.scan.collector.Announced? && !body.CollectionStarted? && w == ViewReport(v, body))
      || (v.ingest.IngestIdle? && v.events != [] && w == ViewPopEvent(v))
      || (v.policy.PolicyIdle? && v.evaluates != [] && w == ViewPopEvaluate(v))
      || (v.scan.published && HasReport(v.scan.collector) && w == ViewRedeliver(v))
    ensures Assessed(setup, faults, w)
  {
    assert v.evaluates != [] ==> v.evaluates[|v.evaluates| - 1] in v.evaluates;
  }

  ghost predicate AllAssessed(setup: Setup, faults: Faults, s: System) {
    AllInventoried(faults, s) && forall id | id in s.scans :: Assessed(setup, faults, ViewOf(s, id))
  }

  lemma {:induction false} RunsStayAssessed(setup: Setup, faults: Faults, steps: seq<Step>)
    requires !faults.phantomPublish && After(setup, faults, steps).Some?
    ensures AllAssessed(setup, faults, After(setup, faults, steps).value)
  {
    RunsStayInventoried(setup, faults, steps);
    if steps != [] {
      var init, step := steps[..|steps| - 1], steps[|steps| - 1];
      RunsStayAssessed(setup, faults, init);
      var s, t := After(setup, faults, init).value, After(setup, faults, steps).value;
      forall id | id in t.scans ensures Assessed(setup, faults, ViewOf(t, id)) {
        if id in s.scans {
          StepIsViewStep(setup, faults, s, step, id);
          if ViewOf(t, id) != ViewOf(s, id) {
            NextKeepsAssessed(setup, faults, ViewOf(s, id), ViewOf(t, id));
          }
        } else {
          CreatedView(setup, faults, s, step, id);
        }
      }
    }
  }

  // ----- the guarantees

  predicate Finished(status: ScanStatus) {
    status == Completed || status == CompletedWithErrors
  }

  lemma FinishedIsPublished(faults: Faults, v: View)
    requires Staged(faults, v) && Finished(v.scan.cell.status)
    ensures v.scan.published && HasReport(v.scan.collector) && Evaluation(faults, v)
  {
  }

  lemma FinishedData(setup: Setup, faults: Faults, v: View, reported: string)
    requires Evaluation(faults, v) && EvaluationData(setup, faults, v.scan.cell, v.policy, reported)
    requires Finished(v.scan.cell.status)
    ensures Evaluated(setup, v.scan.cell) && v.scan.cell.status == Verdict(reported)
    ensures !faults.lateRaise ==> Counted(setup, v.scan.cell)
  {
  }

  lemma FinishedIsEvaluated(setup: Setup, faults: Faults, v: View)
    requires Staged(faults, v) && Inventoried(v) && Assessed(setup, faults, v) && Finished(v.scan.cell.status)
    ensures v.scan.published && HasReport(v.scan.collector) && Stored(v.scan.cell, v.scan.collector.body.report.value)
    ensures Evaluated(setup, v.scan.cell)
    ensures v.scan.cell.status == Verdict(v.scan.collector.body.report.value.status)
    ensures !faults.lateRaise ==> Counted(setup, v.scan.cell)
  {
    FinishedIsPublished(faults, v);
    FinishedData(setup, faults, v, v.scan.collector.body.report.value.status);
  }

  /** A scan is COMPLETED exactly when its collector reported "completed" or an empty status, and
      COMPLETED_WITH_ERRORS otherwise; its findings, control results and scores are then those of
      one evaluation of its stored assets, however often policy.evaluate was delivered. */
  lemma FinishedScan(setup: Setup, faults: Faults, steps: seq<Step>, id: ScanId)
    requires !faults.phantomPublish && After(setup, faults, steps).Some?
    requires id in After(setup, faults, steps).value.scans
    requires Finished(After(setup, faults, steps).value.scans[id].cell.status)
    ensures var scan := After(setup, faults, steps).value.scans[id];
            var cell := scan.cell;
            && HasReport(scan.collector)
            && (cell.status == Completed <==> scan.collector.body.report.value.status in {"completed", ""})
            && Stored(cell, scan.collector.body.report.value)
            && cell.findings == FullFindings(setup, cell.resources, cell.ingestedAt)
            && cell.tables == MapTables(setup.catalog, NO_TABLES, Compliance.GroupRows(setup.findingOrder(cell.findings.rows)))
            && (!faults.lateRaise ==> Counted(setup, cell))
  {
    RunsStayAssessed(setup, faults, steps);
    var v := ViewOf(After(setup, faults, steps).value, id);
    assert Assessed(setup, faults, v) && Inventoried(v) && Staged(faults, v);
    FinishedIsEvaluated(setup, faults, v);
    FullTablesAreMapped(setup, v.scan.cell.resources, v.scan.cell.ingestedAt);
  }

  /** An evaluation whose last call returns leaves the scan in the status its collector's report
      calls for. */
  lemma EvaluationEndsWithVerdict(setup: Setup, faults: Faults, steps: seq<Step>, call: Call)
    requires !faults.phantomPublish && After(setup, faults, steps).Some?
    requires Enabled(faults, After(setup, faults, steps).value, StepPolicy(call)) && Returned(call)
    requires After(setup, faults, steps).value.policyPc.LogScanCompleted?
    ensures var t := Apply(setup, faults, After(setup, faults, steps).value, StepPolicy(call));
            && t.policyPc.PolicyIdle?
            && HasReport(t.scans[t.policyScan].collector)
            && t.scans[t.policyScan].cell.status == Verdict(t.scans[t.policyScan].collector.body.report.value.status)
  {
    var s := After(setup, faults, steps).value;
    RunsStayAssessed(setup, faults, steps);
    var v := ViewOf(s, s.policyScan);
    assert Assessed(setup, faults, v) && Staged(faults, v);
    LoggingIsVerdict(setup, faults, v);
  }

  lemma LoggingIsVerdict(setup: Setup, faults: Faults, v: View)
    requires Staged(faults, v) && Assessed(setup, faults, v) && v.policy.LogScanCompleted?
    ensures HasReport(v.scan.collector) && v.scan.cell.status == Verdict(v.scan.collector.body.report.value.status)
  {
  }

  /** The asset a policy sees for a stored resource. */
  function AssetOf(setup: Setup, cell: Cell, resource: Resource): Asset {
    ToAsset(resource, IngestedAt(cell.ingestedAt, setup.iso, resource.resourceId))
  }

  /** From bronze files to findings: a finished scan has a finding for a policy and an identifier
      exactly when the policy matches the first resource collected under that identifier, and the
      finding is the verdict on that resource. */
  lemma FinishedScanJudgesInventory(setup: Setup, faults: Faults, steps: seq<Step>, id: ScanId, policy: Policy, resourceId: string)
    requires !faults.phantomPublish && After(setup, faults, steps).Some?
    requires id in After(setup, faults, steps).value.scans
    requires Finished(After(setup, faults, steps).value.scans[id].cell.status)
    requires DistinctPolicies(setup.policies) && policy in setup.policies
    requires var table := After(setup, faults, steps).value.scans[id].cell.resources; ListsTable(setup.assetOrder(table), table)
    ensures var scan := After(setup, faults, steps).value.scans[id];
            && HasReport(scan.collector)
            && var inventory := NormalizeAll(scan.collector.body.report.value.files, scan.cell.accountId);
               && inventory.Some?
               && var first := FirstOf(inventory.value.resources, resourceId);
                  var key, rows := (policy.policyId, resourceId), scan.cell.findings.rows;
                  && (key in rows <==> first.Some? && Matches(policy, AssetOf(setup, scan.cell, first.value)))
                  && (key in rows ==> rows[key].draft == Judge(policy, AssetOf(setup, scan.cell, first.value)))
                  && (key in rows ==> resourceId in scan.cell.ingestedAt)
  {
    FinishedScan(setup, faults, steps, id);
    RunsStayInventoried(setup, faults, steps);
    var scan := After(setup, faults, steps).value.scans[id];
    assert Inventoried(ViewOf(After(setup, faults, steps).value, id));
    var inventory := NormalizeAll(scan.collector.body.report.value.files, scan.cell.accountId).value;
    InsertsKeepFirst(inventory.resources);
    forall key | key in scan.cell.resources ensures scan.cell.resources[key].resourceId == key {
      FirstOfListed(inventory.resources, key);
    }
    TableIsJudged(setup, scan.cell.resources, scan.cell.ingestedAt, policy, resourceId);
  }

  lemma TableIsJudged(setup: Setup, table: map<string, Resource>, times: Times, policy: Policy, resourceId: string)
    requires DistinctPolicies(setup.policies) && policy in setup.policies
    requires ListsTable(setup.assetOrder(table), table)
    requires forall key | key in table :: table[key].resourceId == key
    ensures var key, rows := (policy.policyId, resourceId), FullFindings(setup, table, times).rows;
            var stamp := IngestedAt(times, setup.iso, resourceId);
            && (key in rows <==> resourceId in table && Matches(policy, ToAsset(table[resourceId], stamp)))
            && (key in rows ==> rows[key].draft == Judge(policy, ToAsset(table[resourceId], stamp)))
  {
    var listed := setup.assetOrder(table);
    var assets := ToAssets(listed, times, setup.iso);
    var key, rows := (policy.policyId, resourceId), FullFindings(setup, table, times).rows;
    ListedAssetsAreDistinct(listed, table, times, setup.iso);
    EvaluationIsComprehension(setup.policies, assets, 0);
    assert rows == UpsertAll(Store(map[], 0), Drafts(setup.policies, assets)).rows;
    if key in rows {
      var p, a :| p in setup.policies && a in assets && Matches(p, a) && key == (p.policyId, ResourceId(a));
      OnePolicyPerId(setup.policies, p, policy);
      ListedAsset(listed, table, times, setup.iso, a, resourceId);
    }
    if resourceId in table {
      StoredIsListed(listed, table, times, setup.iso, resourceId);
    }
  }

  /** In a finished scan such a row says of the first resource collected under the identifier whether the
      policy's logic holds of it, fails or raises, with the evidence found on it. */
  lemma FinishedScanRecordsAnswers(setup: Setup, faults: Faults, steps: seq<Step>, id: ScanId, policy: Policy, resourceId: string)
    requires !faults.phantomPublish && After(setup, faults, steps).Some?
    requires id in After(setup, faults, steps).value.scans
    requires Finished(After(setup, faults, steps).value.scans[id].cell.status)
    requires DistinctPolicies(setup.policies) && policy in setup.policies
    requires var table := After(setup, faults, steps).value.scans[id].cell.resources; ListsTable(setup.assetOrder(table), table)
    requires (policy.policyId, resourceId) in After(setup, faults, steps).value.scans[id].cell.findings.rows
    ensures var scan := After(setup, faults, steps).value.scans[id];
            && HasReport(scan.collector)
            && var inventory := NormalizeAll(scan.collector.body.report.value.files, scan.cell.accountId);
               && inventory.Some? && FirstOf(inventory.value.resources, resourceId).Some?
               && var asset := AssetOf(setup, scan.cell, FirstOf(inventory.value.resources, resourceId).value);
                  IsAssetRow(asset) && Records(scan.cell.findings.rows[(policy.policyId, resourceId)].draft, policy, asset)
  {
    FinishedScanJudgesInventory(setup, faults, steps, id, policy, resourceId);
    var scan := After(setup, faults, steps).value.scans[id];
    var inventory := NormalizeAll(scan.collector.body.report.value.files, scan.cell.accountId).value;
    var first := FirstOf(inventory.resources, resourceId).value;
    AssetHasId(first, IngestedAt(scan.cell.ingestedAt, setup.iso, first.resourceId));
    JudgedRowRecords(policy, AssetOf(setup, scan.cell, first));
  }

  // ----- the evaluation run

  predicate ZeroCounts(run: EvaluationRun) {
    run.policiesRun == 0 && run.findingsCount == 0 && run.failCount == 0
  }

  /** A finished scan's evaluation run is over and counts the policies, the findings and the failing
      findings of the scan. */
  lemma FinishedScanCounts(setup: Setup, faults: Faults, steps: seq<Step>, id: ScanId)
    requires !faults.phantomPublish && !faults.lateRaise && After(setup, faults, steps).Some?
    requires id in After(setup, faults, steps).value.scans
    requires Finished(After(setup, faults, steps).value.scans[id].cell.status)
    requires DistinctPolicies(setup.policies)
    requires var table := After(setup, faults, steps).value.scans[id].cell.resources; ListsTable(setup.assetOrder(table), table)
    ensures var cell := After(setup, faults, steps).value.scans[id].cell;
            && cell.evaluation.Some?
            && var run, rows := cell.evaluation.value, cell.findings.rows;
               && !run.running && !run.failed
               && run.policiesRun == |setup.policies|
               && run.findingsCount == |rows|
               && run.failCount == |set key | key in rows && rows[key].draft.result == Fail|
    ensures FreshIds(After(setup, faults, steps).value.scans[id].cell.findings)
  {
    FinishedScan(setup, faults, steps, id);
    var cell := After(setup, faults, steps).value.scans[id].cell;
    var listed := setup.assetOrder(cell.resources);
    ListedAssetsAreDistinct(listed, cell.resources, cell.ingestedAt, setup.iso);
    CountersCountRows(setup.policies, ToAssets(listed, cell.ingestedAt, setup.iso), 0);
    IdsStayDistinct(NO_FINDINGS, DraftsFor(setup, cell.resources, cell.ingestedAt));
    var rows := cell.findings.rows;
    assert FailKeys(rows) == set key | key in rows && rows[key].draft.result == Fail;
  }

  /** What the evaluation run of a scan says while its policy worker is at work, and when the work was
      given up. */
  ghost predicate RunFollows(v: View) {
    var evaluation := v.scan.cell.evaluation;
    && (v.policy.ListAssets? || v.policy.UpsertFinding? || v.policy.CompleteEvaluation? ==>
          evaluation.Some? && evaluation.value.running && !evaluation.value.failed && ZeroCounts(evaluation.value))
    && (v.scan.published && v.scan.cell.status == Failed ==>
          evaluation.Some? && !evaluation.value.running && evaluation.value.failed && ZeroCounts(evaluation.value))
  }

  /** In every run: the evaluation run is running with nothing counted until the findings are complete,
      and a scan FAILED after its hand-over has a failed run with nothing counted. */
  lemma EvaluationRunFollows(setup: Setup, faults: Faults, steps: seq<Step>, id: ScanId)
    requires !faults.phantomPublish && After(setup, faults, steps).Some?
    requires id in After(setup, faults, steps).value.scans
    ensures RunFollows(ViewOf(After(setup, faults, steps).value, id))
  {
    RunsStayAssessed(setup, faults, steps);
    var v := ViewOf(After(setup, faults, steps).value, id);
    assert Assessed(setup, faults, v) && Staged(faults, v);
    AssessedRunFollows(setup, faults, v);
  }

  lemma AssessedRunFollows(setup: Setup, faults: Faults, v: View)
    requires Staged(faults, v) && Assessed(setup, faults, v)
    ensures RunFollows(v)
  {
    if !v.policy.PolicyIdle? {
      BusyIsEvaluating(faults, v);
    }
  }

  lemma OnePolicyPerId(policies: seq<Policy>, p: Policy, q: Policy)
    requires DistinctPolicies(policies) && p in policies && q in policies && p.policyId == q.policyId
    ensures p == q
  {
  }

  lemma ListedAsset(listed: seq<Resource>, table: map<string, Resource>, times: Times, iso: int -> string, a: Asset, resourceId: string)
    requires ListsTable(listed, table) && a in ToAssets(listed, times, iso) && ResourceId(a) == resourceId
    ensures resourceId in table && a == ToAsset(table[resourceId], IngestedAt(times, iso, resourceId))
  {
    var i :| 0 <= i < |listed| && a == ToAssets(listed, times, iso)[i];
    AssetHasId(listed[i], IngestedAt(times, iso, listed[i].resourceId));
    assert listed[i] in listed;
  }

  lemma StoredIsListed(listed: seq<Resource>, table: map<string, Resource>, times: Times, iso: int -> string, resourceId: string)
    requires ListsTable(listed, table) && resourceId in table
    requires table[resourceId].resourceId == resourceId
    ensures var asset := ToAsset(table[resourceId], IngestedAt(times, iso, resourceId));
            asset in ToAssets(listed, times, iso) && IsAssetRow(asset) && ResourceId(asset) == resourceId
  {
    var i :| 0 <= i < |listed| && listed[i] == table[resourceId];
    AssetHasId(listed[i], IngestedAt(times, iso, resourceId));
    assert ToAssets(listed, times, iso)[i] == ToAsset(table[resourceId], IngestedAt(times, iso, resourceId));
  }
}
