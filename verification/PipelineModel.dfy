/** The scan pipeline as a state machine: the API, the collector, one ingest worker and one policy
    worker share the rows of every scan and three Redis lists, and interleave between database
    calls. */
module PipelineModel {
  import opened Wrappers
  import opened ScanLifecycle
  import opened Assets
  import opened Findings
  import opened ComplianceMapping
  import opened Tables

  type ScanId = nat

  // ----- calls that may raise

  /** A database or Redis call returns, raises without effect, or raises although its effect
      took place (the reply was lost). */
  datatype Outcome = Ok | RaiseBefore | RaiseAfter

  /** One call: how it ends and what now() is while it runs. */
  datatype Call = Call(outcome: Outcome, now: int)

  predicate Took(call: Call) {
    call.outcome != RaiseBefore
  }

  predicate Returned(call: Call) {
    call.outcome == Ok
  }

  // ----- the rows of one scan

  /** Everything stored about one scan: its scans row, its collection run, its inventory, its
      findings and evaluation run, its control results and scores. */
  datatype Cell = Cell(
    status: ScanStatus,
    startedAt: Option<int>,
    completedAt: Option<int>,
    accountId: string,
    runStatus: string,
    resources: map<string, Resource>,
    ingestedAt: Times,
    relationships: set<Edge>,
    findings: Store,
    evaluation: Option<EvaluationRun>,
    tables: ComplianceTables)

  /** ScanRepository.create: the scans row and its collection run, in one transaction. */
  function NewCell(accountId: string, runStatus: string): Cell {
    Cell(Created, None, None, accountId, runStatus, map[], map[], {}, Store(map[], 0), None, ComplianceTables(map[], map[]))
  }

  /** ScanRepository.update_status: no check of the transition table. */
  function UpdateStatus(cell: Cell, status: ScanStatus, started: bool, completed: bool, call: Call): Cell {
    if !Took(call) then cell
    else cell.(
      status := status,
      startedAt := if started && cell.startedAt.None? then Some(call.now) else cell.startedAt,
      completedAt := if completed then Some(call.now) else cell.completedAt)
  }

  function UpdateRun(cell: Cell, runStatus: string, call: Call): Cell {
    if Took(call) then cell.(runStatus := runStatus) else cell
  }

  // ----- messages

  /** What the collector says a finished collection produced: its status and the bronze files its
      manifest lists. */
  datatype Report = Report(status: string, files: seq<Bronze>)

  /** Event payloads; one without a usable collection_run_id is not well formed, and a completed
      event that lacks a required key carries no report. */
  datatype EventBody =
    | CollectionStarted(wellFormed: bool)
    | CollectionFailed(wellFormed: bool)
    | CollectionCompleted(report: Option<Report>)

  datatype Message<T> = Message(scan: ScanId, body: T)

  /** LPUSH */
  function Push<T>(queue: seq<Message<T>>, scan: ScanId, body: T): seq<Message<T>> {
    [Message(scan, body)] + queue
  }

  // ----- ScanService.create_scan after the insert

  datatype ApiPc = WriteQueued | PushJob | ApiDone

  function ApiNext(api: ApiPc, call: Call): ApiPc {
    if api.WriteQueued? && Returned(call) then PushJob else ApiDone
  }

  function ApiCell(cell: Cell, api: ApiPc, call: Call): Cell {
    if api.WriteQueued? then UpdateStatus(cell, Queued, true, false, call) else cell
  }

  // ----- IngestWorker.handle_event, one program point for each call

  datatype IngestPc =
    | IngestIdle
    | LogEvent(body: EventBody)
    | StartedStatus
    | StartedRun
    | FailedStatus
    | FailedRun
    | FailedMark
    | FailedLog
    | CollectedStatus(report: Report)
    | ReportedRun(report: Report)
    | CompletedMark(report: Report)
    | IngestingStatus(report: Report)
    | ReadFiles(report: Report)
    | LoadRun(report: Report)
    | InsertResource(report: Report, inventory: Inventory, i: nat)
    | InsertEdge(report: Report, inventory: Inventory, i: nat)
    | ReadyStatus(report: Report)
    | CountRows(report: Report)
    | LogUpdated(report: Report)
    | Publish(report: Report)
    | IngestFailed

  /** The branch on the event type, after the event was logged. */
  function Dispatch(body: EventBody): IngestPc {
    match body
    case CollectionStarted(wellFormed) => if wellFormed then StartedStatus else IngestIdle
    case CollectionFailed(wellFormed) => if wellFormed then FailedStatus else IngestIdle
    case CollectionCompleted(report) => if report.Some? then CollectedStatus(report.value) else IngestFailed
  }

  function InsertResourcesFrom(report: Report, inventory: Inventory, i: nat): IngestPc {
    if i < |inventory.resources| then InsertResource(report, inventory, i) else InsertEdgesFrom(report, inventory, 0)
  }

  function InsertEdgesFrom(report: Report, inventory: Inventory, i: nat): IngestPc {
    if i < |inventory.edges| then InsertEdge(report, inventory, i) else ReadyStatus(report)
  }

  /** Inside the try block every exception leads to the FAILED write. */
  function Try(call: Call, next: IngestPc): IngestPc {
    if Returned(call) then next else IngestFailed
  }

  /** Outside it an exception ends the handler. */
  function Raw(call: Call, next: IngestPc): IngestPc {
    if Returned(call) then next else IngestIdle
  }

  function IngestNext(cell: Cell, pc: IngestPc, call: Call): IngestPc {
    match pc
    case LogEvent(body) => Raw(call, Dispatch(body))
    case StartedStatus => Raw(call, StartedRun)
    case FailedStatus => Raw(call, FailedRun)
    case FailedRun => Raw(call, FailedMark)
    case FailedMark => Raw(call, FailedLog)
    case CollectedStatus(report) => Try(call, ReportedRun(report))
    case ReportedRun(report) => Try(call, CompletedMark(report))
    case CompletedMark(report) => Try(call, IngestingStatus(report))
    case IngestingStatus(report) => Try(call, ReadFiles(report))
    case ReadFiles(report) => Try(call, LoadRun(report))
    case LoadRun(report) =>
      var inventory := NormalizeAll(report.files, cell.accountId);
      Try(call, if inventory.Some? then InsertResourcesFrom(report, inventory.value, 0) else IngestFailed)
    case InsertResource(report, inventory, i) => Try(call, InsertResourcesFrom(report, inventory, i + 1))
    case InsertEdge(report, inventory, i) => Try(call, InsertEdgesFrom(report, inventory, i + 1))
    case ReadyStatus(report) => Try(call, CountRows(report))
    case CountRows(report) => Try(call, LogUpdated(report))
    case LogUpdated(report) => Try(call, Publish(report))
    case Publish(_) => Try(call, IngestIdle)
    case IngestIdle => IngestIdle
    case StartedRun => IngestIdle
    case FailedLog => IngestIdle
    case IngestFailed => IngestIdle
  }

  function IngestCell(cell: Cell, pc: IngestPc, call: Call): Cell {
    match pc
    case StartedStatus => UpdateStatus(cell, Collecting, false, false, call)
    case StartedRun => UpdateRun(cell, "running", call)
    case FailedStatus => UpdateStatus(cell, Failed, false, true, call)
    case FailedRun => UpdateRun(cell, "failed", call)
    case CollectedStatus(_) => UpdateStatus(cell, Collected, false, false, call)
    case ReportedRun(report) => UpdateRun(cell, report.status, call)
    case IngestingStatus(_) => UpdateStatus(cell, Ingesting, false, false, call)
    case InsertResource(_, inventory, i) =>
      if Took(call) && i < |inventory.resources| then
        var row := inventory.resources[i];
        cell.(resources := InsertNew(cell.resources, row.resourceId, row),
              ingestedAt := InsertNew(cell.ingestedAt, row.resourceId, call.now))
      else cell
    case InsertEdge(_, inventory, i) =>
      if Took(call) && i < |inventory.edges| then
        cell.(relationships := cell.relationships + {inventory.edges[i]})
      else cell
    case ReadyStatus(_) => UpdateStatus(cell, InventoryReady, false, false, call)
    case IngestFailed => UpdateStatus(cell, Failed, false, true, call)
    case _ => cell
  }

  predicate Publishes(pc: IngestPc, call: Call) {
    pc.Publish? && Took(call)
  }

  // ----- PolicyWorker.handle_event

  /** What the policy worker is configured with, the orders in which the database lists rows, and how
      it shows a time. */
  datatype Setup = Setup(
    policies: seq<Policy>,
    catalog: Catalog,
    assetOrder: map<string, Resource> -> seq<Resource>,
    findingOrder: map<Key, Finding> -> seq<Finding>,
    iso: int -> string)

  datatype PolicyPc =
    | PolicyIdle
    | LogRequest(reported: string)
    | LoadScan(reported: string)
    | EvaluatingStatus(reported: string)
    | StartEvaluation(reported: string)
    | ListAssets(reported: string)
    | UpsertFinding(reported: string, drafts: seq<Draft>, i: nat)
    | CompleteEvaluation(reported: string, drafts: seq<Draft>)
    | ReadFindings(reported: string)
    | WriteCompliance(reported: string, writes: seq<ComplianceWrite>, i: nat)
    | LoadCollectionRun(reported: string)
    | FinalStatus(status: ScanStatus)
    | LogPolicyCompleted(status: ScanStatus)
    | LogComplianceUpdated(status: ScanStatus)
    | LogScanCompleted(status: ScanStatus)
    | FailEvaluation(after: Option<ScanStatus>)
    | FailStatus(after: Option<ScanStatus>)
    | LogFailure

  /** The scan statuses in which an evaluation is not skipped. */
  predicate Evaluable(status: ScanStatus) {
    status in {InventoryReady, CompletedWithErrors}
  }

  function DraftsFor(setup: Setup, resources: map<string, Resource>, times: Times): seq<Draft> {
    Drafts(setup.policies, ToAssets(setup.assetOrder(resources), times, setup.iso))
  }

  /** run.status, else the payload's collection_status, else "completed": an empty text counts as
      absent. */
  function FinalFor(runStatus: string, reported: string): ScanStatus {
    var collectionStatus := if runStatus != "" then runStatus else if reported != "" then reported else "completed";
    if collectionStatus == "completed" then Completed else CompletedWithErrors
  }

  function UpsertFrom(reported: string, drafts: seq<Draft>, i: nat): PolicyPc {
    if i < |drafts| then UpsertFinding(reported, drafts, i) else CompleteEvaluation(reported, drafts)
  }

  /** After the last framework, map_scan raises LookupError unless the primary one was mapped. */
  function WriteFrom(setup: Setup, reported: string, writes: seq<ComplianceWrite>, i: nat): PolicyPc {
    if i < |writes| then WriteCompliance(reported, writes, i)
    else if CUSTOMER_PRIMARY_FRAMEWORK in setup.catalog then LoadCollectionRun(reported)
    else FailEvaluation(None)
  }

  function TryPolicy(call: Call, next: PolicyPc): PolicyPc {
    if Returned(call) then next else FailEvaluation(None)
  }

  /** An exception raised when the final status is already stored. */
  function TryLate(call: Call, status: ScanStatus, next: PolicyPc): PolicyPc {
    if Returned(call) then next else FailEvaluation(Some(status))
  }

  function RawPolicy(call: Call, next: PolicyPc): PolicyPc {
    if Returned(call) then next else PolicyIdle
  }

  function PolicyNext(setup: Setup, cell: Cell, pc: PolicyPc, call: Call): PolicyPc {
    match pc
    case LogRequest(reported) => RawPolicy(call, LoadScan(reported))
    case LoadScan(reported) => RawPolicy(call, if Evaluable(cell.status) then EvaluatingStatus(reported) else PolicyIdle)
    case EvaluatingStatus(reported) => RawPolicy(call, StartEvaluation(reported))
    case StartEvaluation(reported) => RawPolicy(call, ListAssets(reported))
    case ListAssets(reported) => TryPolicy(call, UpsertFrom(reported, DraftsFor(setup, cell.resources, cell.ingestedAt), 0))
    case UpsertFinding(reported, drafts, i) => TryPolicy(call, UpsertFrom(reported, drafts, i + 1))
    case CompleteEvaluation(reported, _) => TryPolicy(call, ReadFindings(reported))
    case ReadFindings(reported) =>
      TryPolicy(call, WriteFrom(setup, reported, WritesFor(setup.catalog, setup.findingOrder(cell.findings.rows)), 0))
    case WriteCompliance(reported, writes, i) => TryPolicy(call, WriteFrom(setup, reported, writes, i + 1))
    case LoadCollectionRun(reported) => TryPolicy(call, FinalStatus(FinalFor(cell.runStatus, reported)))
    case FinalStatus(status) =>
      if call.outcome == RaiseBefore then FailEvaluation(None) else TryLate(call, status, LogPolicyCompleted(status))
    case LogPolicyCompleted(status) => TryLate(call, status, LogComplianceUpdated(status))
    case LogComplianceUpdated(status) => TryLate(call, status, LogScanCompleted(status))
    case LogScanCompleted(status) => TryLate(call, status, PolicyIdle)
    case FailEvaluation(after) => RawPolicy(call, FailStatus(after))
    case FailStatus(_) => RawPolicy(call, LogFailure)
    case LogFailure => PolicyIdle
    case PolicyIdle => PolicyIdle
  }

  /** start_evaluation_run: the row is inserted, or reset when the scan was evaluated before. */
  const STARTED_EVALUATION: EvaluationRun := EvaluationRun(true, false, 0, 0, 0)

  function CompletedEvaluation(setup: Setup, drafts: seq<Draft>): EvaluationRun {
    EvaluationRun(false, false, |setup.policies|, |drafts|, FailCount(drafts))
  }

  const FAILED_EVALUATION: EvaluationRun := EvaluationRun(false, true, 0, 0, 0)

  /** complete_evaluation_run updates the row if there is one. */
  function SetEvaluation(cell: Cell, run: EvaluationRun, call: Call): Cell {
    if Took(call) && cell.evaluation.Some? then cell.(evaluation := Some(run)) else cell
  }

  function PolicyCell(setup: Setup, cell: Cell, pc: PolicyPc, call: Call): Cell {
    match pc
    case EvaluatingStatus(_) => UpdateStatus(cell, Evaluating, false, false, call)
    case StartEvaluation(_) => if Took(call) then cell.(evaluation := Some(STARTED_EVALUATION)) else cell
    case UpsertFinding(_, drafts, i) =>
      if Took(call) && i < |drafts| then cell.(findings := Upsert(cell.findings, drafts[i])) else cell
    case CompleteEvaluation(_, drafts) => SetEvaluation(cell, CompletedEvaluation(setup, drafts), call)
    case WriteCompliance(_, writes, i) =>
      if Took(call) && i < |writes| then cell.(tables := Write(cell.tables, writes[i])) else cell
    case FinalStatus(status) => UpdateStatus(cell, status, false, true, call)
    case FailEvaluation(_) => SetEvaluation(cell, FAILED_EVALUATION, call)
    case FailStatus(_) => UpdateStatus(cell, Failed, false, true, call)
    case _ => cell
  }

  // ----- map_scan, write by write

  datatype ComplianceWrite =
    | ResultWrite(key: (string, string), result: Compliance.Aggregate)
    | ScoreWrite(framework: string, score: ScoreRow)

  function Write(tables: ComplianceTables, write: ComplianceWrite): ComplianceTables {
    match write
    case ResultWrite(key, result) => tables.(results := tables.results[key := result])
    case ScoreWrite(framework, score) => tables.(scores := tables.scores[framework := score])
  }

  function WriteAll(tables: ComplianceTables, writes: seq<ComplianceWrite>): ComplianceTables {
    if writes == [] then tables
    else Write(WriteAll(tables, writes[..|writes| - 1]), writes[|writes| - 1])
  }

  function ResultWrites(pairs: seq<((string, string), Compliance.Aggregate)>): seq<ComplianceWrite> {
    seq(|pairs|, i requires 0 <= i < |pairs| => ResultWrite(pairs[i].0, pairs[i].1))
  }

  function FrameworkWrites(catalog: Catalog, id: string, grouped: Compliance.Grouped): seq<ComplianceWrite>
    requires id in catalog
  {
    ResultWrites(ControlPairs(catalog[id], grouped)) + [ScoreWrite(id, ScoreRowOf(catalog[id], grouped))]
  }

  function MapWrites(catalog: Catalog, ids: seq<string>, grouped: Compliance.Grouped): seq<ComplianceWrite> {
    if ids == [] then []
    else
      var id := ids[|ids| - 1];
      MapWrites(catalog, ids[..|ids| - 1], grouped) + if id in catalog then FrameworkWrites(catalog, id, grouped) else []
  }

  function WritesFor(catalog: Catalog, rows: seq<Finding>): seq<ComplianceWrite> {
    MapWrites(catalog, SCAN_FRAMEWORK_IDS, Compliance.GroupRows(rows))
  }

  lemma {:induction false} WriteAllAppend(tables: ComplianceTables, front: seq<ComplianceWrite>, back: seq<ComplianceWrite>)
    ensures WriteAll(tables, front + back) == WriteAll(WriteAll(tables, front), back)
  {
    if back == [] {
      assert front + back == front;
    } else {
      WriteAllAppend(tables, front, back[..|back| - 1]);
      assert (front + back)[..|front + back| - 1] == front + back[..|back| - 1];
    }
  }

  lemma {:induction false} ResultWritesPut(tables: ComplianceTables, pairs: seq<((string, string), Compliance.Aggregate)>)
    ensures WriteAll(tables, ResultWrites(pairs)) == tables.(results := PutAll(tables.results, pairs))
  {
    if pairs != [] {
      ResultWritesPut(tables, pairs[..|pairs| - 1]);
      assert ResultWrites(pairs)[..|pairs| - 1] == ResultWrites(pairs[..|pairs| - 1]);
    }
  }

  lemma FrameworkWritesPut(catalog: Catalog, id: string, grouped: Compliance.Grouped, tables: ComplianceTables)
    requires id in catalog
    ensures WriteAll(tables, FrameworkWrites(catalog, id, grouped)) ==
            ComplianceTables(PutAll(tables.results, ControlPairs(catalog[id], grouped)),
                             tables.scores[id := ScoreRowOf(catalog[id], grouped)])
  {
    ResultWritesPut(tables, ControlPairs(catalog[id], grouped));
    WriteOneMore(tables, ResultWrites(ControlPairs(catalog[id], grouped)), ScoreWrite(id, ScoreRowOf(catalog[id], grouped)));
  }

  lemma WriteOneMore(tables: ComplianceTables, writes: seq<ComplianceWrite>, last: ComplianceWrite)
    ensures WriteAll(tables, writes + [last]) == Write(WriteAll(tables, writes), last)
  {
    assert (writes + [last])[..|writes|] == writes;
  }

  lemma MapWritesStep(catalog: Catalog, ids: seq<string>, grouped: Compliance.Grouped, tables: ComplianceTables)
    requires ids != [] && ids[|ids| - 1] in catalog
    ensures var init, id := ids[..|ids| - 1], ids[|ids| - 1];
            WriteAll(tables, MapWrites(catalog, ids, grouped)) ==
            WriteAll(WriteAll(tables, MapWrites(catalog, init, grouped)), FrameworkWrites(catalog, id, grouped))
  {
    WriteAllAppend(tables, MapWrites(catalog, ids[..|ids| - 1], grouped), FrameworkWrites(catalog, ids[|ids| - 1], grouped));
  }

  lemma ResultsOfStep(catalog: Catalog, ids: seq<string>, grouped: Compliance.Grouped, results: map<(string, string), Compliance.Aggregate>)
    requires ids != [] && ids[|ids| - 1] in catalog
    ensures PutAll(results, ResultPairs(catalog, ids, grouped)) ==
            PutAll(PutAll(results, ResultPairs(catalog, ids[..|ids| - 1], grouped)), ControlPairs(catalog[ids[|ids| - 1]], grouped))
  {
    PutAllAppend(results, ResultPairs(catalog, ids[..|ids| - 1], grouped), ControlPairs(catalog[ids[|ids| - 1]], grouped));
  }

  lemma ScoresOfStep(catalog: Catalog, ids: seq<string>, grouped: Compliance.Grouped, scores: map<string, ScoreRow>)
    requires ids != [] && ids[|ids| - 1] in catalog
    ensures var id := ids[|ids| - 1];
            PutAll(scores, ScorePairs(catalog, ids, grouped)) ==
            PutAll(scores, ScorePairs(catalog, ids[..|ids| - 1], grouped))[id := ScoreRowOf(catalog[id], grouped)]
  {
    var id := ids[|ids| - 1];
    PutOneMore(scores, ScorePairs(catalog, ids[..|ids| - 1], grouped), (id, ScoreRowOf(catalog[id], grouped)));
  }

  /** The single writes of map_scan, in order, amount to the tables map_scan is specified by. */
  lemma {:induction false} MapWritesAreTables(catalog: Catalog, ids: seq<string>, grouped: Compliance.Grouped,
                                              tables: ComplianceTables)
    ensures WriteAll(tables, MapWrites(catalog, ids, grouped)) ==
            ComplianceTables(PutAll(tables.results, ResultPairs(catalog, ids, grouped)),
                             PutAll(tables.scores, ScorePairs(catalog, ids, grouped)))
  {
    if ids != [] {
      var init, id := ids[..|ids| - 1], ids[|ids| - 1];
      MapWritesAreTables(catalog, init, grouped, tables);
      if id in catalog {
        MapWritesStep(catalog, ids, grouped, tables);
        FrameworkWritesPut(catalog, id, grouped, WriteAll(tables, MapWrites(catalog, init, grouped)));
        ResultsOfStep(catalog, ids, grouped, tables.results);
        ScoresOfStep(catalog, ids, grouped, tables.scores);
      } else {
        assert MapWrites(catalog, ids, grouped) == MapWrites(catalog, init, grouped);
        assert ResultPairs(catalog, ids, grouped) == ResultPairs(catalog, init, grouped);
        assert ScorePairs(catalog, ids, grouped) == ScorePairs(catalog, init, grouped);
      }
    }
  }

  // ----- the collector, which this repository does not contain

  datatype CollectorPc =
    | NoJob
    | HasJob
    | Announced
    | Reported(body: EventBody)

  // ----- the whole system

  /** One scan: its rows, how far its creator and its collector are, and two facts about the past:
      whether the COLLECTING write took effect and whether its policy.evaluate was enqueued. */
  datatype Scan = Scan(cell: Cell, api: ApiPc, collector: CollectorPc, collecting: bool, published: bool)

  datatype System = System(
    scans: map<ScanId, Scan>,
    jobs: seq<Message<()>>,
    events: seq<Message<EventBody>>,
    evaluates: seq<Message<string>>,
    ingestScan: ScanId,
    ingestPc: IngestPc,
    policyScan: ScanId,
    policyPc: PolicyPc)

  const INIT: System := System(map[], [], [], [], 0, IngestIdle, 0, PolicyIdle)

  datatype Step =
    | CreateScan(scan: ScanId, accountId: string, runStatus: string)
    | StepApi(scan: ScanId, call: Call)
    | TakeJob
    | Announce(scan: ScanId, wellFormed: bool)
    | SendReport(scan: ScanId, body: EventBody)
    | PopEvent
    | StepIngest(call: Call)
    | PopEvaluate
    | StepPolicy(call: Call)
    | Redeliver(scan: ScanId)

  /** Which of the assumptions may be broken: that the collection.started handler reaches its
      status write, that nothing raises once the final status is stored, that a publish that raises
      did not enqueue, and that a policy.evaluate is delivered once. */
  datatype Faults = Faults(startLost: bool, lateRaise: bool, phantomPublish: bool, redelivery: bool)

  predicate IngestMay(faults: Faults, pc: IngestPc, call: Call) {
    && (pc.LogEvent? && pc.body.CollectionStarted? && !Returned(call) ==> faults.startLost)
    && (pc.StartedStatus? && !Took(call) ==> faults.startLost)
    && (pc.Publish? && call.outcome == RaiseAfter ==> faults.phantomPublish)
  }

  predicate PolicyMay(faults: Faults, pc: PolicyPc, call: Call) {
    && (pc.FinalStatus? && call.outcome == RaiseAfter ==> faults.lateRaise)
    && (pc.LogPolicyCompleted? || pc.LogComplianceUpdated? || pc.LogScanCompleted? ==> Returned(call) || faults.lateRaise)
  }

  predicate HasReport(collector: CollectorPc) {
    collector.Reported? && collector.body.CollectionCompleted? && collector.body.report.Some?
  }

  predicate Enabled(faults: Faults, s: System, step: Step) {
    match step
    case CreateScan(scan, _, _) => scan !in s.scans
    case StepApi(scan, _) => scan in s.scans && !s.scans[scan].api.ApiDone?
    case TakeJob => s.jobs != [] && s.jobs[|s.jobs| - 1].scan in s.scans
    case Announce(scan, wellFormed) =>
      scan in s.scans && s.scans[scan].collector.HasJob? && (wellFormed || faults.startLost)
    case SendReport(scan, body) =>
      scan in s.scans && s.scans[scan].collector.Announced? && !body.CollectionStarted?
    case PopEvent => s.ingestPc.IngestIdle? && s.events != []
    case StepIngest(call) => !s.ingestPc.IngestIdle? && s.ingestScan in s.scans && IngestMay(faults, s.ingestPc, call)
    case PopEvaluate => s.policyPc.PolicyIdle? && s.evaluates != []
    case StepPolicy(call) => !s.policyPc.PolicyIdle? && s.policyScan in s.scans && PolicyMay(faults, s.policyPc, call)
    case Redeliver(scan) =>
      faults.redelivery && scan in s.scans && s.scans[scan].published && HasReport(s.scans[scan].collector)
  }

  function Apply(setup: Setup, faults: Faults, s: System, step: Step): System
    requires Enabled(faults, s, step)
  {
    match step
    case CreateScan(scan, accountId, runStatus) =>
      s.(scans := s.scans[scan := Scan(NewCell(accountId, runStatus), WriteQueued, NoJob, false, false)])
    case StepApi(scan, call) =>
      var row := s.scans[scan];
      s.(scans := s.scans[scan := row.(cell := ApiCell(row.cell, row.api, call), api := ApiNext(row.api, call))],
         jobs := if row.api.PushJob? && Took(call) then Push(s.jobs, scan, ()) else s.jobs)
    case TakeJob =>
      var scan := s.jobs[|s.jobs| - 1].scan;
      s.(scans := s.scans[scan := s.scans[scan].(collector := HasJob)], jobs := s.jobs[..|s.jobs| - 1])
    case Announce(scan, wellFormed) =>
      s.(scans := s.scans[scan := s.scans[scan].(collector := Announced)],
         events := Push(s.events, scan, CollectionStarted(wellFormed)))
    case SendReport(scan, body) =>
      s.(scans := s.scans[scan := s.scans[scan].(collector := Reported(body))], events := Push(s.events, scan, body))
    case PopEvent =>
      var message := s.events[|s.events| - 1];
      s.(events := s.events[..|s.events| - 1], ingestScan := message.scan, ingestPc := LogEvent(message.body))
    case StepIngest(call) =>
      var scan, pc := s.ingestScan, s.ingestPc;
      var row := s.scans[scan];
      s.(scans := s.scans[scan := row.(cell := IngestCell(row.cell, pc, call),
                                       collecting := row.collecting || (pc.StartedStatus? && Took(call)),
                                       published := row.published || Publishes(pc, call))],
         ingestPc := IngestNext(row.cell, pc, call),
         evaluates := if Publishes(pc, call) then Push(s.evaluates, scan, pc.report.status) else s.evaluates)
    case PopEvaluate =>
      var message := s.evaluates[|s.evaluates| - 1];
      s.(evaluates := s.evaluates[..|s.evaluates| - 1], policyScan := message.scan, policyPc := LogRequest(message.body))
    case StepPolicy(call) =>
      var row := s.scans[s.policyScan];
      s.(scans := s.scans[s.policyScan := row.(cell := PolicyCell(setup, row.cell, s.policyPc, call))],
         policyPc := PolicyNext(setup, row.cell, s.policyPc, call))
    case Redeliver(scan) =>
      s.(evaluates := Push(s.evaluates, scan, s.scans[scan].collector.body.report.value.status))
  }

  /** The state after a run, or None when some step of it was not enabled. */
  function After(setup: Setup, faults: Faults, steps: seq<Step>): Option<System> {
    if steps == [] then Some(INIT)
    else
      var before := After(setup, faults, steps[..|steps| - 1]);
      if before.Some? && Enabled(faults, before.value, steps[|steps| - 1]) then
        Some(Apply(setup, faults, before.value, steps[|steps| - 1]))
      else None
  }

  ghost predicate Reachable(setup: Setup, faults: Faults, s: System) {
    exists steps :: After(setup, faults, steps) == Some(s)
  }

  // ----- status writes

  /** The status the next call of a handler writes, if it writes one. */
  function ApiTarget(api: ApiPc): Option<ScanStatus> {
    if api.WriteQueued? then Some(Queued) else None
  }

  function IngestTarget(pc: IngestPc): Option<ScanStatus> {
    match pc
    case StartedStatus => Some(Collecting)
    case FailedStatus => Some(Failed)
    case CollectedStatus(_) => Some(Collected)
    case IngestingStatus(_) => Some(Ingesting)
    case ReadyStatus(_) => Some(InventoryReady)
    case IngestFailed => Some(Failed)
    case _ => None
  }

  function PolicyTarget(pc: PolicyPc): Option<ScanStatus> {
    match pc
    case EvaluatingStatus(_) => Some(Evaluating)
    case FinalStatus(status) => Some(status)
    case FailStatus(_) => Some(Failed)
    case _ => None
  }

  predicate Follows(current: ScanStatus, target: Option<ScanStatus>) {
    target.Some? ==> Allowed(current, target.value)
  }
}
