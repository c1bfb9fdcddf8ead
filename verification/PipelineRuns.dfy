/** Runs that break the transition table: each of the three assumptions is needed. */
module PipelineRuns {
  import opened Wrappers
  import opened ScanLifecycle
  import opened ComplianceMapping
  import opened Findings
  import opened PipelineModel
  import opened PipelineViews
  import opened PipelineSafety

  const OK: Call := Call(Ok, 0)
  const LOST: Call := Call(RaiseBefore, 0)
  const UNANSWERED: Call := Call(RaiseAfter, 0)

  const REPORT: Report := Report("completed", [])

  lemma PushFirst<T>(scan: ScanId, body: T)
    ensures Push([], scan, body) == [Message(scan, body)]
  {
  }

  ghost predicate Leads(setup: Setup, faults: Faults, steps: seq<Step>, s: System) {
    After(setup, faults, steps) == Some(s)
  }

  lemma Extend(setup: Setup, faults: Faults, steps: seq<Step>, s: System, step: Step) returns (longer: seq<Step>)
    requires Leads(setup, faults, steps, s) && Enabled(faults, s, step)
    ensures Leads(setup, faults, longer, Apply(setup, faults, s, step))
  {
    longer := steps + [step];
    assert longer[..|steps|] == steps;
  }

  /** Scan 0 has one cell, no queued job and no queued evaluation. */
  function Single(cell: Cell, collector: CollectorPc, collecting: bool, events: seq<Message<EventBody>>,
                  ingest: IngestPc): System {
    System(map[0 := Scan(cell, ApiDone, collector, collecting, false)], [], events, [], 0, ingest, 0, PolicyIdle)
  }

  function QueuedCell(): Cell {
    NewCell("", "").(status := Queued, startedAt := Some(0))
  }

  /** Scan 0 before its collection starts. */
  function Early(scan: Scan, jobs: seq<Message<()>>): System {
    System(map[0 := scan], jobs, [], [], 0, IngestIdle, 0, PolicyIdle)
  }

  lemma StepCreate(setup: Setup, faults: Faults)
    ensures Apply(setup, faults, INIT, CreateScan(0, "", "")) == Early(Scan(NewCell("", ""), WriteQueued, NoJob, false, false), [])
  {
  }

  lemma StepQueue(setup: Setup, faults: Faults)
    ensures var s := Early(Scan(NewCell("", ""), WriteQueued, NoJob, false, false), []);
            Apply(setup, faults, s, StepApi(0, OK)) == Early(Scan(QueuedCell(), PushJob, NoJob, false, false), [])
  {
    assert ApiCell(NewCell("", ""), WriteQueued, OK) == QueuedCell();
  }

  lemma StepPush(setup: Setup, faults: Faults, cell: Cell)
    ensures var s := Early(Scan(cell, PushJob, NoJob, false, false), []);
            Apply(setup, faults, s, StepApi(0, OK)) == Early(Scan(cell, ApiDone, NoJob, false, false), [Message(0, ())])
  {
    PushFirst(0, ());
  }

  lemma StepTake(setup: Setup, faults: Faults, cell: Cell)
    ensures var s := Early(Scan(cell, ApiDone, NoJob, false, false), [Message(0, ())]);
            Apply(setup, faults, s, TakeJob) == Early(Scan(cell, ApiDone, HasJob, false, false), [])
  {
  }

  lemma StepAnnounce(setup: Setup, faults: Faults, cell: Cell)
    ensures var s := Early(Scan(cell, ApiDone, HasJob, false, false), []);
            Apply(setup, faults, s, Announce(0, true))
            == Single(cell, Announced, false, [Message(0, CollectionStarted(true))], IngestIdle)
  {
    PushFirst(0, CollectionStarted(true));
  }

  lemma RunToAnnounced(setup: Setup, faults: Faults) returns (steps: seq<Step>)
    ensures Leads(setup, faults, steps,
                  Single(QueuedCell(), Announced, false, [Message(0, CollectionStarted(true))], IngestIdle))
  {
    StepCreate(setup, faults);
    steps := Extend(setup, faults, [], INIT, CreateScan(0, "", ""));
    StepQueue(setup, faults);
    steps := Extend(setup, faults, steps, Early(Scan(NewCell("", ""), WriteQueued, NoJob, false, false), []), StepApi(0, OK));
    StepPush(setup, faults, QueuedCell());
    steps := Extend(setup, faults, steps, Early(Scan(QueuedCell(), PushJob, NoJob, false, false), []), StepApi(0, OK));
    StepTake(setup, faults, QueuedCell());
    steps := Extend(setup, faults, steps, Early(Scan(QueuedCell(), ApiDone, NoJob, false, false), [Message(0, ())]), TakeJob);
    StepAnnounce(setup, faults, QueuedCell());
    steps := Extend(setup, faults, steps, Early(Scan(QueuedCell(), ApiDone, HasJob, false, false), []), Announce(0, true));
  }

  lemma StepOfIngest(setup: Setup, faults: Faults, cell: Cell, collector: CollectorPc, collecting: bool, pc: IngestPc, call: Call)
    requires !pc.IngestIdle? && !pc.Publish? && IngestMay(faults, pc, call)
    ensures Apply(setup, faults, Single(cell, collector, collecting, [], pc), StepIngest(call)) ==
            Single(IngestCell(cell, pc, call), collector, collecting || (pc.StartedStatus? && Took(call)), [], IngestNext(cell, pc, call))
  {
  }

  lemma RunIngest(setup: Setup, faults: Faults, steps: seq<Step>, cell: Cell, collector: CollectorPc,
                  collecting: bool, pc: IngestPc, call: Call)
    returns (longer: seq<Step>)
    requires Leads(setup, faults, steps, Single(cell, collector, collecting, [], pc))
    requires !pc.IngestIdle? && !pc.Publish? && IngestMay(faults, pc, call)
    ensures Leads(setup, faults, longer,
                  Single(IngestCell(cell, pc, call), collector, collecting || (pc.StartedStatus? && Took(call)), [],
                         IngestNext(cell, pc, call)))
  {
    StepOfIngest(setup, faults, cell, collector, collecting, pc, call);
    longer := Extend(setup, faults, steps, Single(cell, collector, collecting, [], pc), StepIngest(call));
  }

  lemma RunPopEvent(setup: Setup, faults: Faults, steps: seq<Step>, cell: Cell, collector: CollectorPc,
                    collecting: bool, body: EventBody)
    returns (longer: seq<Step>)
    requires Leads(setup, faults, steps, Single(cell, collector, collecting, [Message(0, body)], IngestIdle))
    ensures Leads(setup, faults, longer, Single(cell, collector, collecting, [], LogEvent(body)))
  {
    longer := Extend(setup, faults, steps, Single(cell, collector, collecting, [Message(0, body)], IngestIdle), PopEvent);
  }

  lemma StepReport(setup: Setup, faults: Faults, cell: Cell, collecting: bool, body: EventBody)
    requires !body.CollectionStarted?
    ensures Apply(setup, faults, Single(cell, Announced, collecting, [], IngestIdle), SendReport(0, body)) ==
            Single(cell, Reported(body), collecting, [Message(0, body)], IngestIdle)
  {
    PushFirst(0, body);
  }

  lemma RunReport(setup: Setup, faults: Faults, steps: seq<Step>, cell: Cell, collecting: bool) returns (longer: seq<Step>)
    requires Leads(setup, faults, steps, Single(cell, Announced, collecting, [], IngestIdle))
    ensures Leads(setup, faults, longer,
                  Single(cell, Reported(CollectionCompleted(Some(REPORT))), collecting, [],
                         LogEvent(CollectionCompleted(Some(REPORT)))))
  {
    var body := CollectionCompleted(Some(REPORT));
    StepReport(setup, faults, cell, collecting, body);
    longer := Extend(setup, faults, steps, Single(cell, Announced, collecting, [], IngestIdle), SendReport(0, body));
    longer := RunPopEvent(setup, faults, longer, cell, Reported(body), collecting, body);
  }

  ghost predicate BadRun(setup: Setup, faults: Faults, steps: seq<Step>) {
    After(setup, faults, steps).Some? && !Lawful(After(setup, faults, steps).value)
  }

  lemma UnlawfulCollected(cell: Cell)
    requires cell.status == Queued
    ensures !Lawful(Single(cell, Reported(CollectionCompleted(Some(REPORT))), false, [], CollectedStatus(REPORT)))
  {
    var s := Single(cell, Reported(CollectionCompleted(Some(REPORT))), false, [], CollectedStatus(REPORT));
    assert 0 in s.scans && !WritesFollow(ViewOf(s, 0));
  }

  /** The log insert of collection.started raises; collection.completed then finds the scan QUEUED. */
  lemma LostStartRun(setup: Setup, faults: Faults) returns (steps: seq<Step>)
    requires faults.startLost
    ensures BadRun(setup, faults, steps)
  {
    steps := RunToAnnounced(setup, faults);
    steps := RunPopEvent(setup, faults, steps, QueuedCell(), Announced, false, CollectionStarted(true));
    steps := RunIngest(setup, faults, steps, QueuedCell(), Announced, false, LogEvent(CollectionStarted(true)), LOST);
    steps := RunReport(setup, faults, steps, QueuedCell(), false);
    steps := RunIngest(setup, faults, steps, QueuedCell(), Reported(CollectionCompleted(Some(REPORT))), false,
                       LogEvent(CollectionCompleted(Some(REPORT))), OK);
    UnlawfulCollected(QueuedCell());
  }

  function ReadyCell(): Cell {
    QueuedCell().(status := InventoryReady, runStatus := "completed")
  }

  lemma RunToCollecting(setup: Setup, faults: Faults) returns (steps: seq<Step>)
    ensures Leads(setup, faults, steps,
                  Single(QueuedCell().(status := Collecting, runStatus := "running"), Announced, true, [], IngestIdle))
  {
    var collecting := QueuedCell().(status := Collecting);
    steps := RunToAnnounced(setup, faults);
    steps := RunPopEvent(setup, faults, steps, QueuedCell(), Announced, false, CollectionStarted(true));
    steps := RunIngest(setup, faults, steps, QueuedCell(), Announced, false, LogEvent(CollectionStarted(true)), OK);
    steps := RunIngest(setup, faults, steps, QueuedCell(), Announced, false, StartedStatus, OK);
    steps := RunIngest(setup, faults, steps, collecting, Announced, true, StartedRun, OK);
  }

  function Done(): CollectorPc {
    Reported(CollectionCompleted(Some(REPORT)))
  }

  lemma RunToCollected(setup: Setup, faults: Faults) returns (steps: seq<Step>)
    ensures Leads(setup, faults, steps, Single(ReadyCell().(status := Collected), Done(), true, [], CompletedMark(REPORT)))
  {
    var running := QueuedCell().(status := Collecting, runStatus := "running");
    steps := RunToCollecting(setup, faults);
    steps := RunReport(setup, faults, steps, running, true);
    steps := RunIngest(setup, faults, steps, running, Done(), true, LogEvent(CollectionCompleted(Some(REPORT))), OK);
    steps := RunIngest(setup, faults, steps, running, Done(), true, CollectedStatus(REPORT), OK);
    steps := RunIngest(setup, faults, steps, running.(status := Collected), Done(), true, ReportedRun(REPORT), OK);
  }

  lemma RunToIngesting(setup: Setup, faults: Faults) returns (steps: seq<Step>)
    ensures Leads(setup, faults, steps, Single(ReadyCell().(status := Ingesting), Done(), true, [], ReadFiles(REPORT)))
  {
    var collected := ReadyCell().(status := Collected);
    steps := RunToCollected(setup, faults);
    steps := RunIngest(setup, faults, steps, collected, Done(), true, CompletedMark(REPORT), OK);
    steps := RunIngest(setup, faults, steps, collected, Done(), true, IngestingStatus(REPORT), OK);
  }

  /** There is nothing to insert. */
  lemma EmptyReport(cell: Cell)
    ensures IngestNext(cell, LoadRun(REPORT), OK) == ReadyStatus(REPORT)
  {
  }

  lemma RunToLoad(setup: Setup, faults: Faults) returns (steps: seq<Step>)
    ensures Leads(setup, faults, steps, Single(ReadyCell().(status := Ingesting), Done(), true, [], LoadRun(REPORT)))
  {
    steps := RunToIngesting(setup, faults);
    steps := RunIngest(setup, faults, steps, ReadyCell().(status := Ingesting), Done(), true, ReadFiles(REPORT), OK);
  }

  lemma RunToStored(setup: Setup, faults: Faults) returns (steps: seq<Step>)
    ensures Leads(setup, faults, steps, Single(ReadyCell().(status := Ingesting), Done(), true, [], ReadyStatus(REPORT)))
  {
    var ingesting := ReadyCell().(status := Ingesting);
    steps := RunToLoad(setup, faults);
    EmptyReport(ingesting);
    steps := RunIngest(setup, faults, steps, ingesting, Done(), true, LoadRun(REPORT), OK);
  }

  lemma RunToReady(setup: Setup, faults: Faults) returns (steps: seq<Step>)
    ensures Leads(setup, faults, steps, Single(ReadyCell(), Done(), true, [], CountRows(REPORT)))
  {
    var ingesting := ReadyCell().(status := Ingesting);
    steps := RunToStored(setup, faults);
    steps := RunIngest(setup, faults, steps, ingesting, Done(), true, ReadyStatus(REPORT), OK);
  }

  lemma RunToPublish(setup: Setup, faults: Faults) returns (steps: seq<Step>)
    ensures Leads(setup, faults, steps, Single(ReadyCell(), Done(), true, [], Publish(REPORT)))
  {
    steps := RunToReady(setup, faults);
    steps := RunIngest(setup, faults, steps, ReadyCell(), Done(), true, CountRows(REPORT), OK);
    steps := RunIngest(setup, faults, steps, ReadyCell(), Done(), true, LogUpdated(REPORT), OK);
  }

  /** Scan 0 after its hand-over, with the policy worker at a program point. */
  function Handed(cell: Cell, evaluates: seq<Message<string>>, ingest: IngestPc, policy: PolicyPc): System {
    System(map[0 := Scan(cell, ApiDone, Done(), true, true)], [], [], evaluates, 0, ingest, 0, policy)
  }

  lemma StepOfPolicy(setup: Setup, faults: Faults, cell: Cell, ingest: IngestPc, pc: PolicyPc, call: Call)
    requires !pc.PolicyIdle? && PolicyMay(faults, pc, call)
    ensures Apply(setup, faults, Handed(cell, [], ingest, pc), StepPolicy(call)) ==
            Handed(PolicyCell(setup, cell, pc, call), [], ingest, PolicyNext(setup, cell, pc, call))
  {
  }

  lemma RunPolicy(setup: Setup, faults: Faults, steps: seq<Step>, cell: Cell, ingest: IngestPc, pc: PolicyPc, call: Call)
    returns (longer: seq<Step>)
    requires Leads(setup, faults, steps, Handed(cell, [], ingest, pc))
    requires !pc.PolicyIdle? && PolicyMay(faults, pc, call)
    ensures Leads(setup, faults, longer, Handed(PolicyCell(setup, cell, pc, call), [], ingest, PolicyNext(setup, cell, pc, call)))
  {
    StepOfPolicy(setup, faults, cell, ingest, pc, call);
    longer := Extend(setup, faults, steps, Handed(cell, [], ingest, pc), StepPolicy(call));
  }

  lemma StepPublish(setup: Setup, faults: Faults, cell: Cell, call: Call)
    requires call == OK || (call == UNANSWERED && faults.phantomPublish)
    ensures Apply(setup, faults, Single(cell, Done(), true, [], Publish(REPORT)), StepIngest(call)) ==
            Handed(cell, [Message(0, "completed")], if call == OK then IngestIdle else IngestFailed, PolicyIdle)
  {
    PushFirst(0, "completed");
  }

  lemma RunToEvaluatingStatus(setup: Setup, faults: Faults, call: Call) returns (steps: seq<Step>)
    requires call == OK || (call == UNANSWERED && faults.phantomPublish)
    ensures Leads(setup, faults, steps,
                  Handed(ReadyCell(), [], if call == OK then IngestIdle else IngestFailed, EvaluatingStatus("completed")))
  {
    var ingest := if call == OK then IngestIdle else IngestFailed;
    steps := RunToPublish(setup, faults);
    StepPublish(setup, faults, ReadyCell(), call);
    steps := Extend(setup, faults, steps, Single(ReadyCell(), Done(), true, [], Publish(REPORT)), StepIngest(call));
    steps := Extend(setup, faults, steps, Handed(ReadyCell(), [Message(0, "completed")], ingest, PolicyIdle), PopEvaluate);
    assert PolicyNext(setup, ReadyCell(), LogRequest("completed"), OK) == LoadScan("completed");
    steps := RunPolicy(setup, faults, steps, ReadyCell(), ingest, LogRequest("completed"), OK);
    assert PolicyNext(setup, ReadyCell(), LoadScan("completed"), OK) == EvaluatingStatus("completed");
    steps := RunPolicy(setup, faults, steps, ReadyCell(), ingest, LoadScan("completed"), OK);
  }

  lemma FailedTooEarly(setup: Setup, faults: Faults)
    ensures !Lawful(Apply(setup, faults, Handed(ReadyCell(), [], IngestFailed, EvaluatingStatus("completed")), StepIngest(OK)))
  {
    var s := Apply(setup, faults, Handed(ReadyCell(), [], IngestFailed, EvaluatingStatus("completed")), StepIngest(OK));
    var v := ViewOf(s, 0);
    assert v.policy == EvaluatingStatus("completed") && v.scan.cell.status == Failed && !WritesFollow(v);
  }

  /** The publish was enqueued but its reply lost: the ingest worker marks the scan FAILED while the
      policy worker is about to mark it EVALUATING. */
  lemma PhantomPublishRun(setup: Setup, faults: Faults) returns (steps: seq<Step>)
    requires faults.phantomPublish
    ensures BadRun(setup, faults, steps)
  {
    steps := RunToEvaluatingStatus(setup, faults, UNANSWERED);
    var s := Handed(ReadyCell(), [], IngestFailed, EvaluatingStatus("completed"));
    steps := Extend(setup, faults, steps, s, StepIngest(OK));
    FailedTooEarly(setup, faults);
  }

  /** Every finding is upserted and every compliance row written, however many there are. */
  lemma {:induction false} RunUpserts(setup: Setup, faults: Faults, steps: seq<Step>, cell: Cell, drafts: seq<Draft>, i: nat)
    returns (longer: seq<Step>, after: Cell)
    requires i <= |drafts|
    requires Leads(setup, faults, steps, Handed(cell, [], IngestIdle, UpsertFrom("completed", drafts, i)))
    ensures Leads(setup, faults, longer, Handed(after, [], IngestIdle, CompleteEvaluation("completed", drafts)))
    ensures after.status == cell.status && after.runStatus == cell.runStatus
    decreases |drafts| - i
  {
    if i == |drafts| {
      longer, after := steps, cell;
    } else {
      var pc := UpsertFinding("completed", drafts, i);
      var upserted := cell.(findings := Upsert(cell.findings, drafts[i]));
      assert PolicyCell(setup, cell, pc, OK) == upserted;
      assert PolicyNext(setup, cell, pc, OK) == UpsertFrom("completed", drafts, i + 1);
      longer := RunPolicy(setup, faults, steps, cell, IngestIdle, pc, OK);
      longer, after := RunUpserts(setup, faults, longer, upserted, drafts, i + 1);
    }
  }

  lemma {:induction false} RunWrites(setup: Setup, faults: Faults, steps: seq<Step>, cell: Cell,
                                     writes: seq<ComplianceWrite>, i: nat)
    returns (longer: seq<Step>, after: Cell)
    requires i <= |writes| && CUSTOMER_PRIMARY_FRAMEWORK in setup.catalog
    requires Leads(setup, faults, steps, Handed(cell, [], IngestIdle, WriteFrom(setup, "completed", writes, i)))
    ensures Leads(setup, faults, longer, Handed(after, [], IngestIdle, LoadCollectionRun("completed")))
    ensures after.status == cell.status && after.runStatus == cell.runStatus
    decreases |writes| - i
  {
    if i == |writes| {
      longer, after := steps, cell;
    } else {
      var pc := WriteCompliance("completed", writes, i);
      var written := cell.(tables := Write(cell.tables, writes[i]));
      assert PolicyCell(setup, cell, pc, OK) == written;
      assert PolicyNext(setup, cell, pc, OK) == WriteFrom(setup, "completed", writes, i + 1);
      longer := RunPolicy(setup, faults, steps, cell, IngestIdle, pc, OK);
      longer, after := RunWrites(setup, faults, longer, written, writes, i + 1);
    }
  }

  lemma RunToUpserts(setup: Setup, faults: Faults) returns (steps: seq<Step>, cell: Cell)
    ensures Leads(setup, faults, steps, Handed(cell, [], IngestIdle, UpsertFrom("completed", DraftsFor(setup, map[], map[]), 0)))
    ensures cell.status == Evaluating && cell.runStatus == "completed"
  {
    steps := RunToEvaluatingStatus(setup, faults, OK);
    steps := RunPolicy(setup, faults, steps, ReadyCell(), IngestIdle, EvaluatingStatus("completed"), OK);
    cell := ReadyCell().(status := Evaluating);
    steps := RunPolicy(setup, faults, steps, cell, IngestIdle, StartEvaluation("completed"), OK);
    cell := cell.(evaluation := Some(STARTED_EVALUATION));
    steps := RunPolicy(setup, faults, steps, cell, IngestIdle, ListAssets("completed"), OK);
  }

  lemma RunToCount(setup: Setup, faults: Faults) returns (steps: seq<Step>, cell: Cell)
    ensures Leads(setup, faults, steps, Handed(cell, [], IngestIdle, CompleteEvaluation("completed", DraftsFor(setup, map[], map[]))))
    ensures cell.status == Evaluating && cell.runStatus == "completed"
  {
    steps, cell := RunToUpserts(setup, faults);
    steps, cell := RunUpserts(setup, faults, steps, cell, DraftsFor(setup, map[], map[]), 0);
  }

  lemma RunToWrites(setup: Setup, faults: Faults) returns (steps: seq<Step>, cell: Cell)
    ensures Leads(setup, faults, steps,
                  Handed(cell, [], IngestIdle,
                         WriteFrom(setup, "completed", WritesFor(setup.catalog, setup.findingOrder(cell.findings.rows)), 0)))
    ensures cell.status == Evaluating && cell.runStatus == "completed"
  {
    steps, cell := RunToRead(setup, faults);
    steps := RunPolicy(setup, faults, steps, cell, IngestIdle, ReadFindings("completed"), OK);
  }

  lemma RunToRead(setup: Setup, faults: Faults) returns (steps: seq<Step>, cell: Cell)
    ensures Leads(setup, faults, steps, Handed(cell, [], IngestIdle, ReadFindings("completed")))
    ensures cell.status == Evaluating && cell.runStatus == "completed"
  {
    var drafts := DraftsFor(setup, map[], map[]);
    steps, cell := RunToCount(setup, faults);
    var counted := PolicyCell(setup, cell, CompleteEvaluation("completed", drafts), OK);
    assert counted.status == cell.status && counted.runStatus == cell.runStatus;
    assert PolicyNext(setup, cell, CompleteEvaluation("completed", drafts), OK) == ReadFindings("completed");
    steps := RunPolicy(setup, faults, steps, cell, IngestIdle, CompleteEvaluation("completed", drafts), OK);
    cell := counted;
  }

  lemma RunToFinalStatus(setup: Setup, faults: Faults) returns (steps: seq<Step>, cell: Cell)
    requires CUSTOMER_PRIMARY_FRAMEWORK in setup.catalog
    ensures Leads(setup, faults, steps, Handed(cell, [], IngestIdle, FinalStatus(Completed)))
    ensures cell.status == Evaluating
  {
    steps, cell := RunToWrites(setup, faults);
    steps, cell := RunWrites(setup, faults, steps, cell, WritesFor(setup.catalog, setup.findingOrder(cell.findings.rows)), 0);
    steps := RunPolicy(setup, faults, steps, cell, IngestIdle, LoadCollectionRun("completed"), OK);
  }

  lemma RunToUnwinding(setup: Setup, faults: Faults) returns (steps: seq<Step>, cell: Cell)
    requires faults.lateRaise && CUSTOMER_PRIMARY_FRAMEWORK in setup.catalog
    ensures Leads(setup, faults, steps, Handed(cell, [], IngestIdle, FailEvaluation(Some(Completed))))
    ensures cell.status == Completed
  {
    steps, cell := RunToFinalStatus(setup, faults);
    steps := RunPolicy(setup, faults, steps, cell, IngestIdle, FinalStatus(Completed), UNANSWERED);
    cell := PolicyCell(setup, cell, FinalStatus(Completed), UNANSWERED);
  }

  lemma UnlawfulFailure(cell: Cell)
    requires cell.status == Completed
    ensures !Lawful(Handed(cell, [], IngestIdle, FailStatus(Some(Completed))))
  {
    var s := Handed(cell, [], IngestIdle, FailStatus(Some(Completed)));
    assert 0 in s.scans && !WritesFollow(ViewOf(s, 0));
  }

  /** The COMPLETED write took effect but its reply was lost: the except path writes FAILED over it. */
  lemma LateRaiseRun(setup: Setup, faults: Faults) returns (steps: seq<Step>)
    requires faults.lateRaise && CUSTOMER_PRIMARY_FRAMEWORK in setup.catalog
    ensures BadRun(setup, faults, steps)
  {
    var cell;
    steps, cell := RunToUnwinding(setup, faults);
    steps := RunPolicy(setup, faults, steps, cell, IngestIdle, FailEvaluation(Some(Completed)), OK);
    UnlawfulFailure(PolicyCell(setup, cell, FailEvaluation(Some(Completed)), OK));
  }

  ghost predicate AllRunsLawful(setup: Setup, faults: Faults) {
    forall steps: seq<Step> | After(setup, faults, steps).Some? :: Lawful(After(setup, faults, steps).value)
  }

  /** The policy worker has stored no final status yet. */
  predicate BeforeFinal(pc: PolicyPc) {
    match pc
    case LoadCollectionRun(_) => false
    case FinalStatus(_) => false
    case LogPolicyCompleted(_) => false
    case LogComplianceUpdated(_) => false
    case LogScanCompleted(_) => false
    case FailEvaluation(after) => after.None?
    case FailStatus(after) => after.None?
    case _ => true
  }

  lemma StaysBeforeFinal(setup: Setup, cell: Cell, pc: PolicyPc, call: Call)
    requires CUSTOMER_PRIMARY_FRAMEWORK !in setup.catalog && BeforeFinal(pc)
    ensures BeforeFinal(PolicyNext(setup, cell, pc, call))
  {
  }

  /** Without the primary framework every evaluation fails before its final status. */
  lemma {:induction false} NoFinalStatus(setup: Setup, faults: Faults, steps: seq<Step>)
    requires CUSTOMER_PRIMARY_FRAMEWORK !in setup.catalog && After(setup, faults, steps).Some?
    ensures BeforeFinal(After(setup, faults, steps).value.policyPc)
  {
    if steps != [] {
      var init, step := steps[..|steps| - 1], steps[|steps| - 1];
      NoFinalStatus(setup, faults, init);
      if step.StepPolicy? {
        var s := After(setup, faults, init).value;
        StaysBeforeFinal(setup, s.scans[s.policyScan].cell, s.policyPc, step.call);
      }
    }
  }

  /** Whether a late exception can happen at all and may. */
  predicate MayRaiseLate(setup: Setup, faults: Faults) {
    faults.lateRaise && CUSTOMER_PRIMARY_FRAMEWORK in setup.catalog
  }

  lemma LawfulRun(setup: Setup, faults: Faults, steps: seq<Step>)
    requires !faults.startLost && !MayRaiseLate(setup, faults) && !faults.phantomPublish
    requires After(setup, faults, steps).Some?
    ensures Lawful(After(setup, faults, steps).value)
  {
    var s := After(setup, faults, steps).value;
    if faults.lateRaise {
      RunsStayStaged(setup, faults, steps);
      NoFinalStatus(setup, faults, steps);
      forall id | id in s.scans ensures WritesFollow(ViewOf(s, id)) {
        StagedWrites(faults, ViewOf(s, id));
      }
    } else {
      EveryWriteFollows(setup, faults, steps);
    }
  }

  /** The three assumptions are exactly what the transition table needs: if one of them may be
      broken some run is about to write a status the table forbids, and otherwise none is,
      redelivered messages or not. Only without the primary framework, when no evaluation gets as
      far as a final status, are late exceptions harmless. */
  lemma AssumptionsAreExact(setup: Setup, faults: Faults)
    ensures AllRunsLawful(setup, faults) <==>
            !faults.startLost && !MayRaiseLate(setup, faults) && !faults.phantomPublish
  {
    if faults.startLost {
      var steps := LostStartRun(setup, faults);
      assert BadRun(setup, faults, steps);
    } else if faults.phantomPublish {
      var steps := PhantomPublishRun(setup, faults);
      assert BadRun(setup, faults, steps);
    } else if MayRaiseLate(setup, faults) {
      var steps := LateRaiseRun(setup, faults);
      assert BadRun(setup, faults, steps);
    } else {
      forall steps: seq<Step> | After(setup, faults, steps).Some? ensures Lawful(After(setup, faults, steps).value) {
        LawfulRun(setup, faults, steps);
      }
    }
  }
}
