/** Which status writes of the pipeline follow the transition table. */
module PipelineSafety {
  import opened Wrappers
  import opened ScanLifecycle
  import opened PipelineModel
  import opened PipelineViews

  // ----- the invariant of one scan's view

  /** The status the collection.started handler leaves behind. */
  function Base(v: View): ScanStatus {
    if v.scan.collecting then Collecting else Queued
  }

  predicate NoEvaluation(v: View) {
    v.evaluates == [] && v.policy.PolicyIdle? && !v.scan.published
  }

  /** Neither worker has heard of the scan. */
  predicate Quiet(v: View) {
    v.events == [] && v.ingest.IngestIdle? && NoEvaluation(v) && !v.scan.collecting
  }

  /** The handler of collection.started: its message still queued, its points, or finished. */
  predicate Starting(faults: Faults, v: View, queued: seq<EventBody>) {
    if queued != [] then
      |queued| == 1 && queued[0].CollectionStarted? && (queued[0].wellFormed || faults.startLost)
      && v.ingest.IngestIdle? && v.scan.cell.status == Queued && !v.scan.collecting
    else match v.ingest
      case IngestIdle => v.scan.cell.status == Base(v) && (v.scan.collecting || faults.startLost)
      case LogEvent(body) =>
        body.CollectionStarted? && (body.wellFormed || faults.startLost) && v.scan.cell.status == Queued && !v.scan.collecting
      case StartedStatus => v.scan.cell.status == Queued && !v.scan.collecting
      case StartedRun => v.scan.cell.status == Collecting && v.scan.collecting
      case _ => false
  }

  predicate Completing(body: EventBody, report: Report) {
    body == CollectionCompleted(Some(report))
  }

  /** The handler of the terminal collection event. */
  predicate Handling(v: View, body: EventBody) {
    var status := v.scan.cell.status;
    match v.ingest
    case IngestIdle => status !in {Evaluating, Completed, CompletedWithErrors}
    case LogEvent(logged) => logged == body && status == Base(v)
    case FailedStatus => body.CollectionFailed? && status == Base(v)
    case FailedRun => body.CollectionFailed? && status == Failed
    case FailedMark => body.CollectionFailed? && status == Failed
    case FailedLog => body.CollectionFailed? && status == Failed
    case CollectedStatus(report) => Completing(body, report) && status == Base(v)
    case ReportedRun(report) => Completing(body, report) && status == Collected
    case CompletedMark(report) => Completing(body, report) && status == Collected
    case IngestingStatus(report) => Completing(body, report) && status == Collected
    case ReadFiles(report) => Completing(body, report) && status == Ingesting
    case LoadRun(report) => Completing(body, report) && status == Ingesting
    case InsertResource(report, _, _) => Completing(body, report) && status == Ingesting
    case InsertEdge(report, _, _) => Completing(body, report) && status == Ingesting
    case ReadyStatus(report) => Completing(body, report) && status == Ingesting
    case CountRows(report) => Completing(body, report) && status == InventoryReady
    case LogUpdated(report) => Completing(body, report) && status == InventoryReady
    case Publish(report) => Completing(body, report) && status == InventoryReady
    case IngestFailed => status in {Base(v), Collected, Ingesting, InventoryReady}
    case StartedStatus => false
    case StartedRun => false
  }

  /** The policy worker, once the scan was handed over. */
  predicate Evaluation(faults: Faults, v: View) {
    var status := v.scan.cell.status;
    match v.policy
    case PolicyIdle => Settled(status)
    case LogRequest(_) => Settled(status)
    case LoadScan(_) => Settled(status)
    case EvaluatingStatus(_) => Evaluable(status)
    case StartEvaluation(_) => status == Evaluating
    case ListAssets(_) => status == Evaluating
    case UpsertFinding(_, _, _) => status == Evaluating
    case CompleteEvaluation(_, _) => status == Evaluating
    case ReadFindings(_) => status == Evaluating
    case WriteCompliance(_, _, _) => status == Evaluating
    case LoadCollectionRun(_) => status == Evaluating
    case FinalStatus(final) => status == Evaluating && Finals(final)
    case LogPolicyCompleted(final) => status == final && Finals(final)
    case LogComplianceUpdated(final) => status == final && Finals(final)
    case LogScanCompleted(final) => status == final && Finals(final)
    case FailEvaluation(after) => Unwinding(faults, status, after)
    case FailStatus(after) => Unwinding(faults, status, after)
    case LogFailure => status == Failed
  }

  predicate Settled(status: ScanStatus) {
    status in {InventoryReady, Evaluating, Completed, CompletedWithErrors, Failed}
  }

  predicate Finals(final: ScanStatus) {
    final in {Completed, CompletedWithErrors}
  }

  predicate Unwinding(faults: Faults, status: ScanStatus, after: Option<ScanStatus>) {
    match after
    case None => status == Evaluating
    case Some(final) => faults.lateRaise && status == final && Finals(final)
  }

  /** Where the scan is: its creation, its collection, its ingest and its evaluation. */
  predicate Staged(faults: Faults, v: View) {
    match v.scan.collector
    case NoJob =>
      && Quiet(v) && |v.jobs| <= 1 && v.scan.cell.status in {Created, Queued}
      && (v.scan.api.WriteQueued? ==> v.scan.cell.status == Created && v.jobs == [])
      && (v.scan.api.PushJob? ==> v.scan.cell.status == Queued && v.jobs == [])
      && (v.jobs != [] ==> v.scan.cell.status == Queued)
    case HasJob => v.scan.api.ApiDone? && v.jobs == [] && Quiet(v) && v.scan.cell.status == Queued
    case Announced => v.scan.api.ApiDone? && v.jobs == [] && NoEvaluation(v) && Starting(faults, v, v.events)
    case Reported(body) =>
      && v.scan.api.ApiDone? && v.jobs == [] && !body.CollectionStarted?
      && (v.scan.collecting || v.events != [] || faults.startLost || v.ingest.StartedStatus?)
      && if v.events != [] then v.events[0] == body && NoEvaluation(v) && Starting(faults, v, v.events[1..])
         else if !v.scan.published then NoEvaluation(v) && Handling(v, body)
         else v.ingest.IngestIdle? && HasReport(v.scan.collector) && Evaluation(faults, v)
  }

  // ----- every step keeps it

  lemma NewIsStaged(faults: Faults, v: View)
    requires NewView(v)
    ensures Staged(faults, v)
  {
  }

  lemma ApiKeepsStaged(faults: Faults, v: View, call: Call)
    requires Staged(faults, v) && !v.scan.api.ApiDone?
    ensures Staged(faults, ViewApi(v, call))
  {
  }

  lemma TakeJobKeepsStaged(faults: Faults, v: View)
    requires Staged(faults, v) && v.jobs != []
    ensures Staged(faults, ViewTakeJob(v))
  {
  }

  lemma AnnounceKeepsStaged(faults: Faults, v: View, wellFormed: bool)
    requires Staged(faults, v) && v.scan.collector.HasJob? && (wellFormed || faults.startLost)
    ensures Staged(faults, ViewAnnounce(v, wellFormed))
  {
  }

  lemma ReportKeepsStaged(faults: Faults, v: View, body: EventBody)
    requires Staged(faults, v) && v.scan.collector.Announced? && !body.CollectionStarted?
    ensures Staged(faults, ViewReport(v, body))
  {
    assert ViewReport(v, body).events[1..] == v.events;
  }

  lemma PopEventKeepsStaged(faults: Faults, v: View)
    requires Staged(faults, v) && v.ingest.IngestIdle? && v.events != []
    ensures Staged(faults, ViewPopEvent(v))
  {
  }

  lemma IngestKeepsStarting(faults: Faults, v: View, call: Call, queued: seq<EventBody>)
    requires Starting(faults, v, queued) && !v.ingest.IngestIdle? && IngestMay(faults, v.ingest, call)
    ensures Starting(faults, ViewIngest(v, call), queued)
    ensures !Publishes(v.ingest, call)
  {
  }

  lemma IngestKeepsHandling(faults: Faults, v: View, call: Call, body: EventBody)
    requires !faults.phantomPublish && !v.ingest.IngestIdle? && IngestMay(faults, v.ingest, call)
    requires Handling(v, body) && !body.CollectionStarted?
    ensures var w := ViewIngest(v, call);
            && (!Publishes(v.ingest, call) ==> Handling(w, body))
            && (Publishes(v.ingest, call) ==>
                  w.ingest.IngestIdle? && w.scan.cell.status == InventoryReady && body.CollectionCompleted? && body.report.Some?)
  {
  }

  lemma IngestKeepsStaged(faults: Faults, v: View, call: Call)
    requires !faults.phantomPublish
    requires Staged(faults, v) && !v.ingest.IngestIdle? && IngestMay(faults, v.ingest, call)
    ensures Staged(faults, ViewIngest(v, call))
  {
    var collector := v.scan.collector;
    if collector.Announced? {
      IngestKeepsStarting(faults, v, call, v.events);
    } else if collector.Reported? {
      if v.events != [] {
        IngestKeepsStarting(faults, v, call, v.events[1..]);
      } else if !v.scan.published {
        IngestKeepsHandling(faults, v, call, collector.body);
      }
    }
  }

  lemma PopEvaluateKeepsStaged(faults: Faults, v: View)
    requires Staged(faults, v) && v.policy.PolicyIdle? && v.evaluates != []
    ensures Staged(faults, ViewPopEvaluate(v))
  {
  }

  lemma PolicyKeepsEvaluation(setup: Setup, faults: Faults, v: View, call: Call)
    requires Evaluation(faults, v) && !v.policy.PolicyIdle? && PolicyMay(faults, v.policy, call)
    ensures Evaluation(faults, ViewPolicy(setup, v, call))
  {
  }

  lemma PolicyKeepsStaged(setup: Setup, faults: Faults, v: View, call: Call)
    requires Staged(faults, v) && !v.policy.PolicyIdle? && PolicyMay(faults, v.policy, call)
    ensures Staged(faults, ViewPolicy(setup, v, call))
  {
    PolicyKeepsEvaluation(setup, faults, v, call);
  }

  lemma RedeliverKeepsStaged(faults: Faults, v: View)
    requires Staged(faults, v) && v.scan.published && HasReport(v.scan.collector)
    ensures Staged(faults, ViewRedeliver(v))
  {
  }

  /** A step of the scan's creator, its collector or the network. */
  ghost predicate OutsideStep(faults: Faults, v: View, w: View) {
    || (exists call: Call :: !v.scan.api.ApiDone? && w == ViewApi(v, call))
    || (v.jobs != [] && w == ViewTakeJob(v))
    || (exists wellFormed: bool ::
          v.scan.collector.HasJob? && (wellFormed || faults.startLost) && w == ViewAnnounce(v, wellFormed))
    || (exists body: EventBody :: v.scan.collector.Announced? && !body.CollectionStarted? && w == ViewReport(v, body))
    || (v.scan.published && HasReport(v.scan.collector) && w == ViewRedeliver(v))
  }

  lemma OutsideKeepsStaged(faults: Faults, v: View, w: View)
    requires Staged(faults, v) && OutsideStep(faults, v, w)
    ensures Staged(faults, w)
  {
    if call: Call :| !v.scan.api.ApiDone? && w == ViewApi(v, call) {
      ApiKeepsStaged(faults, v, call);
    } else if v.jobs != [] && w == ViewTakeJob(v) {
      TakeJobKeepsStaged(faults, v);
    } else if wellFormed: bool :| v.scan.collector.HasJob? && (wellFormed || faults.startLost)
                                  && w == ViewAnnounce(v, wellFormed) {
      AnnounceKeepsStaged(faults, v, wellFormed);
    } else if body: EventBody :| v.scan.collector.Announced? && !body.CollectionStarted? && w == ViewReport(v, body) {
      ReportKeepsStaged(faults, v, body);
    } else {
      RedeliverKeepsStaged(faults, v);
    }
  }

  /** Whatever the workers and the environment do, each scan stays on its track. */
  lemma NextKeepsStaged(setup: Setup, faults: Faults, v: View, w: View)
    requires !faults.phantomPublish && Staged(faults, v) && ViewNext(setup, faults, v, w)
    ensures Staged(faults, w)
  {
    if v.ingest.IngestIdle? && v.events != [] && w == ViewPopEvent(v) {
      PopEventKeepsStaged(faults, v);
    } else if call: Call :| !v.ingest.IngestIdle? && IngestMay(faults, v.ingest, call) && w == ViewIngest(v, call) {
      IngestKeepsStaged(faults, v, call);
    } else if v.policy.PolicyIdle? && v.evaluates != [] && w == ViewPopEvaluate(v) {
      PopEvaluateKeepsStaged(faults, v);
    } else if call: Call :| !v.policy.PolicyIdle? && PolicyMay(faults, v.policy, call) && w == ViewPolicy(setup, v, call) {
      PolicyKeepsStaged(setup, faults, v, call);
    } else {
      OutsideKeepsStaged(faults, v, w);
    }
  }

  // ----- runs

  ghost predicate AllStaged(faults: Faults, s: System) {
    Rooted(s) && forall id | id in s.scans :: Staged(faults, ViewOf(s, id))
  }

  lemma StepKeepsAllStaged(setup: Setup, faults: Faults, s: System, step: Step)
    requires !faults.phantomPublish && AllStaged(faults, s) && Enabled(faults, s, step)
    ensures AllStaged(faults, Apply(setup, faults, s, step))
  {
    var t := Apply(setup, faults, s, step);
    RootedPreserved(setup, faults, s, step);
    forall id | id in t.scans ensures Staged(faults, ViewOf(t, id)) {
      if id in s.scans {
        StepIsViewStep(setup, faults, s, step, id);
        if ViewOf(t, id) != ViewOf(s, id) {
          NextKeepsStaged(setup, faults, ViewOf(s, id), ViewOf(t, id));
        }
      } else {
        CreatedView(setup, faults, s, step, id);
        NewIsStaged(faults, ViewOf(t, id));
      }
    }
  }

  lemma {:induction false} RunsStayStaged(setup: Setup, faults: Faults, steps: seq<Step>)
    requires !faults.phantomPublish && After(setup, faults, steps).Some?
    ensures AllStaged(faults, After(setup, faults, steps).value)
  {
    if steps != [] {
      RunsStayStaged(setup, faults, steps[..|steps| - 1]);
      StepKeepsAllStaged(setup, faults, After(setup, faults, steps[..|steps| - 1]).value, steps[|steps| - 1]);
    }
  }

  // ----- the writes about to be made

  /** Every status write a handler of this scan is about to make follows the table. */
  predicate WritesFollow(v: View) {
    var status := v.scan.cell.status;
    Follows(status, ApiTarget(v.scan.api)) && Follows(status, IngestTarget(v.ingest)) && Follows(status, PolicyTarget(v.policy))
  }

  /** The COLLECTED write of a scan whose COLLECTING write never took effect. */
  predicate StartWasLost(v: View) {
    v.ingest.CollectedStatus? && !v.scan.collecting
  }

  /** The FAILED write of an exception raised when COMPLETED was already stored. */
  predicate RaisedAfterCompleted(v: View) {
    v.policy.FailStatus? && v.policy.after == Some(Completed)
  }

  /** Exactly two writes can break the table. */
  lemma StagedWrites(faults: Faults, v: View)
    requires Staged(faults, v)
    ensures WritesFollow(v) <==> !StartWasLost(v) && !RaisedAfterCompleted(v)
    ensures StartWasLost(v) ==> faults.startLost
    ensures RaisedAfterCompleted(v) ==> faults.lateRaise
  {
  }

  /** In every interleaving in which a publish that raises did not enqueue, and with any number of
      redeliveries, a status write breaks the transition table exactly when it is the COLLECTED
      write after a lost start or the FAILED write after a stored COMPLETED. */
  lemma ExactlyTwoBadWrites(setup: Setup, faults: Faults, steps: seq<Step>, id: ScanId)
    requires !faults.phantomPublish
    requires After(setup, faults, steps).Some? && id in After(setup, faults, steps).value.scans
    ensures var v := ViewOf(After(setup, faults, steps).value, id);
            WritesFollow(v) <==> !StartWasLost(v) && !RaisedAfterCompleted(v)
  {
    RunsStayStaged(setup, faults, steps);
    StagedWrites(faults, ViewOf(After(setup, faults, steps).value, id));
  }

  ghost predicate Lawful(s: System) {
    forall id | id in s.scans :: WritesFollow(ViewOf(s, id))
  }

  /** With the three assumptions, every status write of every run follows the table. */
  lemma EveryWriteFollows(setup: Setup, faults: Faults, steps: seq<Step>)
    requires !faults.startLost && !faults.lateRaise && !faults.phantomPublish
    requires After(setup, faults, steps).Some?
    ensures Lawful(After(setup, faults, steps).value)
  {
    var s := After(setup, faults, steps).value;
    RunsStayStaged(setup, faults, steps);
    forall id | id in s.scans ensures WritesFollow(ViewOf(s, id)) {
      StagedWrites(faults, ViewOf(s, id));
    }
  }

  lemma CallsWriteTargets(setup: Setup, cell: Cell, api: ApiPc, ingest: IngestPc, policy: PolicyPc, call: Call)
    ensures ApiCell(cell, api, call).status != cell.status ==> ApiTarget(api) == Some(ApiCell(cell, api, call).status)
    ensures IngestCell(cell, ingest, call).status != cell.status ==> IngestTarget(ingest) == Some(IngestCell(cell, ingest, call).status)
    ensures PolicyCell(setup, cell, policy, call).status != cell.status ==>
              PolicyTarget(policy) == Some(PolicyCell(setup, cell, policy, call).status)
  {
  }

  /** A step changes a scan's status only by the write its handler was about to make. */
  lemma StatusChangesAreWrites(setup: Setup, faults: Faults, s: System, step: Step, id: ScanId)
    requires Rooted(s) && Enabled(faults, s, step) && id in s.scans
    ensures var v, t := ViewOf(s, id), Apply(setup, faults, s, step);
            var target := if step.StepApi? then ApiTarget(v.scan.api)
                          else if step.StepIngest? then IngestTarget(v.ingest)
                          else if step.StepPolicy? then PolicyTarget(v.policy)
                          else None;
            t.scans[id].cell.status != s.scans[id].cell.status ==> target == Some(t.scans[id].cell.status)
  {
    if step.StepApi? || step.StepIngest? || step.StepPolicy? {
      CallsWriteTargets(setup, s.scans[id].cell, s.scans[id].api, s.ingestPc, s.policyPc, step.call);
    }
  }

  /** So with the three assumptions the statuses a scan goes through form a walk of the table. */
  lemma StatusChangesFollow(setup: Setup, faults: Faults, steps: seq<Step>, step: Step, id: ScanId)
    requires !faults.startLost && !faults.lateRaise && !faults.phantomPublish
    requires After(setup, faults, steps).Some? && Enabled(faults, After(setup, faults, steps).value, step)
    requires id in After(setup, faults, steps).value.scans
    ensures var s := After(setup, faults, steps).value;
            var t := Apply(setup, faults, s, step);
            t.scans[id].cell.status != s.scans[id].cell.status ==> Allowed(s.scans[id].cell.status, t.scans[id].cell.status)
  {
    RunsStayStaged(setup, faults, steps);
    EveryWriteFollows(setup, faults, steps);
    StatusChangesAreWrites(setup, faults, After(setup, faults, steps).value, step, id);
  }
}
