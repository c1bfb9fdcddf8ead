/** How a scan ends: the status of every run in which no call raises, and the calls that leave a scan
    EVALUATING for good. */
module PipelineCompletion {
  import opened Wrappers
  import opened ScanLifecycle
  import opened Assets
  import opened ComplianceMapping
  import opened PipelineModel
  import opened PipelineViews
  import opened PipelineSafety
  import opened PipelineInventory
  import opened PipelineOutcome
  import opened Handlers

  // ----- runs in which every call returns

  predicate Calm(step: Step) {
    step.StepApi? || step.StepIngest? || step.StepPolicy? ==> Returned(step.call)
  }

  predicate CalmRun(steps: seq<Step>) {
    forall i | 0 <= i < |steps| :: Calm(steps[i])
  }

  /** Without exceptions the faults that consist in one do not matter. */
  function WithoutRaising(faults: Faults): Faults {
    Faults(faults.startLost, false, false, faults.redelivery)
  }

  lemma CalmStepNeedsNoFault(setup: Setup, faults: Faults, s: System, step: Step)
    requires Calm(step) && Enabled(faults, s, step)
    ensures Enabled(WithoutRaising(faults), s, step)
    ensures Apply(setup, WithoutRaising(faults), s, step) == Apply(setup, faults, s, step)
  {
  }

  lemma {:induction false} CalmRunNeedsNoFault(setup: Setup, faults: Faults, steps: seq<Step>)
    requires CalmRun(steps) && After(setup, faults, steps).Some?
    ensures After(setup, WithoutRaising(faults), steps) == After(setup, faults, steps)
  {
    if steps != [] {
      var init, step := steps[..|steps| - 1], steps[|steps| - 1];
      CalmRunNeedsNoFault(setup, faults, init);
      CalmStepNeedsNoFault(setup, faults, After(setup, faults, init).value, step);
    }
  }

  // ----- the status such a run ends in

  /** The collection is reported complete and every bronze file can be normalised. */
  predicate HandsOver(cell: Cell, body: EventBody) {
    body.CollectionCompleted? && body.report.Some? && NormalizeAll(body.report.value.files, cell.accountId).Some?
  }

  /** What becomes of a scan whose collector sent this terminal event. */
  function Ending(setup: Setup, scan: Scan): ScanStatus
    requires scan.collector.Reported?
  {
    var body := scan.collector.body;
    if body == CollectionFailed(false) then (if scan.collecting then Collecting else Queued)
    else if HandsOver(scan.cell, body) && CUSTOMER_PRIMARY_FRAMEWORK in setup.catalog then Verdict(body.report.value.status)
    else Failed
  }

  predicate CalmIngest(setup: Setup, scan: Scan, ingest: IngestPc)
    requires scan.collector.Reported?
  {
    var body := scan.collector.body;
    match ingest
    case IngestIdle => !HandsOver(scan.cell, body) && scan.cell.status == Ending(setup, scan)
    case FailedStatus => body == CollectionFailed(true)
    case FailedRun => body == CollectionFailed(true)
    case FailedMark => body == CollectionFailed(true)
    case FailedLog => body == CollectionFailed(true)
    case IngestFailed => body.CollectionCompleted? && !HandsOver(scan.cell, body)
    case _ => true
  }

  predicate CalmEvaluation(setup: Setup, scan: Scan, policy: PolicyPc, queued: bool)
    requires scan.collector.Reported?
  {
    var status, ending := scan.cell.status, Ending(setup, scan);
    match policy
    case PolicyIdle => status == ending || (status == InventoryReady && queued)
    case LogRequest(_) => status in {ending, InventoryReady}
    case LoadScan(_) => status in {ending, InventoryReady}
    case LoadCollectionRun(_) => CUSTOMER_PRIMARY_FRAMEWORK in setup.catalog
    case FinalStatus(_) => CUSTOMER_PRIMARY_FRAMEWORK in setup.catalog
    case LogPolicyCompleted(_) => CUSTOMER_PRIMARY_FRAMEWORK in setup.catalog
    case LogComplianceUpdated(_) => CUSTOMER_PRIMARY_FRAMEWORK in setup.catalog
    case LogScanCompleted(_) => CUSTOMER_PRIMARY_FRAMEWORK in setup.catalog
    case FailEvaluation(_) => CUSTOMER_PRIMARY_FRAMEWORK !in setup.catalog
    case FailStatus(_) => CUSTOMER_PRIMARY_FRAMEWORK !in setup.catalog
    case LogFailure => CUSTOMER_PRIMARY_FRAMEWORK !in setup.catalog
    case _ => true
  }

  /** Each handler that is done has left the status it should. */
  predicate Calmed(setup: Setup, v: View) {
    v.scan.collector.Reported? && v.events == [] ==>
      if !v.scan.published then CalmIngest(setup, v.scan, v.ingest)
      else CalmEvaluation(setup, v.scan, v.policy, v.evaluates != [])
  }

  // ----- every step without an exception keeps it

  lemma IngestKeepsCalm(setup: Setup, faults: Faults, v: View, call: Call)
    requires !faults.phantomPublish && Staged(faults, v) && Inventoried(v) && Calmed(setup, v)
    requires !v.ingest.IngestIdle? && Returned(call)
    ensures Calmed(setup, ViewIngest(v, call))
  {
    if v.scan.collector.Reported? && v.events == [] && !v.scan.published {
      if v.ingest.Publish? {
        PublishIsCalm(setup, v, call);
      } else {
        HandlerKeepsCalm(setup, v, call);
      }
    }
  }

  lemma PublishIsCalm(setup: Setup, v: View, call: Call)
    requires v.scan.collector.Reported? && Handling(v, v.scan.collector.body) && v.ingest.Publish? && Returned(call)
    requires NoEvaluation(v)
    ensures Calmed(setup, ViewIngest(v, call))
  {
    assert ViewIngest(v, call).evaluates == [v.ingest.report.status] + v.evaluates;
  }

  /** The account and the collector stay, and so does what the scan should end in. */
  lemma IngestKeepsEnding(setup: Setup, v: View, call: Call)
    requires v.scan.collector.Reported? && !v.ingest.StartedStatus?
    ensures var after := ViewIngest(v, call).scan;
            && after.collector == v.scan.collector && after.collecting == v.scan.collecting
            && after.cell.accountId == v.scan.cell.accountId
            && Ending(setup, after) == Ending(setup, v.scan)
  {
  }

  lemma HandlerKeepsCalm(setup: Setup, v: View, call: Call)
    requires v.scan.collector.Reported? && Handling(v, v.scan.collector.body) && !v.ingest.Publish?
    requires !v.ingest.IngestIdle? && Returned(call) && Inserting(v.scan.cell, v.ingest)
    requires !v.scan.collector.body.CollectionStarted? && CalmIngest(setup, v.scan, v.ingest)
    ensures CalmIngest(setup, ViewIngest(v, call).scan, ViewIngest(v, call).ingest)
  {
    IngestKeepsEnding(setup, v, call);
  }

  lemma PolicyKeepsCalm(setup: Setup, faults: Faults, v: View, call: Call)
    requires Staged(faults, v) && Inventoried(v) && Assessed(setup, faults, v) && Calmed(setup, v)
    requires !v.policy.PolicyIdle? && Returned(call)
    ensures Calmed(setup, ViewPolicy(setup, v, call))
  {
    BusyIsEvaluating(faults, v);
    EvaluationKeepsCalm(setup, faults, v, call);
  }

  lemma EvaluationKeepsCalm(setup: Setup, faults: Faults, v: View, call: Call)
    requires HasReport(v.scan.collector) && HandsOver(v.scan.cell, v.scan.collector.body) && Evaluation(faults, v)
    requires EvaluationData(setup, faults, v.scan.cell, v.policy, v.scan.collector.body.report.value.status)
    requires CalmEvaluation(setup, v.scan, v.policy, v.evaluates != []) && !v.policy.PolicyIdle? && Returned(call)
    ensures var w := ViewPolicy(setup, v, call);
            CalmEvaluation(setup, w.scan, w.policy, w.evaluates != [])
  {
    PolicyKeepsStored(setup, v.scan.cell, v.policy, call);
  }

  /** A step that is no call of a worker. */
  ghost predicate OtherStep(faults: Faults, v: View, w: View) {
    || OutsideStep(faults, v, w)
    || (v.ingest.IngestIdle? && v.events != [] && w == ViewPopEvent(v))
    || (v.policy.PolicyIdle? && v.evaluates != [] && w == ViewPopEvaluate(v))
  }

  lemma OtherStepsKeepCalm(setup: Setup, faults: Faults, v: View, w: View)
    requires Staged(faults, v) && Calmed(setup, v) && OtherStep(faults, v, w)
    ensures Calmed(setup, w)
  {
  }

  // ----- runs

  lemma OutsideIsSeen(setup: Setup, faults: Faults, s: System, step: Step, id: ScanId)
    requires Enabled(faults, s, step) && id in s.scans
    requires step.CreateScan? || step.StepApi? || step.TakeJob? || step.Announce? || step.SendReport? || step.Redeliver?
    ensures var t := Apply(setup, faults, s, step);
            id in t.scans && (ViewOf(t, id) == ViewOf(s, id) || OutsideStep(faults, ViewOf(s, id), ViewOf(t, id)))
  {
    match step
    case CreateScan(_, _, _) =>
    case StepApi(scan, call) => ApiIsSeen(setup, faults, s, scan, call, id);
    case TakeJob => JobIsSeen(setup, faults, s, id);
    case Redeliver(scan) => RedeliverIsSeen(setup, faults, s, scan, id);
    case _ => CollectorIsSeen(setup, faults, s, step, id);
  }

  lemma OtherIsSeen(setup: Setup, faults: Faults, s: System, step: Step, id: ScanId)
    requires Enabled(faults, s, step) && id in s.scans && !step.StepIngest? && !step.StepPolicy?
    ensures var t := Apply(setup, faults, s, step);
            id in t.scans && (ViewOf(t, id) == ViewOf(s, id) || OtherStep(faults, ViewOf(s, id), ViewOf(t, id)))
  {
    if step.PopEvent? {
      EventIsSeen(setup, faults, s, id);
    } else if step.PopEvaluate? {
      EvaluateIsSeen(setup, faults, s, id);
    } else {
      OutsideIsSeen(setup, faults, s, step, id);
    }
  }

  lemma ViewIsAssessed(setup: Setup, faults: Faults, s: System, id: ScanId)
    requires AllAssessed(setup, faults, s) && id in s.scans
    ensures var v := ViewOf(s, id); Staged(faults, v) && Inventoried(v) && Assessed(setup, faults, v)
  {
  }

  lemma StepKeepsCalm(setup: Setup, faults: Faults, s: System, step: Step, id: ScanId)
    requires !faults.phantomPublish && AllAssessed(setup, faults, s) && Enabled(faults, s, step) && Calm(step)
    requires id in s.scans && Calmed(setup, ViewOf(s, id))
    ensures id in Apply(setup, faults, s, step).scans && Calmed(setup, ViewOf(Apply(setup, faults, s, step), id))
  {
    var v := ViewOf(s, id);
    ViewIsAssessed(setup, faults, s, id);
    if step.StepIngest? {
      IngestIsSeen(setup, faults, s, step.call, id);
      if s.ingestScan == id {
        IngestKeepsCalm(setup, faults, v, step.call);
      }
    } else if step.StepPolicy? {
      PolicyIsSeen(setup, faults, s, step.call, id);
      if s.policyScan == id {
        PolicyKeepsCalm(setup, faults, v, step.call);
      }
    } else {
      OtherIsSeen(setup, faults, s, step, id);
      if ViewOf(Apply(setup, faults, s, step), id) != v {
        OtherStepsKeepCalm(setup, faults, v, ViewOf(Apply(setup, faults, s, step), id));
      }
    }
  }

  lemma {:induction false} RunsStayCalm(setup: Setup, faults: Faults, steps: seq<Step>)
    requires !faults.phantomPublish && CalmRun(steps) && After(setup, faults, steps).Some?
    ensures var s := After(setup, faults, steps).value; forall id | id in s.scans :: Calmed(setup, ViewOf(s, id))
  {
    if steps != [] {
      var init, step := steps[..|steps| - 1], steps[|steps| - 1];
      RunsStayCalm(setup, faults, init);
      RunsStayAssessed(setup, faults, init);
      var s, t := After(setup, faults, init).value, After(setup, faults, steps).value;
      forall id | id in t.scans ensures Calmed(setup, ViewOf(t, id)) {
        if id in s.scans {
          StepKeepsCalm(setup, faults, s, step, id);
        } else {
          CreatedView(setup, faults, s, step, id);
        }
      }
    }
  }

  /** The collector has reported, and neither a queue nor a worker holds anything of the scan. */
  predicate Drained(v: View) {
    && v.scan.collector.Reported? && v.events == [] && v.evaluates == []
    && v.ingest.IngestIdle? && v.policy.PolicyIdle?
  }

  lemma DrainedHasEnded(setup: Setup, faults: Faults, v: View)
    requires Staged(faults, v) && Calmed(setup, v) && Drained(v)
    ensures v.scan.cell.status == Ending(setup, v.scan)
    ensures !v.scan.collector.body.CollectionStarted?
  {
  }

  /** In every run in which no call raises, a scan that nothing is left to be done for has the status
      its terminal collection event calls for. */
  lemma CalmScanEnds(setup: Setup, faults: Faults, steps: seq<Step>, id: ScanId)
    requires CalmRun(steps) && After(setup, faults, steps).Some? && id in After(setup, faults, steps).value.scans
    requires Drained(ViewOf(After(setup, faults, steps).value, id))
    ensures var scan := After(setup, faults, steps).value.scans[id];
            && scan.cell.status == Ending(setup, scan)
            && (scan.cell.status in TERMINAL_STATUSES <==> scan.collector.body != CollectionFailed(false))
  {
    CalmRunNeedsNoFault(setup, faults, steps);
    var few := WithoutRaising(faults);
    RunsStayCalm(setup, few, steps);
    RunsStayStaged(setup, few, steps);
    DrainedHasEnded(setup, few, ViewOf(After(setup, faults, steps).value, id));
  }

  // ----- what such a run records on the collection run

  predicate Running(v: View) {
    v.scan.collecting && !v.ingest.StartedRun? ==> v.scan.cell.runStatus == "running"
  }

  /** What the collection run says in the end: "failed" or the reported status, and after an event that
      could not be read still what the start left. */
  predicate RunEnds(v: View)
    requires v.scan.collector.Reported?
  {
    match v.scan.collector.body
    case CollectionFailed(wellFormed) => if wellFormed then v.scan.cell.runStatus == "failed" else Running(v)
    case CollectionCompleted(report) => if report.Some? then v.scan.cell.runStatus == report.value.status else Running(v)
    case CollectionStarted(_) => true
  }

  predicate RunFollowsEvents(v: View) {
    match v.scan.collector
    case NoJob => true
    case HasJob => true
    case Announced => Running(v)
    case Reported(body) =>
      if v.events != [] then Running(v)
      else if v.scan.published then RunEnds(v)
      else
        match v.ingest
        case IngestIdle => RunEnds(v)
        case IngestFailed => RunEnds(v)
        case LogEvent(_) => Running(v)
        case FailedStatus => body == CollectionFailed(true) && Running(v)
        case FailedRun => body == CollectionFailed(true) && Running(v)
        case FailedMark => body == CollectionFailed(true) && RunEnds(v)
        case FailedLog => body == CollectionFailed(true) && RunEnds(v)
        case CollectedStatus(_) => Running(v)
        case ReportedRun(_) => Running(v)
        case _ => true
  }

  lemma StartingFollows(faults: Faults, v: View, call: Call, queued: seq<EventBody>)
    requires Starting(faults, v, queued) && Running(v) && !v.ingest.IngestIdle? && Returned(call)
    ensures Running(ViewIngest(v, call))
  {
  }

  lemma HandlingFollows(v: View, call: Call)
    requires v.scan.collector.Reported? && v.events == [] && !v.scan.published && Handling(v, v.scan.collector.body)
    requires !v.scan.collector.body.CollectionStarted? && RunRecorded(v.scan.cell, v.ingest) && RunFollowsEvents(v)
    requires !v.ingest.IngestIdle? && Returned(call)
    ensures RunFollowsEvents(ViewIngest(v, call))
  {
  }

  lemma IngestFollows(faults: Faults, v: View, call: Call)
    requires !faults.phantomPublish && Staged(faults, v) && Inventoried(v) && RunFollowsEvents(v)
    requires !v.ingest.IngestIdle? && Returned(call)
    ensures RunFollowsEvents(ViewIngest(v, call))
  {
    if v.scan.collector.Announced? {
      StartingFollows(faults, v, call, v.events);
    } else if v.scan.collector.Reported? {
      if v.events != [] {
        StartingFollows(faults, v, call, v.events[1..]);
      } else if !v.scan.published {
        HandlingFollows(v, call);
      }
    }
  }

  lemma OthersFollow(faults: Faults, v: View, w: View)
    requires Staged(faults, v) && RunFollowsEvents(v) && OtherStep(faults, v, w)
    ensures RunFollowsEvents(w)
  {
  }

  lemma PolicyFollows(setup: Setup, faults: Faults, v: View, call: Call)
    requires Staged(faults, v) && RunFollowsEvents(v) && !v.policy.PolicyIdle?
    ensures RunFollowsEvents(ViewPolicy(setup, v, call))
  {
    PolicyKeepsStored(setup, v.scan.cell, v.policy, call);
  }

  lemma StepFollows(setup: Setup, faults: Faults, s: System, step: Step, id: ScanId)
    requires !faults.phantomPublish && AllInventoried(faults, s) && Enabled(faults, s, step) && Calm(step)
    requires id in s.scans && RunFollowsEvents(ViewOf(s, id))
    ensures id in Apply(setup, faults, s, step).scans && RunFollowsEvents(ViewOf(Apply(setup, faults, s, step), id))
  {
    var v := ViewOf(s, id);
    assert Staged(faults, v) && Inventoried(v);
    if step.StepIngest? {
      IngestIsSeen(setup, faults, s, step.call, id);
      if s.ingestScan == id {
        IngestFollows(faults, v, step.call);
      }
    } else if step.StepPolicy? {
      PolicyIsSeen(setup, faults, s, step.call, id);
      if s.policyScan == id {
        PolicyFollows(setup, faults, v, step.call);
      }
    } else {
      OtherIsSeen(setup, faults, s, step, id);
      if ViewOf(Apply(setup, faults, s, step), id) != v {
        OthersFollow(faults, v, ViewOf(Apply(setup, faults, s, step), id));
      }
    }
  }

  lemma {:induction false} RunsFollow(setup: Setup, faults: Faults, steps: seq<Step>)
    requires !faults.phantomPublish && CalmRun(steps) && After(setup, faults, steps).Some?
    ensures var s := After(setup, faults, steps).value; forall id | id in s.scans :: RunFollowsEvents(ViewOf(s, id))
  {
    if steps != [] {
      var init, step := steps[..|steps| - 1], steps[|steps| - 1];
      RunsFollow(setup, faults, init);
      RunsStayInventoried(setup, faults, init);
      var s, t := After(setup, faults, init).value, After(setup, faults, steps).value;
      forall id | id in t.scans ensures RunFollowsEvents(ViewOf(t, id)) {
        if id in s.scans {
          StepFollows(setup, faults, s, step, id);
        } else {
          CreatedView(setup, faults, s, step, id);
        }
      }
    }
  }

  /** In every run in which no call raises, the collection run of a scan that nothing is left to be done
      for says what its terminal event said. */
  lemma CalmRunEnds(setup: Setup, faults: Faults, steps: seq<Step>, id: ScanId)
    requires CalmRun(steps) && After(setup, faults, steps).Some? && id in After(setup, faults, steps).value.scans
    requires Drained(ViewOf(After(setup, faults, steps).value, id))
    ensures RunEnds(ViewOf(After(setup, faults, steps).value, id))
  {
    CalmRunNeedsNoFault(setup, faults, steps);
    RunsFollow(setup, WithoutRaising(faults), steps);
    assert RunFollowsEvents(ViewOf(After(setup, faults, steps).value, id));
  }

  // ----- the workers can always finish

  predicate AtRest(s: System) {
    s.events == [] && s.evaluates == [] && s.ingestPc.IngestIdle? && s.policyPc.PolicyIdle?
  }

  predicate WorkerStep(step: Step) {
    step.PopEvent? || step.StepIngest? || step.PopEvaluate? || step.StepPolicy?
  }

  /** The next step of the workers: the ingest worker's first. */
  function NextWork(s: System): Step
    requires !AtRest(s)
  {
    if !s.ingestPc.IngestIdle? then StepIngest(Call(Ok, 0))
    else if s.events != [] then PopEvent
    else if !s.policyPc.PolicyIdle? then StepPolicy(Call(Ok, 0))
    else PopEvaluate
  }

  lemma NextWorkIsEnabled(setup: Setup, faults: Faults, s: System)
    requires Rooted(s) && !AtRest(s)
    ensures Enabled(faults, s, NextWork(s)) && WorkerStep(NextWork(s)) && Calm(NextWork(s))
  {
  }

  /** The ingest worker's calls add to the evaluations, so its work comes first. */
  predicate LessWork(t: System, s: System) {
    if |t.events| != |s.events| then |t.events| < |s.events|
    else if IngestRank(t.ingestPc) != IngestRank(s.ingestPc) then IngestRank(t.ingestPc) < IngestRank(s.ingestPc)
    else if IngestLeft(t.ingestPc) != IngestLeft(s.ingestPc) then IngestLeft(t.ingestPc) < IngestLeft(s.ingestPc)
    else if |t.evaluates| != |s.evaluates| then |t.evaluates| < |s.evaluates|
    else if PolicyRank(t.policyPc) != PolicyRank(s.policyPc) then PolicyRank(t.policyPc) < PolicyRank(s.policyPc)
    else PolicyLeft(t.policyPc) < PolicyLeft(s.policyPc)
  }

  /** Every step of a worker, raising or not, leaves less work. */
  lemma WorkShrinks(setup: Setup, faults: Faults, s: System, step: Step)
    requires Enabled(faults, s, step) && WorkerStep(step)
    ensures LessWork(Apply(setup, faults, s, step), s)
  {
    if step.StepIngest? {
      IngestDescends(s.scans[s.ingestScan].cell, s.ingestPc, step.call);
    } else if step.StepPolicy? {
      PolicyDescends(setup, s.scans[s.policyScan].cell, s.policyPc, step.call);
    }
  }

  lemma Work(setup: Setup, faults: Faults, steps: seq<Step>, s: System) returns (step: Step, t: System)
    requires After(setup, faults, steps) == Some(s) && Rooted(s) && !AtRest(s)
    ensures After(setup, faults, steps + [step]) == Some(t) && Rooted(t) && LessWork(t, s)
    ensures WorkerStep(step) && Calm(step)
  {
    step := NextWork(s);
    NextWorkIsEnabled(setup, faults, s);
    assert (steps + [step])[..|steps|] == steps;
    t := Apply(setup, faults, s, step);
    WorkShrinks(setup, faults, s, step);
    RootedPreserved(setup, faults, s, step);
  }

  /** The longer run goes on with calls and pops of the workers that do not raise. */
  predicate FinishesWork(steps: seq<Step>, longer: seq<Step>) {
    && |steps| <= |longer| && longer[..|steps|] == steps
    && forall i | |steps| <= i < |longer| :: WorkerStep(longer[i]) && Calm(longer[i])
  }

  lemma OneMoreStep(steps: seq<Step>, step: Step, longer: seq<Step>)
    requires FinishesWork(steps + [step], longer) && WorkerStep(step) && Calm(step)
    ensures FinishesWork(steps, longer)
  {
    assert steps == longer[..|steps| + 1][..|steps|] == longer[..|steps|];
    assert step == longer[..|steps| + 1][|steps|] == longer[|steps|];
  }

  lemma {:induction false} Finish(setup: Setup, faults: Faults, steps: seq<Step>, s: System) returns (longer: seq<Step>)
    requires After(setup, faults, steps) == Some(s) && Rooted(s)
    ensures FinishesWork(steps, longer)
    ensures After(setup, faults, longer).Some? && AtRest(After(setup, faults, longer).value)
    decreases |s.events|, IngestRank(s.ingestPc), IngestLeft(s.ingestPc), |s.evaluates|, PolicyRank(s.policyPc), PolicyLeft(s.policyPc)
  {
    if AtRest(s) {
      longer := steps;
    } else {
      var step, t := Work(setup, faults, steps, s);
      longer := Finish(setup, faults, steps + [step], t);
      OneMoreStep(steps, step, longer);
    }
  }

  lemma RestIsDrained(s: System, id: ScanId)
    requires AtRest(s) && id in s.scans && s.scans[id].collector.Reported?
    ensures Drained(ViewOf(s, id))
  {
  }

  /** Whenever no call has raised so far, the workers can finish, and then every scan whose collector
      has reported has the status its report calls for. */
  lemma CalmRunsCanEnd(setup: Setup, faults: Faults, steps: seq<Step>) returns (longer: seq<Step>)
    requires CalmRun(steps) && After(setup, faults, steps).Some?
    ensures FinishesWork(steps, longer)
    ensures After(setup, faults, longer).Some? && AtRest(After(setup, faults, longer).value)
    ensures AllEnded(setup, After(setup, faults, longer).value)
  {
    CalmRunNeedsNoFault(setup, faults, steps);
    RunsStayStaged(setup, WithoutRaising(faults), steps);
    longer := Finish(setup, faults, steps, After(setup, faults, steps).value);
    StaysCalmRun(steps, longer);
    var s := After(setup, faults, longer).value;
    forall id | id in s.scans && s.scans[id].collector.Reported? ensures s.scans[id].cell.status == Ending(setup, s.scans[id]) {
      RestIsDrained(s, id);
      CalmScanEnds(setup, faults, longer, id);
    }
  }

  lemma StaysCalmRun(steps: seq<Step>, longer: seq<Step>)
    requires CalmRun(steps) && FinishesWork(steps, longer)
    ensures CalmRun(longer)
  {
    forall i | 0 <= i < |longer| ensures Calm(longer[i]) {
      if i < |steps| {
        assert longer[i] == longer[..|steps|][i] == steps[i];
      }
    }
  }

  /** Every scan whose collector has reported has the status the report calls for. */
  ghost predicate AllEnded(setup: Setup, s: System) {
    forall id | id in s.scans && s.scans[id].collector.Reported? :: s.scans[id].cell.status == Ending(setup, s.scans[id])
  }

  // ----- scans left EVALUATING

  /** No evaluation is under way, and the scan's status keeps every later one from starting. */
  predicate Stuck(v: View) {
    && v.scan.published && v.scan.cell.status == Evaluating
    && (v.policy.PolicyIdle? || v.policy.LogRequest? || v.policy.LoadScan?)
  }

  /** The exceptions after which EVALUATING stays: in the write of that status although it took
      effect, in start_evaluation_run, and in the two calls of the except path that precede the
      FAILED write's effect, when the final status is not stored yet. */
  predicate Strands(pc: PolicyPc, call: Call) {
    match pc
    case EvaluatingStatus(_) => call.outcome == RaiseAfter
    case StartEvaluation(_) => !Returned(call)
    case FailEvaluation(after) => after.None? && !Returned(call)
    case FailStatus(after) => after.None? && call.outcome == RaiseBefore
    case _ => false
  }

  lemma StrandingIsExact(setup: Setup, faults: Faults, v: View, call: Call)
    requires Staged(faults, v) && !v.policy.PolicyIdle? && PolicyMay(faults, v.policy, call)
    ensures Stuck(ViewPolicy(setup, v, call)) <==> Stuck(v) || Strands(v.policy, call)
  {
    BusyIsEvaluating(faults, v);
  }

  lemma OtherStepsLeaveStuck(faults: Faults, v: View, w: View)
    requires Staged(faults, v) && OtherStep(faults, v, w)
    ensures Stuck(w) <==> Stuck(v)
  {
  }

  lemma IngestLeavesStuck(faults: Faults, v: View, call: Call)
    requires !faults.phantomPublish && Staged(faults, v) && !v.ingest.IngestIdle? && IngestMay(faults, v.ingest, call)
    ensures !Stuck(v) && !Stuck(ViewIngest(v, call))
  {
  }

  /** Whether a step of the run was a stranding call for this scan. */
  predicate Stranded(setup: Setup, faults: Faults, steps: seq<Step>, id: ScanId)
    requires After(setup, faults, steps).Some?
  {
    steps != [] &&
    var init, step := steps[..|steps| - 1], steps[|steps| - 1];
    var s := After(setup, faults, init).value;
    Stranded(setup, faults, init, id) || (step.StepPolicy? && s.policyScan == id && Strands(s.policyPc, step.call))
  }

  lemma StepStrands(setup: Setup, faults: Faults, s: System, step: Step, id: ScanId)
    requires !faults.phantomPublish && AllStaged(faults, s) && Enabled(faults, s, step) && id in s.scans
    ensures id in Apply(setup, faults, s, step).scans
    ensures Stuck(ViewOf(Apply(setup, faults, s, step), id)) <==>
            Stuck(ViewOf(s, id)) || (step.StepPolicy? && s.policyScan == id && Strands(s.policyPc, step.call))
  {
    var v := ViewOf(s, id);
    if step.StepIngest? {
      IngestIsSeen(setup, faults, s, step.call, id);
      if s.ingestScan == id {
        IngestLeavesStuck(faults, v, step.call);
      }
    } else if step.StepPolicy? {
      PolicyIsSeen(setup, faults, s, step.call, id);
      if s.policyScan == id {
        StrandingIsExact(setup, faults, v, step.call);
      }
    } else {
      OtherIsSeen(setup, faults, s, step, id);
      if ViewOf(Apply(setup, faults, s, step), id) != v {
        OtherStepsLeaveStuck(faults, v, ViewOf(Apply(setup, faults, s, step), id));
      }
    }
  }

  /** In every run in which a publish that raises did not enqueue, a scan is EVALUATING with no
      evaluation under way exactly when one of the four exceptions hit it, however often its
      policy.evaluate was redelivered since. */
  lemma {:induction false} StuckIffStranded(setup: Setup, faults: Faults, steps: seq<Step>, id: ScanId)
    requires !faults.phantomPublish && After(setup, faults, steps).Some?
    ensures var s := After(setup, faults, steps).value;
            Stranded(setup, faults, steps, id) <==> id in s.scans && Stuck(ViewOf(s, id))
  {
    if steps != [] {
      var init, step := steps[..|steps| - 1], steps[|steps| - 1];
      var s, t := After(setup, faults, init).value, After(setup, faults, steps).value;
      StuckIffStranded(setup, faults, init, id);
      RunsStayStaged(setup, faults, init);
      if id in s.scans {
        StepStrands(setup, faults, s, step, id);
      } else if id in t.scans {
        CreatedView(setup, faults, s, step, id);
      }
    }
  }

  /** A drained scan is left EVALUATING exactly by such an exception. */
  lemma DrainedEvaluatingIsStranded(setup: Setup, faults: Faults, steps: seq<Step>, id: ScanId)
    requires !faults.phantomPublish && After(setup, faults, steps).Some? && id in After(setup, faults, steps).value.scans
    requires Drained(ViewOf(After(setup, faults, steps).value, id))
    ensures After(setup, faults, steps).value.scans[id].cell.status == Evaluating <==> Stranded(setup, faults, steps, id)
  {
    StuckIffStranded(setup, faults, steps, id);
    RunsStayStaged(setup, faults, steps);
    assert Staged(faults, ViewOf(After(setup, faults, steps).value, id));
  }
}
