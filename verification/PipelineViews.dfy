/** The pipeline seen from one scan: the shared queues and workers projected to it, and the proof
    that a step of the system is a step of one scan's view and no step of any other's. */
module PipelineViews {
  import opened PipelineModel

  /** Queues hold the newest message first. */
  datatype View = View(
    scan: Scan,
    jobs: seq<()>,
    events: seq<EventBody>,
    evaluates: seq<string>,
    ingest: IngestPc,
    policy: PolicyPc)

  /** The messages of one scan, in queue order. */
  function Of<T>(queue: seq<Message<T>>, id: ScanId): seq<T> {
    if queue == [] then []
    else if queue[0].scan == id then [queue[0].body] + Of(queue[1..], id)
    else Of(queue[1..], id)
  }

  function ViewOf(s: System, id: ScanId): View
    requires id in s.scans
  {
    View(s.scans[id], Of(s.jobs, id), Of(s.events, id), Of(s.evaluates, id),
         if s.ingestScan == id then s.ingestPc else IngestIdle,
         if s.policyScan == id then s.policyPc else PolicyIdle)
  }

  lemma OfPush<T>(queue: seq<Message<T>>, scan: ScanId, body: T, id: ScanId)
    ensures Of(Push(queue, scan, body), id) == if scan == id then [body] + Of(queue, id) else Of(queue, id)
  {
    assert Push(queue, scan, body)[1..] == queue;
  }

  /** Popping the oldest message takes the oldest message of its scan and of no other. */
  lemma {:induction false} OfPop<T>(queue: seq<Message<T>>, id: ScanId)
    requires queue != []
    ensures var last := queue[|queue| - 1];
            Of(queue, id) == Of(queue[..|queue| - 1], id) + if last.scan == id then [last.body] else []
  {
    if |queue| == 1 {
      assert queue[1..] == [];
    } else {
      OfPop(queue[1..], id);
      assert queue[1..][..|queue| - 2] == queue[..|queue| - 1][1..];
    }
  }

  // ----- the steps a view can take

  function ViewApi(v: View, call: Call): View {
    v.(scan := v.scan.(cell := ApiCell(v.scan.cell, v.scan.api, call), api := ApiNext(v.scan.api, call)),
       jobs := if v.scan.api.PushJob? && Took(call) then [()] + v.jobs else v.jobs)
  }

  function ViewTakeJob(v: View): View
    requires v.jobs != []
  {
    v.(scan := v.scan.(collector := HasJob), jobs := v.jobs[..|v.jobs| - 1])
  }

  function ViewAnnounce(v: View, wellFormed: bool): View {
    v.(scan := v.scan.(collector := Announced), events := [CollectionStarted(wellFormed)] + v.events)
  }

  function ViewReport(v: View, body: EventBody): View {
    v.(scan := v.scan.(collector := Reported(body)), events := [body] + v.events)
  }

  function ViewPopEvent(v: View): View
    requires v.events != []
  {
    v.(events := v.events[..|v.events| - 1], ingest := LogEvent(v.events[|v.events| - 1]))
  }

  function ViewIngest(v: View, call: Call): View {
    v.(scan := v.scan.(cell := IngestCell(v.scan.cell, v.ingest, call),
                       collecting := v.scan.collecting || (v.ingest.StartedStatus? && Took(call)),
                       published := v.scan.published || Publishes(v.ingest, call)),
       ingest := IngestNext(v.scan.cell, v.ingest, call),
       evaluates := if Publishes(v.ingest, call) then [v.ingest.report.status] + v.evaluates else v.evaluates)
  }

  function ViewPopEvaluate(v: View): View
    requires v.evaluates != []
  {
    v.(evaluates := v.evaluates[..|v.evaluates| - 1], policy := LogRequest(v.evaluates[|v.evaluates| - 1]))
  }

  function ViewPolicy(setup: Setup, v: View, call: Call): View {
    v.(scan := v.scan.(cell := PolicyCell(setup, v.scan.cell, v.policy, call)),
       policy := PolicyNext(setup, v.scan.cell, v.policy, call))
  }

  function ViewRedeliver(v: View): View
    requires HasReport(v.scan.collector)
  {
    v.(evaluates := [v.scan.collector.body.report.value.status] + v.evaluates)
  }

  /** One step of a scan's view. */
  ghost predicate ViewNext(setup: Setup, faults: Faults, v: View, w: View) {
    || (exists call: Call :: !v.scan.api.ApiDone? && w == ViewApi(v, call))
    || (v.jobs != [] && w == ViewTakeJob(v))
    || (exists wellFormed: bool ::
          v.scan.collector.HasJob? && (wellFormed || faults.startLost) && w == ViewAnnounce(v, wellFormed))
    || (exists body: EventBody :: v.scan.collector.Announced? && !body.CollectionStarted? && w == ViewReport(v, body))
    || (v.ingest.IngestIdle? && v.events != [] && w == ViewPopEvent(v))
    || (exists call: Call :: !v.ingest.IngestIdle? && IngestMay(faults, v.ingest, call) && w == ViewIngest(v, call))
    || (v.policy.PolicyIdle? && v.evaluates != [] && w == ViewPopEvaluate(v))
    || (exists call: Call :: !v.policy.PolicyIdle? && PolicyMay(faults, v.policy, call) && w == ViewPolicy(setup, v, call))
    || (faults.redelivery && v.scan.published && HasReport(v.scan.collector) && w == ViewRedeliver(v))
  }

  predicate NewView(v: View) {
    && v.jobs == [] && v.events == [] && v.evaluates == [] && v.ingest.IngestIdle? && v.policy.PolicyIdle?
    && v.scan == Scan(NewCell(v.scan.cell.accountId, v.scan.cell.runStatus), WriteQueued, NoJob, false, false)
  }

  /** Messages and busy workers always belong to an existing scan. */
  ghost predicate Rooted(s: System) {
    && (forall m | m in s.jobs :: m.scan in s.scans)
    && (forall m | m in s.events :: m.scan in s.scans)
    && (forall m | m in s.evaluates :: m.scan in s.scans)
    && (!s.ingestPc.IngestIdle? ==> s.ingestScan in s.scans)
    && (!s.policyPc.PolicyIdle? ==> s.policyScan in s.scans)
  }

  lemma ScansStay(setup: Setup, faults: Faults, s: System, step: Step)
    requires Enabled(faults, s, step)
    ensures s.scans.Keys <= Apply(setup, faults, s, step).scans.Keys
  {
  }

  lemma RootedPreserved(setup: Setup, faults: Faults, s: System, step: Step)
    requires Rooted(s) && Enabled(faults, s, step)
    ensures Rooted(Apply(setup, faults, s, step))
    ensures s.scans.Keys <= Apply(setup, faults, s, step).scans.Keys
  {
    ScansStay(setup, faults, s, step);
    var t := Apply(setup, faults, s, step);
    assert forall m | m in t.jobs :: m in s.jobs || m.scan in s.scans;
    assert forall m | m in t.events :: m in s.events || m.scan in s.scans;
    assert forall m | m in t.evaluates :: m in s.evaluates || m.scan in s.scans;
  }

  lemma {:induction false} NothingOf<T>(queue: seq<Message<T>>, id: ScanId)
    requires forall m | m in queue :: m.scan != id
    ensures Of(queue, id) == []
  {
    if queue != [] {
      assert queue[0] in queue;
      NothingOf(queue[1..], id);
    }
  }

  ghost predicate Seen(setup: Setup, faults: Faults, s: System, t: System, id: ScanId)
    requires id in s.scans
  {
    id in t.scans && (ViewOf(t, id) == ViewOf(s, id) || ViewNext(setup, faults, ViewOf(s, id), ViewOf(t, id)))
  }

  lemma ApiIsSeen(setup: Setup, faults: Faults, s: System, scan: ScanId, call: Call, id: ScanId)
    requires Enabled(faults, s, StepApi(scan, call)) && id in s.scans
    ensures var t := Apply(setup, faults, s, StepApi(scan, call));
            id in t.scans && ViewOf(t, id) == if scan == id then ViewApi(ViewOf(s, id), call) else ViewOf(s, id)
  {
    OfPush(s.jobs, scan, (), id);
    if scan == id {
      assert ViewOf(Apply(setup, faults, s, StepApi(scan, call)), id) == ViewApi(ViewOf(s, id), call);
    }
  }

  lemma JobIsSeen(setup: Setup, faults: Faults, s: System, id: ScanId)
    requires Enabled(faults, s, TakeJob) && id in s.scans
    ensures id in Apply(setup, faults, s, TakeJob).scans
    ensures var v, w, last := ViewOf(s, id), ViewOf(Apply(setup, faults, s, TakeJob), id), s.jobs[|s.jobs| - 1];
            (last.scan == id ==> v.jobs != [] && w == ViewTakeJob(v)) && (last.scan != id ==> w == v)
  {
    OfPop(s.jobs, id);
    if s.jobs[|s.jobs| - 1].scan == id {
      assert ViewOf(Apply(setup, faults, s, TakeJob), id) == ViewTakeJob(ViewOf(s, id));
    }
  }

  lemma CollectorIsSeen(setup: Setup, faults: Faults, s: System, step: Step, id: ScanId)
    requires (step.Announce? || step.SendReport?) && Enabled(faults, s, step) && id in s.scans
    ensures var t := Apply(setup, faults, s, step);
            id in t.scans && ViewOf(t, id) == if step.scan != id then ViewOf(s, id)
                                              else if step.Announce? then ViewAnnounce(ViewOf(s, id), step.wellFormed)
                                              else ViewReport(ViewOf(s, id), step.body)
  {
    var t := Apply(setup, faults, s, step);
    if step.Announce? {
      OfPush(s.events, step.scan, CollectionStarted(step.wellFormed), id);
      if step.scan == id {
        assert ViewOf(t, id) == ViewAnnounce(ViewOf(s, id), step.wellFormed);
      }
    } else {
      OfPush(s.events, step.scan, step.body, id);
      if step.scan == id {
        assert ViewOf(t, id) == ViewReport(ViewOf(s, id), step.body);
      }
    }
  }

  lemma EventIsSeen(setup: Setup, faults: Faults, s: System, id: ScanId)
    requires Enabled(faults, s, PopEvent) && id in s.scans
    ensures id in Apply(setup, faults, s, PopEvent).scans
    ensures var v, w, last := ViewOf(s, id), ViewOf(Apply(setup, faults, s, PopEvent), id), s.events[|s.events| - 1];
            (last.scan == id ==> v.events != [] && w == ViewPopEvent(v)) && (last.scan != id ==> w == v)
  {
    OfPop(s.events, id);
    if s.events[|s.events| - 1].scan == id {
      assert ViewOf(Apply(setup, faults, s, PopEvent), id) == ViewPopEvent(ViewOf(s, id));
    }
  }

  lemma IngestIsSeen(setup: Setup, faults: Faults, s: System, call: Call, id: ScanId)
    requires Enabled(faults, s, StepIngest(call)) && id in s.scans
    ensures var t := Apply(setup, faults, s, StepIngest(call));
            id in t.scans && ViewOf(t, id) == if s.ingestScan == id then ViewIngest(ViewOf(s, id), call) else ViewOf(s, id)
  {
    if Publishes(s.ingestPc, call) {
      OfPush(s.evaluates, s.ingestScan, s.ingestPc.report.status, id);
    }
    if s.ingestScan == id {
      assert ViewOf(Apply(setup, faults, s, StepIngest(call)), id) == ViewIngest(ViewOf(s, id), call);
    }
  }

  lemma EvaluateIsSeen(setup: Setup, faults: Faults, s: System, id: ScanId)
    requires Enabled(faults, s, PopEvaluate) && id in s.scans
    ensures id in Apply(setup, faults, s, PopEvaluate).scans
    ensures var v, w, last := ViewOf(s, id), ViewOf(Apply(setup, faults, s, PopEvaluate), id), s.evaluates[|s.evaluates| - 1];
            (last.scan == id ==> v.evaluates != [] && w == ViewPopEvaluate(v)) && (last.scan != id ==> w == v)
  {
    OfPop(s.evaluates, id);
    if s.evaluates[|s.evaluates| - 1].scan == id {
      assert ViewOf(Apply(setup, faults, s, PopEvaluate), id) == ViewPopEvaluate(ViewOf(s, id));
    }
  }

  lemma PolicyIsSeen(setup: Setup, faults: Faults, s: System, call: Call, id: ScanId)
    requires Enabled(faults, s, StepPolicy(call)) && id in s.scans
    ensures var t := Apply(setup, faults, s, StepPolicy(call));
            id in t.scans && ViewOf(t, id) == if s.policyScan == id then ViewPolicy(setup, ViewOf(s, id), call) else ViewOf(s, id)
  {
    if s.policyScan == id {
      assert ViewOf(Apply(setup, faults, s, StepPolicy(call)), id) == ViewPolicy(setup, ViewOf(s, id), call);
    }
  }

  lemma RedeliverIsSeen(setup: Setup, faults: Faults, s: System, scan: ScanId, id: ScanId)
    requires Enabled(faults, s, Redeliver(scan)) && id in s.scans
    ensures var t := Apply(setup, faults, s, Redeliver(scan));
            id in t.scans && ViewOf(t, id) == if scan == id then ViewRedeliver(ViewOf(s, id)) else ViewOf(s, id)
  {
    OfPush(s.evaluates, scan, s.scans[scan].collector.body.report.value.status, id);
    if scan == id {
      assert ViewOf(Apply(setup, faults, s, Redeliver(scan)), id) == ViewRedeliver(ViewOf(s, id));
    }
  }

  /** A step of the system is one step, or none, in the view of every scan. */
  lemma StepIsViewStep(setup: Setup, faults: Faults, s: System, step: Step, id: ScanId)
    requires Enabled(faults, s, step) && id in s.scans
    ensures Seen(setup, faults, s, Apply(setup, faults, s, step), id)
  {
    match step
    case CreateScan(_, _, _) =>
    case StepApi(scan, call) => ApiIsSeen(setup, faults, s, scan, call, id);
    case TakeJob => JobIsSeen(setup, faults, s, id);
    case Announce(_, _) => CollectorIsSeen(setup, faults, s, step, id);
    case SendReport(_, _) => CollectorIsSeen(setup, faults, s, step, id);
    case PopEvent => EventIsSeen(setup, faults, s, id);
    case StepIngest(call) => IngestIsSeen(setup, faults, s, call, id);
    case PopEvaluate => EvaluateIsSeen(setup, faults, s, id);
    case StepPolicy(call) => PolicyIsSeen(setup, faults, s, call, id);
    case Redeliver(scan) => RedeliverIsSeen(setup, faults, s, scan, id);
  }

  lemma CreatedView(setup: Setup, faults: Faults, s: System, step: Step, id: ScanId)
    requires Rooted(s) && Enabled(faults, s, step) && id !in s.scans && id in Apply(setup, faults, s, step).scans
    ensures NewView(ViewOf(Apply(setup, faults, s, step), id))
  {
    assert step.CreateScan? && step.scan == id;
    NothingOf(s.jobs, id);
    NothingOf(s.events, id);
    NothingOf(s.evaluates, id);
  }
}
