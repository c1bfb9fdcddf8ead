/** The past of a scan: when its time stamps are set, and how many statuses it can go through. */
module PipelineHistory {
  import opened Wrappers
  import opened ScanLifecycle
  import opened PipelineModel
  import opened PipelineViews
  import opened PipelineSafety

  // ----- time stamps, under every fault

  /** Something beyond the scan's creation has happened or is about to. */
  predicate Active(v: View) {
    || v.jobs != [] || v.events != [] || v.evaluates != []
    || !v.scan.collector.NoJob? || v.scan.api.PushJob?
    || !v.ingest.IngestIdle? || !v.policy.PolicyIdle?
  }

  predicate Stamped(v: View) {
    var cell := v.scan.cell;
    && (cell.status in TERMINAL_STATUSES ==> cell.completedAt.Some?)
    && (cell.status != Created || Active(v) ==> cell.startedAt.Some?)
  }

  lemma ApiStamps(v: View, call: Call)
    requires Stamped(v) && !v.scan.api.ApiDone?
    ensures Stamped(ViewApi(v, call))
  {
  }

  lemma IngestStamps(v: View, call: Call)
    requires Stamped(v) && !v.ingest.IngestIdle?
    ensures Stamped(ViewIngest(v, call))
  {
  }

  lemma PolicyStamps(setup: Setup, v: View, call: Call)
    requires Stamped(v) && !v.policy.PolicyIdle?
    ensures Stamped(ViewPolicy(setup, v, call))
  {
  }

  lemma NextStamps(setup: Setup, faults: Faults, v: View, w: View)
    requires Stamped(v) && ViewNext(setup, faults, v, w)
    ensures Stamped(w)
  {
    if call: Call :| !v.scan.api.ApiDone? && w == ViewApi(v, call) {
      ApiStamps(v, call);
    } else if call: Call :| !v.ingest.IngestIdle? && IngestMay(faults, v.ingest, call) && w == ViewIngest(v, call) {
      IngestStamps(v, call);
    } else if call: Call :| !v.policy.PolicyIdle? && PolicyMay(faults, v.policy, call) && w == ViewPolicy(setup, v, call) {
      PolicyStamps(setup, v, call);
    } else {
      QuietStepsStamp(v, w);
    }
  }

  lemma QuietStepsStamp(v: View, w: View)
    requires Stamped(v)
    requires
      || (v.jobs != [] && w == ViewTakeJob(v))
      || (exists wellFormed: bool :: v.scan.collector.HasJob? && w == ViewAnnounce(v, wellFormed))
      || (exists body: EventBody :: v.scan.collector.Announced? && w == ViewReport(v, body))
      || (v.ingest.IngestIdle? && v.events != [] && w == ViewPopEvent(v))
      || (v.policy.PolicyIdle? && v.evaluates != [] && w == ViewPopEvaluate(v))
      || (HasReport(v.scan.collector) && w == ViewRedeliver(v))
    ensures Stamped(w)
  {
  }

  lemma {:induction false} RunsStayStamped(setup: Setup, faults: Faults, steps: seq<Step>)
    requires After(setup, faults, steps).Some?
    ensures var s := After(setup, faults, steps).value; Rooted(s) && forall id | id in s.scans :: Stamped(ViewOf(s, id))
  {
    if steps != [] {
      var init, step := steps[..|steps| - 1], steps[|steps| - 1];
      RunsStayStamped(setup, faults, init);
      var s, t := After(setup, faults, init).value, After(setup, faults, steps).value;
      RootedPreserved(setup, faults, s, step);
      forall id | id in t.scans ensures Stamped(ViewOf(t, id)) {
        if id in s.scans {
          StepIsViewStep(setup, faults, s, step, id);
          if ViewOf(t, id) != ViewOf(s, id) {
            NextStamps(setup, faults, ViewOf(s, id), ViewOf(t, id));
          }
        } else {
          CreatedView(setup, faults, s, step, id);
        }
      }
    }
  }

  /** In every run, whatever fails: a scan in a terminal status has completed_at set, and one that
      left CREATED has started_at set. */
  lemma TerminalIsStamped(setup: Setup, faults: Faults, steps: seq<Step>, id: ScanId)
    requires After(setup, faults, steps).Some? && id in After(setup, faults, steps).value.scans
    ensures var cell := After(setup, faults, steps).value.scans[id].cell;
            && (cell.status in TERMINAL_STATUSES ==> cell.completedAt.Some?)
            && (cell.status != Created ==> cell.startedAt.Some?)
  {
    RunsStayStamped(setup, faults, steps);
    assert Stamped(ViewOf(After(setup, faults, steps).value, id));
  }

  predicate KeepsStamps(before: Cell, after: Cell) {
    && (before.startedAt.Some? ==> after.startedAt == before.startedAt)
    && (before.completedAt.Some? ==> after.completedAt.Some?)
  }

  lemma CallsKeepStamps(cell: Cell, api: ApiPc, ingest: IngestPc, call: Call)
    ensures KeepsStamps(cell, ApiCell(cell, api, call))
    ensures KeepsStamps(cell, IngestCell(cell, ingest, call))
  {
  }

  lemma PolicyKeepsStamps(setup: Setup, cell: Cell, policy: PolicyPc, call: Call)
    ensures KeepsStamps(cell, PolicyCell(setup, cell, policy, call))
  {
  }

  lemma StepKeepsStamps(setup: Setup, faults: Faults, s: System, step: Step, id: ScanId)
    requires Enabled(faults, s, step) && id in s.scans
    ensures KeepsStamps(s.scans[id].cell, Apply(setup, faults, s, step).scans[id].cell)
  {
    if step.StepApi? || step.StepIngest? {
      CallsKeepStamps(s.scans[id].cell, s.scans[id].api, s.ingestPc, step.call);
    } else if step.StepPolicy? {
      PolicyKeepsStamps(setup, s.scans[id].cell, s.policyPc, step.call);
    }
  }

  /** The call a step makes for this scan, if it makes one. */
  function CallFor(s: System, step: Step, id: ScanId): Option<Call> {
    match step
    case StepApi(scan, call) => if scan == id then Some(call) else None
    case StepIngest(call) => if s.ingestScan == id then Some(call) else None
    case StepPolicy(call) => if s.policyScan == id then Some(call) else None
    case _ => None
  }

  /** A time stamp only ever takes the time of the call that writes it: completed_at with a terminal
      status, started_at once. */
  predicate StampedBy(before: Cell, after: Cell, call: Call) {
    && (after.completedAt != before.completedAt ==> after.completedAt == Some(call.now) && after.status in TERMINAL_STATUSES)
    && (after.status in TERMINAL_STATUSES && after.status != before.status ==> after.completedAt == Some(call.now))
    && (after.startedAt != before.startedAt ==> before.startedAt == None && after.startedAt == Some(call.now))
  }

  lemma CallsStamp(cell: Cell, api: ApiPc, ingest: IngestPc, call: Call)
    ensures StampedBy(cell, ApiCell(cell, api, call), call)
    ensures StampedBy(cell, IngestCell(cell, ingest, call), call)
  {
  }

  lemma PolicyCallsStamp(setup: Setup, cell: Cell, policy: PolicyPc, call: Call)
    requires policy.FinalStatus? ==> policy.status in TERMINAL_STATUSES
    ensures StampedBy(cell, PolicyCell(setup, cell, policy, call), call)
  {
  }

  lemma StepStamps(setup: Setup, faults: Faults, s: System, step: Step, id: ScanId)
    requires !faults.phantomPublish && AllStaged(faults, s) && Enabled(faults, s, step) && id in s.scans
    ensures var t := Apply(setup, faults, s, step);
            && id in t.scans
            && (CallFor(s, step, id).None? ==> t.scans[id].cell == s.scans[id].cell)
            && (CallFor(s, step, id).Some? ==> StampedBy(s.scans[id].cell, t.scans[id].cell, CallFor(s, step, id).value))
  {
    if step.StepPolicy? {
      PolicyStepStamps(setup, faults, s, step, id);
    } else if step.StepIngest? {
      IngestStepStamps(setup, faults, s, step, id);
    } else if step.StepApi? {
      CallsStamp(s.scans[id].cell, s.scans[id].api, s.ingestPc, step.call);
    }
  }

  lemma IngestStepStamps(setup: Setup, faults: Faults, s: System, step: Step, id: ScanId)
    requires Enabled(faults, s, step) && id in s.scans && step.StepIngest?
    ensures var t := Apply(setup, faults, s, step);
            && id in t.scans
            && (s.ingestScan != id ==> t.scans[id].cell == s.scans[id].cell)
            && (s.ingestScan == id ==> StampedBy(s.scans[id].cell, t.scans[id].cell, step.call))
  {
    if s.ingestScan == id {
      CallsStamp(s.scans[id].cell, s.scans[id].api, s.ingestPc, step.call);
    }
  }

  lemma PolicyStepStamps(setup: Setup, faults: Faults, s: System, step: Step, id: ScanId)
    requires !faults.phantomPublish && AllStaged(faults, s) && Enabled(faults, s, step) && id in s.scans && step.StepPolicy?
    ensures var t := Apply(setup, faults, s, step);
            && id in t.scans
            && (s.policyScan != id ==> t.scans[id].cell == s.scans[id].cell)
            && (s.policyScan == id ==> StampedBy(s.scans[id].cell, t.scans[id].cell, step.call))
  {
    if s.policyScan == id {
      FinalIsTerminal(faults, ViewOf(s, id));
      PolicyCallsStamp(setup, s.scans[id].cell, s.policyPc, step.call);
    }
  }

  lemma FinalIsTerminal(faults: Faults, v: View)
    requires Staged(faults, v)
    ensures v.policy.FinalStatus? ==> v.policy.status in TERMINAL_STATUSES
  {
  }

  /** In every run a step changes a scan's rows only by a call it makes for that scan, and stamps it with
      the time of that call. */
  lemma StampsAreCallTimes(setup: Setup, faults: Faults, steps: seq<Step>, step: Step, id: ScanId)
    requires !faults.phantomPublish && After(setup, faults, steps).Some? && Enabled(faults, After(setup, faults, steps).value, step)
    requires id in After(setup, faults, steps).value.scans
    ensures var s := After(setup, faults, steps).value;
            var t := Apply(setup, faults, s, step);
            && id in t.scans
            && (CallFor(s, step, id).None? ==> t.scans[id].cell == s.scans[id].cell)
            && (CallFor(s, step, id).Some? ==> StampedBy(s.scans[id].cell, t.scans[id].cell, CallFor(s, step, id).value))
  {
    RunsStayStaged(setup, faults, steps);
    StepStamps(setup, faults, After(setup, faults, steps).value, step, id);
  }

  /** In every run, whatever fails: once set, started_at never changes and completed_at stays set. */
  lemma {:induction false} StampsPersist(setup: Setup, faults: Faults, steps: seq<Step>, n: nat, id: ScanId)
    requires n <= |steps| && After(setup, faults, steps).Some? && After(setup, faults, steps[..n]).Some?
    requires id in After(setup, faults, steps[..n]).value.scans
    ensures id in After(setup, faults, steps).value.scans
    ensures var before, after := After(setup, faults, steps[..n]).value.scans[id].cell, After(setup, faults,
                                       steps).value.scans[id].cell;
            && (before.startedAt.Some? ==> after.startedAt == before.startedAt)
            && (before.completedAt.Some? ==> after.completedAt.Some?)
  {
    if n == |steps| {
      assert steps[..n] == steps;
    } else {
      var init := steps[..|steps| - 1];
      assert init[..n] == steps[..n];
      StampsPersist(setup, faults, init, n, id);
      StepKeepsStamps(setup, faults, After(setup, faults, init).value, steps[|steps| - 1], id);
    }
  }

  // ----- the statuses a scan goes through

  /** The statuses of one scan over a run, from its creation on, without repetition. */
  function History(setup: Setup, faults: Faults, steps: seq<Step>, id: ScanId): seq<ScanStatus>
    requires After(setup, faults, steps).Some?
  {
    if steps == [] then []
    else
      var init := steps[..|steps| - 1];
      var before, s := History(setup, faults, init, id), After(setup, faults, steps).value;
      if id !in s.scans then before
      else if id in After(setup, faults, init).value.scans
              && After(setup, faults, init).value.scans[id].cell.status == s.scans[id].cell.status then before
      else before + [s.scans[id].cell.status]
  }

  lemma WalkGrows(path: seq<ScanStatus>, status: ScanStatus)
    requires IsWalk(path) && path != [] && Allowed(path[|path| - 1], status)
    ensures IsWalk(path + [status])
  {
  }

  lemma {:induction false} HistoryIsWalk(setup: Setup, faults: Faults, steps: seq<Step>, id: ScanId)
    requires !faults.startLost && !faults.lateRaise && !faults.phantomPublish
    requires After(setup, faults, steps).Some?
    ensures var path, s := History(setup, faults, steps, id), After(setup, faults, steps).value;
            && IsWalk(path)
            && (id !in s.scans ==> path == [])
            && (id in s.scans ==> path != [] && path[0] == Created && path[|path| - 1] == s.scans[id].cell.status)
  {
    if steps != [] {
      var init, step := steps[..|steps| - 1], steps[|steps| - 1];
      HistoryIsWalk(setup, faults, init, id);
      var before, s := After(setup, faults, init).value, After(setup, faults, steps).value;
      assert Enabled(faults, before, step) && s == Apply(setup, faults, before, step);
      ScansStay(setup, faults, before, step);
      if id in before.scans {
        StatusChangesFollow(setup, faults, init, step, id);
        if s.scans[id].cell.status != before.scans[id].cell.status {
          WalkGrows(History(setup, faults, init, id), s.scans[id].cell.status);
        }
      } else if id in s.scans {
        assert s.scans[id].cell.status == Created;
      }
    }
  }

  /** With the three assumptions a scan goes through the table from CREATED, in at most eight
      changes of status plus two for each re-evaluation. */
  lemma StatusChangesAreBounded(setup: Setup, faults: Faults, steps: seq<Step>, id: ScanId)
    requires !faults.startLost && !faults.lateRaise && !faults.phantomPublish
    requires After(setup, faults, steps).Some? && id in After(setup, faults, steps).value.scans
    ensures var path := History(setup, faults, steps, id);
            IsWalk(path) && |path| - 1 <= 8 + 2 * Reevaluations(path)
  {
    HistoryIsWalk(setup, faults, steps, id);
    WalkBound(History(setup, faults, steps, id));
  }
}
