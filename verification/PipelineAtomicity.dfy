/** A handler interleaved with every other actor leaves what it leaves when run alone. */
module PipelineAtomicity {
  import opened Wrappers
  import opened PipelineModel
  import opened PipelineViews
  import opened PipelineSafety
  import opened Handlers

  /** The state after more steps from s. */
  function RunFrom(setup: Setup, faults: Faults, s: System, steps: seq<Step>): Option<System>
    decreases |steps|
  {
    if steps == [] then Some(s)
    else if Enabled(faults, s, steps[0]) then RunFrom(setup, faults, Apply(setup, faults, s, steps[0]), steps[1..])
    else None
  }

  // ----- the policy worker

  /** Until the last step the policy worker is busy, and the calls it makes are these, from the n-th. */
  predicate PolicyAtWork(setup: Setup, faults: Faults, s: System, steps: seq<Step>, calls: Calls, n: nat)
    decreases |steps|
  {
    steps == [] ||
    (&& !s.policyPc.PolicyIdle? && Enabled(faults, s, steps[0])
     && (steps[0].StepPolicy? ==> calls(n) == steps[0].call)
     && PolicyAtWork(setup, faults, Apply(setup, faults, s, steps[0]), steps[1..], calls, if steps[0].StepPolicy? then n + 1 else n))
  }

  lemma BusyPolicyIsAlone(faults: Faults, v: View)
    requires Staged(faults, v) && !v.policy.PolicyIdle?
    ensures v.ingest.IngestIdle? && v.scan.api.ApiDone?
  {
  }

  /** While the policy worker has a scan nobody else writes that scan's rows. */
  lemma OthersSpareEvaluatedScan(setup: Setup, faults: Faults, s: System, step: Step)
    requires AllStaged(faults, s) && Enabled(faults, s, step)
    requires !s.policyPc.PolicyIdle? && !step.StepPolicy?
    ensures var t := Apply(setup, faults, s, step);
            && s.policyScan in s.scans && s.policyScan in t.scans
            && t.scans[s.policyScan].cell == s.scans[s.policyScan].cell
            && t.policyPc == s.policyPc && t.policyScan == s.policyScan
  {
    assert Staged(faults, ViewOf(s, s.policyScan));
    BusyPolicyIsAlone(faults, ViewOf(s, s.policyScan));
  }

  lemma PolicyStaysOnCourse(setup: Setup, faults: Faults, s: System, step: Step, calls: Calls, n: nat)
    requires AllStaged(faults, s) && Enabled(faults, s, step)
    requires !s.policyPc.PolicyIdle? && (step.StepPolicy? ==> calls(n) == step.call)
    ensures var t := Apply(setup, faults, s, step);
            && t.policyScan == s.policyScan && s.policyScan in s.scans && s.policyScan in t.scans
            && PolicyRun(setup, s.scans[s.policyScan].cell, s.policyPc, calls, n)
               == PolicyRun(setup, t.scans[s.policyScan].cell, t.policyPc, calls, if step.StepPolicy? then n + 1 else n)
  {
    if !step.StepPolicy? {
      OthersSpareEvaluatedScan(setup, faults, s, step);
    }
  }

  lemma {:induction false} EvaluationStaysOnCourse(setup: Setup, faults: Faults, s: System, steps: seq<Step>,
                                                   calls: Calls, n: nat)
    requires !faults.phantomPublish && AllStaged(faults, s) && s.policyScan in s.scans
    requires PolicyAtWork(setup, faults, s, steps, calls, n)
    ensures RunFrom(setup, faults, s, steps).Some?
    ensures var t := RunFrom(setup, faults, s, steps).value;
            t.policyPc.PolicyIdle? ==>
              && s.policyScan in t.scans
              && t.scans[s.policyScan].cell == PolicyRun(setup, s.scans[s.policyScan].cell, s.policyPc, calls, n)
    decreases |steps|
  {
    if steps != [] {
      PolicyStaysOnCourse(setup, faults, s, steps[0], calls, n);
      StepKeepsAllStaged(setup, faults, s, steps[0]);
      EvaluationStaysOnCourse(setup, faults, Apply(setup, faults, s, steps[0]), steps[1..], calls, if steps[0].StepPolicy? then n + 1 else n);
    }
  }

  // ----- the ingest worker

  predicate IngestAtWork(setup: Setup, faults: Faults, s: System, steps: seq<Step>, calls: Calls, n: nat)
    decreases |steps|
  {
    steps == [] ||
    (&& !s.ingestPc.IngestIdle? && Enabled(faults, s, steps[0])
     && (steps[0].StepIngest? ==> calls(n) == steps[0].call)
     && IngestAtWork(setup, faults, Apply(setup, faults, s, steps[0]), steps[1..], calls, if steps[0].StepIngest? then n + 1 else n))
  }

  lemma BusyIngestIsAlone(faults: Faults, v: View)
    requires Staged(faults, v) && !v.ingest.IngestIdle?
    ensures v.policy.PolicyIdle? && v.scan.api.ApiDone?
  {
  }

  lemma OthersSpareIngestedScan(setup: Setup, faults: Faults, s: System, step: Step)
    requires AllStaged(faults, s) && Enabled(faults, s, step)
    requires !s.ingestPc.IngestIdle? && !step.StepIngest?
    ensures var t := Apply(setup, faults, s, step);
            && s.ingestScan in s.scans && s.ingestScan in t.scans
            && t.scans[s.ingestScan].cell == s.scans[s.ingestScan].cell
            && t.ingestPc == s.ingestPc && t.ingestScan == s.ingestScan
  {
    assert Staged(faults, ViewOf(s, s.ingestScan));
    BusyIngestIsAlone(faults, ViewOf(s, s.ingestScan));
  }

  lemma IngestStaysOnCourse(setup: Setup, faults: Faults, s: System, step: Step, calls: Calls, n: nat)
    requires AllStaged(faults, s) && Enabled(faults, s, step)
    requires !s.ingestPc.IngestIdle? && (step.StepIngest? ==> calls(n) == step.call)
    ensures var t := Apply(setup, faults, s, step);
            && t.ingestScan == s.ingestScan && s.ingestScan in s.scans && s.ingestScan in t.scans
            && IngestRun(s.scans[s.ingestScan].cell, s.ingestPc, calls, n).0
               == IngestRun(t.scans[s.ingestScan].cell, t.ingestPc, calls, if step.StepIngest? then n + 1 else n).0
  {
    if !step.StepIngest? {
      OthersSpareIngestedScan(setup, faults, s, step);
    }
  }

  lemma {:induction false} IngestionStaysOnCourse(setup: Setup, faults: Faults, s: System, steps: seq<Step>, calls: Calls, n: nat)
    requires !faults.phantomPublish && AllStaged(faults, s) && s.ingestScan in s.scans
    requires IngestAtWork(setup, faults, s, steps, calls, n)
    ensures RunFrom(setup, faults, s, steps).Some?
    ensures var t := RunFrom(setup, faults, s, steps).value;
            t.ingestPc.IngestIdle? ==>
              && s.ingestScan in t.scans
              && t.scans[s.ingestScan].cell == IngestRun(s.scans[s.ingestScan].cell, s.ingestPc, calls, n).0
    decreases |steps|
  {
    if steps != [] {
      IngestStaysOnCourse(setup, faults, s, steps[0], calls, n);
      StepKeepsAllStaged(setup, faults, s, steps[0]);
      IngestionStaysOnCourse(setup, faults, Apply(setup, faults, s, steps[0]), steps[1..], calls, if steps[0].StepIngest? then n + 1 else n);
    }
  }

  // ----- from every reachable state

  lemma ReachableIsStaged(setup: Setup, faults: Faults, s: System)
    requires !faults.phantomPublish && Reachable(setup, faults, s)
    ensures AllStaged(faults, s)
  {
    var steps :| After(setup, faults, steps) == Some(s);
    RunsStayStaged(setup, faults, steps);
  }

  /** When the policy worker is done with a scan, the scan's rows are those its handler leaves when
      run alone with the same calls, whatever the other actors did in between. */
  lemma EvaluationIsAtomic(setup: Setup, faults: Faults, s: System, steps: seq<Step>, calls: Calls)
    requires !faults.phantomPublish && Reachable(setup, faults, s) && s.policyScan in s.scans
    requires PolicyAtWork(setup, faults, s, steps, calls, 0)
    ensures RunFrom(setup, faults, s, steps).Some?
    ensures var t := RunFrom(setup, faults, s, steps).value;
            t.policyPc.PolicyIdle? ==>
              && s.policyScan in t.scans
              && t.scans[s.policyScan].cell == PolicyRun(setup, s.scans[s.policyScan].cell, s.policyPc, calls, 0)
  {
    ReachableIsStaged(setup, faults, s);
    EvaluationStaysOnCourse(setup, faults, s, steps, calls, 0);
  }

  /** The same for the ingest worker. */
  lemma IngestIsAtomic(setup: Setup, faults: Faults, s: System, steps: seq<Step>, calls: Calls)
    requires !faults.phantomPublish && Reachable(setup, faults, s) && s.ingestScan in s.scans
    requires IngestAtWork(setup, faults, s, steps, calls, 0)
    ensures RunFrom(setup, faults, s, steps).Some?
    ensures var t := RunFrom(setup, faults, s, steps).value;
            t.ingestPc.IngestIdle? ==>
              && s.ingestScan in t.scans
              && t.scans[s.ingestScan].cell == IngestRun(s.scans[s.ingestScan].cell, s.ingestPc, calls, 0).0
  {
    ReachableIsStaged(setup, faults, s);
    IngestionStaysOnCourse(setup, faults, s, steps, calls, 0);
  }
}
