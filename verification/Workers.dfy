/** The handlers as the workers execute them, statement by statement, over the stored rows and the
    Redis lists. A call that raises hands control to the enclosing except path, or ends the handler. */
module Workers {
  import opened Wrappers
  import opened ScanLifecycle
  import opened Assets
  import opened Findings
  import opened ComplianceMapping
  import opened Tables
  import opened PipelineModel
  import opened Handlers

  /** The rows of every scan; each method is one transaction. */
  class Database {
    var cells: map<ScanId, Cell>

    constructor ()
      ensures cells == map[]
    {
      cells := map[];
    }

    method Create(scan: ScanId, accountId: string, runStatus: string, call: Call) returns (raised: bool)
      requires scan !in cells
      modifies this
      ensures cells == if Took(call) then old(cells)[scan := NewCell(accountId, runStatus)] else old(cells)
      ensures raised == !Returned(call)
    {
      if call.outcome != RaiseBefore {
        cells := cells[scan := NewCell(accountId, runStatus)];
      }
      raised := call.outcome != Ok;
    }

    /** An UPDATE of a scan without a row changes nothing. */
    method UpdateStatus(scan: ScanId, status: ScanStatus, started: bool, completed: bool, call: Call) returns (raised: bool)
      modifies this
      ensures cells == if scan in old(cells)
                       then old(cells)[scan := PipelineModel.UpdateStatus(old(cells[scan]), status, started, completed, call)]
                       else old(cells)
      ensures raised == !Returned(call)
    {
      if scan in cells {
        var cell := cells[scan];
        if call.outcome != RaiseBefore {
          cell := cell.(status := status);
          if started && cell.startedAt == None {
            cell := cell.(startedAt := Some(call.now));
          }
          if completed {
            cell := cell.(completedAt := Some(call.now));
          }
        }
        cells := cells[scan := cell];
      }
      raised := call.outcome != Ok;
    }

    method UpdateCollectionRun(scan: ScanId, status: string, call: Call) returns (raised: bool)
      modifies this
      ensures cells == if scan in old(cells) then old(cells)[scan := UpdateRun(old(cells[scan]), status, call)] else old(cells)
      ensures raised == !Returned(call)
    {
      if scan in cells {
        var cell := cells[scan];
        if call.outcome != RaiseBefore {
          cell := cell.(runStatus := status);
        }
        cells := cells[scan := cell];
      }
      raised := call.outcome != Ok;
    }

    method InsertResource(scan: ScanId, row: Resource, call: Call) returns (raised: bool)
      requires scan in cells
      modifies this
      ensures cells == old(cells)[scan :=
                if Took(call) then old(cells[scan]).(
                  resources := InsertNew(old(cells[scan]).resources, row.resourceId, row),
                  ingestedAt := InsertNew(old(cells[scan]).ingestedAt, row.resourceId, call.now))
                else old(cells[scan])]
      ensures raised == !Returned(call)
    {
      var cell := cells[scan];
      if call.outcome != RaiseBefore {
        if row.resourceId !in cell.resources {
          cell := cell.(resources := cell.resources[row.resourceId := row]);
        }
        if row.resourceId !in cell.ingestedAt {
          cell := cell.(ingestedAt := cell.ingestedAt[row.resourceId := call.now]);
        }
      }
      cells := cells[scan := cell];
      raised := call.outcome != Ok;
    }

    method InsertRelationship(scan: ScanId, edge: Edge, call: Call) returns (raised: bool)
      requires scan in cells
      modifies this
      ensures cells == old(cells)[scan := old(cells[scan]).(relationships :=
                if Took(call) then old(cells[scan]).relationships + {edge} else old(cells[scan]).relationships)]
      ensures raised == !Returned(call)
    {
      var relationships := cells[scan].relationships;
      if call.outcome != RaiseBefore && edge !in relationships {
        relationships := relationships + {edge};
      }
      assert Took(call) ==> relationships == cells[scan].relationships + {edge};
      cells := cells[scan := cells[scan].(relationships := relationships)];
      raised := call.outcome != Ok;
    }

    method StartEvaluationRun(scan: ScanId, call: Call) returns (raised: bool)
      requires scan in cells
      modifies this
      ensures cells == old(cells)[scan := old(cells[scan]).(evaluation :=
                if Took(call) then Some(STARTED_EVALUATION) else old(cells[scan]).evaluation)]
      ensures raised == !Returned(call)
    {
      var evaluation := cells[scan].evaluation;
      if call.outcome != RaiseBefore {
        evaluation := Some(EvaluationRun(true, false, 0, 0, 0));
      }
      cells := cells[scan := cells[scan].(evaluation := evaluation)];
      raised := call.outcome != Ok;
    }

    method CompleteEvaluationRun(scan: ScanId, run: EvaluationRun, call: Call) returns (raised: bool)
      requires scan in cells
      modifies this
      ensures cells == old(cells)[scan := SetEvaluation(old(cells[scan]), run, call)]
      ensures raised == !Returned(call)
    {
      var evaluation := cells[scan].evaluation;
      if call.outcome != RaiseBefore && evaluation.Some? {
        evaluation := Some(run);
      }
      cells := cells[scan := cells[scan].(evaluation := evaluation)];
      raised := call.outcome != Ok;
    }

    method UpsertFinding(scan: ScanId, draft: Draft, call: Call) returns (raised: bool)
      requires scan in cells
      modifies this
      ensures cells == old(cells)[scan := old(cells[scan]).(findings :=
                if Took(call) then Upsert(old(cells[scan]).findings, draft) else old(cells[scan]).findings)]
      ensures raised == !Returned(call)
    {
      var findings := cells[scan].findings;
      if call.outcome != RaiseBefore {
        findings := Upsert(findings, draft);
      }
      cells := cells[scan := cells[scan].(findings := findings)];
      raised := call.outcome != Ok;
    }

    method WriteComplianceRow(scan: ScanId, write: ComplianceWrite, call: Call) returns (raised: bool)
      requires scan in cells
      modifies this
      ensures cells == old(cells)[scan := old(cells[scan]).(tables :=
                if Took(call) then Write(old(cells[scan]).tables, write) else old(cells[scan]).tables)]
      ensures raised == !Returned(call)
    {
      var tables := cells[scan].tables;
      if call.outcome != RaiseBefore {
        tables := Write(tables, write);
      }
      cells := cells[scan := cells[scan].(tables := tables)];
      raised := call.outcome != Ok;
    }

    /** A read, or an insert into the event log. */
    method Ask(call: Call) returns (raised: bool)
      ensures raised == !Returned(call)
    {
      raised := call.outcome != Ok;
    }
  }

  class Redis {
    var jobs: seq<Message<()>>
    var evaluates: seq<Message<string>>

    constructor ()
      ensures jobs == [] && evaluates == []
    {
      jobs, evaluates := [], [];
    }

    method PushJob(scan: ScanId, call: Call) returns (raised: bool)
      modifies this`jobs
      ensures jobs == if Took(call) then Push(old(jobs), scan, ()) else old(jobs)
      ensures raised == !Returned(call)
    {
      if call.outcome != RaiseBefore {
        jobs := [Message(scan, ())] + jobs;
      }
      raised := call.outcome != Ok;
    }

    /** publish_policy_evaluate. */
    method PublishPolicyEvaluate(scan: ScanId, collectionStatus: string, call: Call) returns (raised: bool)
      modifies this`evaluates
      ensures evaluates == if Took(call) then Push(old(evaluates), scan, collectionStatus) else old(evaluates)
      ensures raised == !Returned(call)
    {
      if call.outcome != RaiseBefore {
        evaluates := [Message(scan, collectionStatus)] + evaluates;
      }
      raised := call.outcome != Ok;
    }
  }

  // ----- PolicyWorker

  lemma WriteRowRun(setup: Setup, cell: Cell, reported: string, writes: seq<ComplianceWrite>, i: nat, calls: Calls, n: nat)
    requires i < |writes|
    ensures PolicyRun(setup, cell, WriteFrom(setup, reported, writes, i), calls, n) ==
            PolicyRun(setup, cell.(tables := if Took(calls(n)) then Write(cell.tables, writes[i]) else cell.tables),
                      if Returned(calls(n)) then WriteFrom(setup, reported, writes, i + 1) else FailEvaluation(None), calls, n + 1)
  {
  }

  lemma UpsertRowRun(setup: Setup, cell: Cell, reported: string, drafts: seq<Draft>, i: nat, calls: Calls, n: nat)
    requires i < |drafts|
    ensures PolicyRun(setup, cell, UpsertFrom(reported, drafts, i), calls, n) ==
            PolicyRun(setup, cell.(findings := if Took(calls(n)) then Upsert(cell.findings, drafts[i]) else cell.findings),
                      if Returned(calls(n)) then UpsertFrom(reported, drafts, i + 1) else FailEvaluation(None), calls, n + 1)
  {
  }

  lemma LateRun(setup: Setup, cell: Cell, pc: PolicyPc, next: PolicyPc, calls: Calls, n: nat)
    requires pc.LogPolicyCompleted? || pc.LogComplianceUpdated? || pc.LogScanCompleted?
    requires next == PolicyNext(setup, cell, pc, Call(Ok, 0))
    ensures PolicyRun(setup, cell, pc, calls, n) ==
            PolicyRun(setup, cell, if Returned(calls(n)) then next else FailEvaluation(Some(pc.status)), calls, n + 1)
  {
  }

  lemma EventsRun(setup: Setup, cell: Cell, status: ScanStatus, calls: Calls, n: nat)
    ensures PolicyRun(setup, cell, LogPolicyCompleted(status), calls, n) ==
            if !Returned(calls(n)) then PolicyRun(setup, cell, FailEvaluation(Some(status)), calls, n + 1)
            else if !Returned(calls(n + 1)) then PolicyRun(setup, cell, FailEvaluation(Some(status)), calls, n + 2)
            else PolicyRun(setup, cell, if Returned(calls(n + 2)) then PolicyIdle else FailEvaluation(Some(status)), calls, n + 3)
  {
    LateRun(setup, cell, LogPolicyCompleted(status), LogComplianceUpdated(status), calls, n);
    if Returned(calls(n)) {
      LastEventsRun(setup, cell, status, calls, n + 1);
    }
  }

  lemma LastEventsRun(setup: Setup, cell: Cell, status: ScanStatus, calls: Calls, n: nat)
    ensures PolicyRun(setup, cell, LogComplianceUpdated(status), calls, n) ==
            if !Returned(calls(n)) then PolicyRun(setup, cell, FailEvaluation(Some(status)), calls, n + 1)
            else PolicyRun(setup, cell, if Returned(calls(n + 1)) then PolicyIdle else FailEvaluation(Some(status)), calls, n + 2)
  {
    LateRun(setup, cell, LogComplianceUpdated(status), LogScanCompleted(status), calls, n);
    LateRun(setup, cell, LogScanCompleted(status), PolicyIdle, calls, n + 1);
  }

  class PolicyWorker {
    const setup: Setup
    const db: Database

    constructor (setup: Setup, db: Database)
      ensures this.setup == setup && this.db == db
    {
      this.setup, this.db := setup, db;
    }

    /** The upserts of evaluate_scan. */
    method UpsertFindings(scan: ScanId, drafts: seq<Draft>, calls: Calls, first: nat, ghost reported: string)
      returns (raised: bool, n: nat)
      requires scan in db.cells
      modifies db
      ensures scan in db.cells && db.cells == old(db.cells)[scan := db.cells[scan]]
      ensures PolicyRun(setup, old(db.cells[scan]), UpsertFrom(reported, drafts, 0), calls, first) ==
              PolicyRun(setup, db.cells[scan], if raised then FailEvaluation(None) else CompleteEvaluation(reported, drafts), calls, n)
    {
      n := first;
      for i := 0 to |drafts|
        invariant scan in db.cells && db.cells == old(db.cells)[scan := db.cells[scan]]
        invariant PolicyRun(setup, old(db.cells[scan]), UpsertFrom(reported, drafts, 0), calls, first) ==
                  PolicyRun(setup, db.cells[scan], UpsertFrom(reported, drafts, i), calls, n)
      {
        UpsertRowRun(setup, db.cells[scan], reported, drafts, i, calls, n);
        raised := db.UpsertFinding(scan, drafts[i], calls(n));
        n := n + 1;
        if raised {
          return;
        }
      }
      raised := false;
    }

    method WriteRows(scan: ScanId, writes: seq<ComplianceWrite>, calls: Calls, first: nat, ghost reported: string)
      returns (raised: bool, n: nat)
      requires scan in db.cells
      modifies db
      ensures scan in db.cells && db.cells == old(db.cells)[scan := db.cells[scan]]
      ensures PolicyRun(setup, old(db.cells[scan]), WriteFrom(setup, reported, writes, 0), calls, first) ==
              PolicyRun(setup, db.cells[scan],
                        if raised then FailEvaluation(None) else WriteFrom(setup, reported, writes, |writes|), calls, n)
    {
      n := first;
      for i := 0 to |writes|
        invariant scan in db.cells && db.cells == old(db.cells)[scan := db.cells[scan]]
        invariant PolicyRun(setup, old(db.cells[scan]), WriteFrom(setup, reported, writes, 0), calls, first) ==
                  PolicyRun(setup, db.cells[scan], WriteFrom(setup, reported, writes, i), calls, n)
      {
        WriteRowRun(setup, db.cells[scan], reported, writes, i, calls, n);
        raised := db.WriteComplianceRow(scan, writes[i], calls(n));
        n := n + 1;
        if raised {
          return;
        }
      }
      raised := false;
    }

    /** The writes of map_scan; it raises LookupError when the primary framework is not enabled. */
    method MapScan(scan: ScanId, calls: Calls, first: nat, ghost reported: string) returns (raised: bool, n: nat)
      requires scan in db.cells
      modifies db
      ensures scan in db.cells && db.cells == old(db.cells)[scan := db.cells[scan]]
      ensures PolicyRun(setup, old(db.cells[scan]), ReadFindings(reported), calls, first) ==
              PolicyRun(setup, db.cells[scan], if raised then FailEvaluation(None) else LoadCollectionRun(reported), calls, n)
    {
      n := first;
      raised := db.Ask(calls(n));
      n := n + 1;
      if raised {
        return;
      }
      var writes := WritesFor(setup.catalog, setup.findingOrder(db.cells[scan].findings.rows));
      assert PolicyRun(setup, old(db.cells[scan]), ReadFindings(reported), calls, first) ==
             PolicyRun(setup, db.cells[scan], WriteFrom(setup, reported, writes, 0), calls, n);
      raised, n := WriteRows(scan, writes, calls, n, reported);
      if !raised {
        raised := CUSTOMER_PRIMARY_FRAMEWORK !in setup.catalog;
      }
    }

    /** From the final status write to the end of the try block. */
    method Finish(scan: ScanId, reported: string, calls: Calls, first: nat)
      returns (raised: bool, n: nat, ghost after: Option<ScanStatus>)
      requires scan in db.cells
      modifies db
      ensures scan in db.cells && db.cells == old(db.cells)[scan := db.cells[scan]]
      ensures PolicyRun(setup, old(db.cells[scan]), LoadCollectionRun(reported), calls, first) ==
              PolicyRun(setup, db.cells[scan], if raised then FailEvaluation(after) else PolicyIdle, calls, n)
    {
      n, after := first, None;
      raised := db.Ask(calls(n));
      n := n + 1;
      if raised {
        return;
      }
      var run := db.cells[scan].runStatus;
      var collectionStatus := if run != "" then run else if reported != "" then reported else "completed";
      var finalStatus := if collectionStatus == "completed" then Completed else CompletedWithErrors;
      assert PolicyRun(setup, old(db.cells[scan]), LoadCollectionRun(reported), calls, first) ==
             PolicyRun(setup, db.cells[scan], FinalStatus(finalStatus), calls, n);
      raised := db.UpdateStatus(scan, finalStatus, false, true, calls(n));
      after := if calls(n).outcome == RaiseBefore then None else Some(finalStatus);
      n := n + 1;
      if raised {
        return;
      }
      assert PolicyRun(setup, old(db.cells[scan]), LoadCollectionRun(reported), calls, first) ==
             PolicyRun(setup, db.cells[scan], LogPolicyCompleted(finalStatus), calls, n);
      raised, n := AppendEvents(db.cells[scan], finalStatus, calls, n);
    }

    /** The three events appended when an evaluation is over. */
    method AppendEvents(ghost cell: Cell, ghost status: ScanStatus, calls: Calls, first: nat) returns (raised: bool, n: nat)
      ensures PolicyRun(setup, cell, LogPolicyCompleted(status), calls, first) ==
              PolicyRun(setup, cell, if raised then FailEvaluation(Some(status)) else PolicyIdle, calls, n)
    {
      EventsRun(setup, cell, status, calls, first);
      raised := db.Ask(calls(first));
      n := first + 1;
      if raised {
        return;
      }
      raised := db.Ask(calls(first + 1));
      n := first + 2;
      if raised {
        return;
      }
      raised := db.Ask(calls(first + 2));
      n := first + 3;
    }

    /** evaluate_scan and the count it stores. */
    method Judge(scan: ScanId, reported: string, calls: Calls, first: nat) returns (raised: bool, n: nat)
      requires scan in db.cells
      modifies db
      ensures scan in db.cells && db.cells == old(db.cells)[scan := db.cells[scan]]
      ensures PolicyRun(setup, old(db.cells[scan]), ListAssets(reported), calls, first) ==
              PolicyRun(setup, db.cells[scan], if raised then FailEvaluation(None) else ReadFindings(reported), calls, n)
    {
      n := first;
      raised := db.Ask(calls(n));
      n := n + 1;
      if raised {
        return;
      }
      ListRun(setup, db.cells[scan], reported, calls, first);
      var assets := ToAssets(setup.assetOrder(db.cells[scan].resources), db.cells[scan].ingestedAt, setup.iso);
      var drafts := Drafts(setup.policies, assets);
      raised, n := UpsertFindings(scan, drafts, calls, n, reported);
      if raised {
        return;
      }
      var run := EvaluationRun(false, false, |setup.policies|, |drafts|, FailCount(drafts));
      raised := db.CompleteEvaluationRun(scan, run, calls(n));
      n := n + 1;
    }

    /** The try block. */
    method Evaluate(scan: ScanId, reported: string, calls: Calls, first: nat)
      returns (raised: bool, n: nat, ghost after: Option<ScanStatus>)
      requires scan in db.cells
      modifies db
      ensures scan in db.cells && db.cells == old(db.cells)[scan := db.cells[scan]]
      ensures PolicyRun(setup, old(db.cells[scan]), ListAssets(reported), calls, first) ==
              PolicyRun(setup, db.cells[scan], if raised then FailEvaluation(after) else PolicyIdle, calls, n)
    {
      after := None;
      raised, n := Judge(scan, reported, calls, first);
      if raised {
        return;
      }
      raised, n := MapScan(scan, calls, n, reported);
      if raised {
        return;
      }
      raised, n, after := Finish(scan, reported, calls, n);
    }

    /** The except path. */
    method Fail(scan: ScanId, calls: Calls, first: nat, ghost after: Option<ScanStatus>)
      requires scan in db.cells
      modifies db
      ensures db.cells == old(db.cells)[scan := PolicyRun(setup, old(db.cells[scan]), FailEvaluation(after), calls, first)]
    {
      UnwindRun(setup, db.cells[scan], after, calls, first);
      var raised := db.CompleteEvaluationRun(scan, EvaluationRun(false, true, 0, 0, 0), calls(first));
      if raised {
        return;
      }
      raised := db.UpdateStatus(scan, Failed, false, true, calls(first + 1));
      if raised {
        return;
      }
      raised := db.Ask(calls(first + 2));
    }

    /** handle_event once the guard let the scan through. */
    method EvaluateScan(scan: ScanId, reported: string, calls: Calls)
      requires scan in db.cells
      modifies db
      ensures db.cells == old(db.cells)[scan := PolicyRun(setup, old(db.cells[scan]), EvaluatingStatus(reported), calls, 2)]
    {
      ghost var before := db.cells[scan];
      var raised := db.UpdateStatus(scan, Evaluating, false, false, calls(2));
      if raised {
        Ended(setup, db.cells[scan], calls, 3);
        return;
      }
      assert PolicyRun(setup, before, EvaluatingStatus(reported), calls, 2) ==
             PolicyRun(setup, db.cells[scan], StartEvaluation(reported), calls, 3);
      raised := db.StartEvaluationRun(scan, calls(3));
      if raised {
        Ended(setup, db.cells[scan], calls, 4);
        return;
      }
      assert PolicyRun(setup, before, EvaluatingStatus(reported), calls, 2) ==
             PolicyRun(setup, db.cells[scan], ListAssets(reported), calls, 4);
      var n;
      ghost var after;
      raised, n, after := Evaluate(scan, reported, calls, 4);
      if raised {
        Fail(scan, calls, n, after);
      }
    }

    /** PolicyWorker.handle_event. */
    method HandleEvent(eventType: string, scan: ScanId, reported: string, calls: Calls)
      modifies db
      ensures db.cells ==
              if eventType != "policy.evaluate" || scan !in old(db.cells) then old(db.cells)
              else old(db.cells)[scan := HandleEvaluate(setup, old(db.cells[scan]), reported, calls)]
    {
      if eventType != "policy.evaluate" {
        return;
      }
      var raised := db.Ask(calls(0));
      if !raised {
        raised := db.Ask(calls(1));
      }
      if scan !in db.cells {
        return;
      }
      ghost var before := db.cells[scan];
      assert db.cells[scan := before] == db.cells;
      GuardRun(setup, before, reported, calls);
      if raised {
        return;
      }
      var current := db.cells[scan].status;
      if current !in {InventoryReady, CompletedWithErrors} {
        return;
      }
      EvaluateScan(scan, reported, calls);
    }
  }

  /** The except path: the evaluation run is marked, and unless that raised the scan too. */
  lemma UnwindRun(setup: Setup, cell: Cell, after: Option<ScanStatus>, calls: Calls, n: nat)
    ensures PolicyRun(setup, cell, FailEvaluation(after), calls, n) ==
            var marked := SetEvaluation(cell, FAILED_EVALUATION, calls(n));
            if Returned(calls(n)) then PipelineModel.UpdateStatus(marked, Failed, false, true, calls(n + 1)) else marked
  {
    if Returned(calls(n)) {
      var marked := SetEvaluation(cell, FAILED_EVALUATION, calls(n));
      FailStatusRun(setup, marked, after, calls, n + 1);
      assert PolicyRun(setup, cell, FailEvaluation(after), calls, n) == PolicyRun(setup, marked, FailStatus(after), calls, n + 1);
    }
  }

  lemma FailStatusRun(setup: Setup, cell: Cell, after: Option<ScanStatus>, calls: Calls, n: nat)
    ensures PolicyRun(setup, cell, FailStatus(after), calls, n) == PipelineModel.UpdateStatus(cell, Failed, false, true, calls(n))
  {
    var failed := PipelineModel.UpdateStatus(cell, Failed, false, true, calls(n));
    if Returned(calls(n)) {
      Ended(setup, failed, calls, n + 2);
      assert PolicyRun(setup, failed, LogFailure, calls, n + 1) == failed;
    }
  }

  lemma Ended(setup: Setup, cell: Cell, calls: Calls, n: nat)
    ensures PolicyRun(setup, cell, PolicyIdle, calls, n) == cell
  {
  }

  lemma GuardRun(setup: Setup, cell: Cell, reported: string, calls: Calls)
    ensures HandleEvaluate(setup, cell, reported, calls) ==
            if Returned(calls(0)) && Returned(calls(1)) && Evaluable(cell.status)
            then PolicyRun(setup, cell, EvaluatingStatus(reported), calls, 2) else cell
  {
    Ended(setup, cell, calls, 1);
    Ended(setup, cell, calls, 2);
    if Returned(calls(0)) {
      assert HandleEvaluate(setup, cell, reported, calls) == PolicyRun(setup, cell, LoadScan(reported), calls, 1);
    }
  }

  // ----- IngestWorker

  lemma {:induction false} UnreadableFile(files: seq<Bronze>, accountId: string, n: nat)
    requires n <= |files| && NormalizeAll(files[..n], accountId).None?
    ensures NormalizeAll(files, accountId).None?
  {
    if n == |files| {
      assert files[..n] == files;
    } else {
      assert files[..|files| - 1][..n] == files[..n];
      UnreadableFile(files[..|files| - 1], accountId, n);
    }
  }

  /** The loop over the bronze files. */
  method NormalizeFiles(files: seq<Bronze>, accountId: string) returns (result: Option<Inventory>)
    ensures result == NormalizeAll(files, accountId)
  {
    var allResources: seq<Resource>, allRelationships: seq<Edge> := [], [];
    for i := 0 to |files|
      invariant NormalizeAll(files[..i], accountId) == Some(Inventory(allResources, allRelationships))
    {
      assert files[..i + 1][..i] == files[..i];
      var one := NormalizeBronze(files[i], accountId);
      if one.None? {
        UnreadableFile(files, accountId, i + 1);
        return None;
      }
      allResources := allResources + one.value.resources;
      allRelationships := allRelationships + one.value.edges;
    }
    assert files[..|files|] == files;
    result := Some(Inventory(allResources, allRelationships));
  }

  lemma FailedPublishesNothing(cell: Cell, calls: Calls, n: nat)
    ensures IngestRun(cell, IngestFailed, calls, n).1 == None
  {
  }

  lemma PublishRun(cell: Cell, report: Report, calls: Calls, n: nat)
    ensures IngestRun(cell, Publish(report), calls, n) ==
            (IngestRun(cell, if Returned(calls(n)) then IngestIdle else IngestFailed, calls, n + 1).0,
             if Took(calls(n)) then Some(report.status) else None)
  {
    FailedPublishesNothing(cell, calls, n + 1);
  }

  /** One call of the try block, before the publish. */
  lemma TriedRun(cell: Cell, pc: IngestPc, next: IngestPc, calls: Calls, n: nat)
    requires
      || pc.CollectedStatus? || pc.ReportedRun? || pc.CompletedMark? || pc.IngestingStatus?
      || pc.ReadyStatus? || pc.CountRows? || pc.LogUpdated?
    requires next == IngestNext(cell, pc, Call(Ok, 0))
    ensures IngestRun(cell, pc, calls, n) ==
            IngestRun(IngestCell(cell, pc, calls(n)), if Returned(calls(n)) then next else IngestFailed, calls, n + 1)
  {
  }

  /** The four calls that record the collection, each of which may be the last. */
  lemma RecordRun(cell: Cell, report: Report, calls: Calls, n: nat)
    ensures var collected := PipelineModel.UpdateStatus(cell, Collected, false, false, calls(n));
            var reported := UpdateRun(collected, report.status, calls(n + 1));
            var ingesting := PipelineModel.UpdateStatus(reported, Ingesting, false, false, calls(n + 3));
            IngestRun(cell, CollectedStatus(report), calls, n) ==
            if !Returned(calls(n)) then IngestRun(collected, IngestFailed, calls, n + 1)
            else if !Returned(calls(n + 1)) then IngestRun(reported, IngestFailed, calls, n + 2)
            else if !Returned(calls(n + 2)) then IngestRun(reported, IngestFailed, calls, n + 3)
            else IngestRun(ingesting, if Returned(calls(n + 3)) then ReadFiles(report) else IngestFailed, calls, n + 4)
  {
    var collected := PipelineModel.UpdateStatus(cell, Collected, false, false, calls(n));
    var reported := UpdateRun(collected, report.status, calls(n + 1));
    assert collected == IngestCell(cell, CollectedStatus(report), calls(n));
    TriedRun(cell, CollectedStatus(report), ReportedRun(report), calls, n);
    if Returned(calls(n)) {
      assert reported == IngestCell(collected, ReportedRun(report), calls(n + 1));
      TriedRun(collected, ReportedRun(report), CompletedMark(report), calls, n + 1);
      StartIngestRun(reported, report, calls, n + 2);
    }
  }

  lemma StartIngestRun(cell: Cell, report: Report, calls: Calls, n: nat)
    ensures var ingesting := PipelineModel.UpdateStatus(cell, Ingesting, false, false, calls(n + 1));
            IngestRun(cell, CompletedMark(report), calls, n) ==
            if !Returned(calls(n)) then IngestRun(cell, IngestFailed, calls, n + 1)
            else IngestRun(ingesting, if Returned(calls(n + 1)) then ReadFiles(report) else IngestFailed, calls, n + 2)
  {
    TriedRun(cell, CompletedMark(report), IngestingStatus(report), calls, n);
    TriedRun(cell, IngestingStatus(report), ReadFiles(report), calls, n + 1);
  }

  lemma ReadyRun(cell: Cell, report: Report, calls: Calls, n: nat)
    ensures var ready := PipelineModel.UpdateStatus(cell, InventoryReady, false, false, calls(n));
            IngestRun(cell, ReadyStatus(report), calls, n) ==
            if !Returned(calls(n)) then IngestRun(ready, IngestFailed, calls, n + 1)
            else if !Returned(calls(n + 1)) then IngestRun(ready, IngestFailed, calls, n + 2)
            else IngestRun(ready, if Returned(calls(n + 2)) then Publish(report) else IngestFailed, calls, n + 3)
  {
    var ready := PipelineModel.UpdateStatus(cell, InventoryReady, false, false, calls(n));
    assert ready == IngestCell(cell, ReadyStatus(report), calls(n));
    TriedRun(cell, ReadyStatus(report), CountRows(report), calls, n);
    if Returned(calls(n)) {
      AnnounceRun(ready, report, calls, n + 1);
    }
  }

  lemma AnnounceRun(cell: Cell, report: Report, calls: Calls, n: nat)
    ensures IngestRun(cell, CountRows(report), calls, n) ==
            if !Returned(calls(n)) then IngestRun(cell, IngestFailed, calls, n + 1)
            else IngestRun(cell, if Returned(calls(n + 1)) then Publish(report) else IngestFailed, calls, n + 2)
  {
    TriedRun(cell, CountRows(report), LogUpdated(report), calls, n);
    TriedRun(cell, LogUpdated(report), Publish(report), calls, n + 1);
  }

  /** The except path of the ingest worker. */
  lemma IngestFailedRun(cell: Cell, calls: Calls, n: nat)
    ensures IngestRun(cell, IngestFailed, calls, n) == (PipelineModel.UpdateStatus(cell, Failed, false, true, calls(n)), None)
  {
  }

  lemma InsertRowRun(cell: Cell, report: Report, inventory: Inventory, i: nat, calls: Calls, n: nat)
    requires i < |inventory.resources|
    ensures IngestRun(cell, InsertResourcesFrom(report, inventory, i), calls, n) ==
            IngestRun(IngestCell(cell, InsertResource(report, inventory, i), calls(n)),
                      if Returned(calls(n)) then InsertResourcesFrom(report, inventory, i + 1) else IngestFailed, calls, n + 1)
  {
  }

  lemma InsertEdgeRun(cell: Cell, report: Report, inventory: Inventory, i: nat, calls: Calls, n: nat)
    requires i < |inventory.edges|
    ensures IngestRun(cell, InsertEdgesFrom(report, inventory, i), calls, n) ==
            IngestRun(IngestCell(cell, InsertEdge(report, inventory, i), calls(n)),
                      if Returned(calls(n)) then InsertEdgesFrom(report, inventory, i + 1) else IngestFailed, calls, n + 1)
  {
  }

  class IngestWorker {
    const db: Database
    const redis: Redis

    constructor (db: Database, redis: Redis)
      ensures this.db == db && this.redis == redis
    {
      this.db, this.redis := db, redis;
    }

    /** insert_resources. */
    method InsertResources(scan: ScanId, inventory: Inventory, calls: Calls, first: nat, ghost report: Report)
      returns (raised: bool, n: nat)
      requires scan in db.cells
      modifies db
      ensures scan in db.cells && db.cells == old(db.cells)[scan := db.cells[scan]]
      ensures IngestRun(old(db.cells[scan]), InsertResourcesFrom(report, inventory, 0), calls, first) ==
              IngestRun(db.cells[scan], if raised then IngestFailed else InsertEdgesFrom(report, inventory, 0), calls, n)
    {
      n := first;
      for i := 0 to |inventory.resources|
        invariant scan in db.cells && db.cells == old(db.cells)[scan := db.cells[scan]]
        invariant IngestRun(old(db.cells[scan]), InsertResourcesFrom(report, inventory, 0), calls, first) ==
                  IngestRun(db.cells[scan], InsertResourcesFrom(report, inventory, i), calls, n)
      {
        InsertRowRun(db.cells[scan], report, inventory, i, calls, n);
        raised := db.InsertResource(scan, inventory.resources[i], calls(n));
        n := n + 1;
        if raised {
          return;
        }
      }
      raised := false;
    }

    /** insert_relationships. */
    method InsertRelationships(scan: ScanId, inventory: Inventory, calls: Calls, first: nat, ghost report: Report)
      returns (raised: bool, n: nat)
      requires scan in db.cells
      modifies db
      ensures scan in db.cells && db.cells == old(db.cells)[scan := db.cells[scan]]
      ensures IngestRun(old(db.cells[scan]), InsertEdgesFrom(report, inventory, 0), calls, first) ==
              IngestRun(db.cells[scan], if raised then IngestFailed else ReadyStatus(report), calls, n)
    {
      n := first;
      for i := 0 to |inventory.edges|
        invariant scan in db.cells && db.cells == old(db.cells)[scan := db.cells[scan]]
        invariant IngestRun(old(db.cells[scan]), InsertEdgesFrom(report, inventory, 0), calls, first) ==
                  IngestRun(db.cells[scan], InsertEdgesFrom(report, inventory, i), calls, n)
      {
        InsertEdgeRun(db.cells[scan], report, inventory, i, calls, n);
        raised := db.InsertRelationship(scan, inventory.edges[i], calls(n));
        n := n + 1;
        if raised {
          return;
        }
      }
      raised := false;
    }

    /** From the COLLECTED write to the INGESTING write. */
    method RecordCollection(scan: ScanId, report: Report, calls: Calls, first: nat) returns (raised: bool, n: nat)
      modifies db
      ensures scan !in old(db.cells) ==> db.cells == old(db.cells)
      ensures scan in old(db.cells) ==>
                && scan in db.cells && db.cells == old(db.cells)[scan := db.cells[scan]]
                && IngestRun(old(db.cells[scan]), CollectedStatus(report), calls, first) ==
                   IngestRun(db.cells[scan], if raised then IngestFailed else ReadFiles(report), calls, n)
    {
      n := first + 1;
      if scan in db.cells {
        RecordRun(db.cells[scan], report, calls, first);
      }
      raised := db.UpdateStatus(scan, Collected, false, false, calls(first));
      if raised {
        return;
      }
      n := n + 1;
      raised := db.UpdateCollectionRun(scan, report.status, calls(first + 1));
      if raised {
        return;
      }
      n := n + 1;
      raised := db.Ask(calls(first + 2));
      if raised {
        return;
      }
      n := n + 1;
      raised := db.UpdateStatus(scan, Ingesting, false, false, calls(first + 3));
    }

    /** From reading the manifest to the last relationship. */
    method StoreInventory(scan: ScanId, report: Report, calls: Calls, first: nat) returns (raised: bool, n: nat)
      modifies db
      ensures scan !in old(db.cells) ==> db.cells == old(db.cells) && raised
      ensures scan in old(db.cells) ==>
                && scan in db.cells && db.cells == old(db.cells)[scan := db.cells[scan]]
                && IngestRun(old(db.cells[scan]), ReadFiles(report), calls, first) ==
                   IngestRun(db.cells[scan], if raised then IngestFailed else ReadyStatus(report), calls, n)
    {
      n := first + 1;
      raised := db.Ask(calls(first));
      if raised {
        return;
      }
      assert scan in old(db.cells) ==>
               (IngestRun(old(db.cells[scan]), ReadFiles(report), calls, first) ==
                IngestRun(db.cells[scan], LoadRun(report), calls, n));
      n := n + 1;
      raised := db.Ask(calls(first + 1));
      if raised {
        return;
      }
      if scan !in db.cells {
        raised := true;
        return;
      }
      var inventory := NormalizeFiles(report.files, db.cells[scan].accountId);
      if inventory.None? {
        raised := true;
        return;
      }
      assert IngestRun(old(db.cells[scan]), ReadFiles(report), calls, first) ==
             IngestRun(db.cells[scan], InsertResourcesFrom(report, inventory.value, 0), calls, n);
      raised, n := InsertResources(scan, inventory.value, calls, n, report);
      if raised {
        return;
      }
      raised, n := InsertRelationships(scan, inventory.value, calls, n, report);
    }

    /** From the INVENTORY_READY write to the event that announces the inventory. */
    method MarkReady(scan: ScanId, report: Report, calls: Calls, first: nat) returns (raised: bool, n: nat)
      requires scan in db.cells
      modifies db
      ensures scan in db.cells && db.cells == old(db.cells)[scan := db.cells[scan]]
      ensures IngestRun(old(db.cells[scan]), ReadyStatus(report), calls, first) ==
              IngestRun(db.cells[scan], if raised then IngestFailed else Publish(report), calls, n)
    {
      n := first + 1;
      ReadyRun(db.cells[scan], report, calls, first);
      raised := db.UpdateStatus(scan, InventoryReady, false, false, calls(first));
      if raised {
        return;
      }
      n := n + 1;
      raised := db.Ask(calls(first + 1));
      if raised {
        return;
      }
      n := n + 1;
      raised := db.Ask(calls(first + 2));
    }

    /** _handle_collection_completed: the try block. */
    method HandleCollectionCompleted(scan: ScanId, report: Option<Report>, calls: Calls, first: nat)
      returns (raised: bool, n: nat)
      modifies db, redis`evaluates
      ensures scan !in old(db.cells) ==> db.cells == old(db.cells) && redis.evaluates == old(redis.evaluates)
      ensures scan in old(db.cells) ==>
                && scan in db.cells && db.cells == old(db.cells)[scan := db.cells[scan]]
                && var run := IngestRun(old(db.cells[scan]), Dispatch(CollectionCompleted(report)), calls, first);
                   && run.0 == IngestRun(db.cells[scan], if raised then IngestFailed else IngestIdle, calls, n).0
                   && redis.evaluates == if run.1.Some? then Push(old(redis.evaluates), scan, run.1.value) else old(redis.evaluates)
    {
      n := first;
      if report.None? {
        raised := true;
        if scan in db.cells {
          FailedPublishesNothing(db.cells[scan], calls, n);
        }
        return;
      }
      raised, n := RecordCollection(scan, report.value, calls, n);
      if !raised {
        raised, n := StoreInventory(scan, report.value, calls, n);
      }
      if !raised {
        raised, n := MarkReady(scan, report.value, calls, n);
      }
      if raised {
        if scan in db.cells {
          FailedPublishesNothing(db.cells[scan], calls, n);
        }
        return;
      }
      PublishRun(db.cells[scan], report.value, calls, n);
      raised := redis.PublishPolicyEvaluate(scan, report.value.status, calls(n));
      n := n + 1;
    }

    method HandleCollectionStarted(scan: ScanId, wellFormed: bool, calls: Calls)
      modifies db
      ensures scan !in old(db.cells) ==> db.cells == old(db.cells)
      ensures scan in old(db.cells) ==>
                && db.cells == old(db.cells)[scan := IngestRun(old(db.cells[scan]), Dispatch(CollectionStarted(wellFormed)), calls, 1).0]
                && IngestRun(old(db.cells[scan]), Dispatch(CollectionStarted(wellFormed)), calls, 1).1 == None
    {
      assert scan in db.cells ==> db.cells[scan := db.cells[scan]] == db.cells;
      if !wellFormed {
        return;
      }
      var raised := db.UpdateStatus(scan, Collecting, false, false, calls(1));
      if raised {
        return;
      }
      raised := db.UpdateCollectionRun(scan, "running", calls(2));
    }

    method HandleCollectionFailed(scan: ScanId, wellFormed: bool, calls: Calls)
      modifies db
      ensures scan !in old(db.cells) ==> db.cells == old(db.cells)
      ensures scan in old(db.cells) ==>
                && db.cells == old(db.cells)[scan := IngestRun(old(db.cells[scan]), Dispatch(CollectionFailed(wellFormed)), calls, 1).0]
                && IngestRun(old(db.cells[scan]), Dispatch(CollectionFailed(wellFormed)), calls, 1).1 == None
    {
      assert scan in db.cells ==> db.cells[scan := db.cells[scan]] == db.cells;
      ghost var before := db.cells;
      if scan in before {
        FailureRun(before[scan], wellFormed, calls);
      }
      if !wellFormed {
        return;
      }
      var raised := db.UpdateStatus(scan, Failed, false, true, calls(1));
      if raised {
        return;
      }
      raised := db.UpdateCollectionRun(scan, "failed", calls(2));
      if raised {
        return;
      }
      raised := db.Ask(calls(3));
      if raised {
        return;
      }
      raised := db.Ask(calls(4));
    }

    /** IngestWorker.handle_event; an event of a scan without a row changes nothing. */
    method HandleEvent(scan: ScanId, body: EventBody, calls: Calls)
      modifies db, redis`evaluates
      ensures scan !in old(db.cells) ==> db.cells == old(db.cells) && redis.evaluates == old(redis.evaluates)
      ensures scan in old(db.cells) ==>
                var run := IngestRun(old(db.cells[scan]), LogEvent(body), calls, 0);
                && db.cells == old(db.cells)[scan := run.0]
                && redis.evaluates == if run.1.Some? then Push(old(redis.evaluates), scan, run.1.value) else old(redis.evaluates)
    {
      ghost var before := db.cells;
      assert scan in before ==> before[scan := before[scan]] == before;
      var raised := db.Ask(calls(0));
      if scan in before {
        LogRun(before[scan], body, calls);
      }
      if raised {
        return;
      }
      match body
      case CollectionStarted(wellFormed) => HandleCollectionStarted(scan, wellFormed, calls);
      case CollectionFailed(wellFormed) => HandleCollectionFailed(scan, wellFormed, calls);
      case CollectionCompleted(report) =>
        var n;
        raised, n := HandleCollectionCompleted(scan, report, calls, 1);
        if raised {
          if scan in db.cells {
            IngestFailedRun(db.cells[scan], calls, n);
          }
          raised := db.UpdateStatus(scan, Failed, false, true, calls(n));
        }
    }
  }

  lemma LogRun(cell: Cell, body: EventBody, calls: Calls)
    ensures IngestRun(cell, LogEvent(body), calls, 0) ==
            if Returned(calls(0)) then IngestRun(cell, Dispatch(body), calls, 1) else (cell, None)
  {
  }

  /** The handler of collection.failed: one status write, one run write, and nothing else stored. */
  lemma FailureRun(cell: Cell, wellFormed: bool, calls: Calls)
    ensures IngestRun(cell, Dispatch(CollectionFailed(wellFormed)), calls, 1) ==
            (if !wellFormed then cell
             else
               var failed := PipelineModel.UpdateStatus(cell, Failed, false, true, calls(1));
               if Returned(calls(1)) then UpdateRun(failed, "failed", calls(2)) else failed,
             None)
  {
    var failed := PipelineModel.UpdateStatus(cell, Failed, false, true, calls(1));
    var recorded := UpdateRun(failed, "failed", calls(2));
    if wellFormed && Returned(calls(1)) && Returned(calls(2)) {
      assert IngestRun(recorded, FailedLog, calls, 4) == (recorded, None);
      assert IngestRun(recorded, FailedMark, calls, 3) == (recorded, None);
      assert IngestRun(failed, FailedRun, calls, 2) == IngestRun(recorded, FailedMark, calls, 3);
    }
  }

  // ----- ScanService

  datatype Integration = Integration(status: string, accountId: string)

  datatype Creation = NotFound | NotActive | Raised | ScanQueued

  class ScanService {
    const db: Database
    const redis: Redis

    constructor (db: Database, redis: Redis)
      ensures this.db == db && this.redis == redis
    {
      this.db, this.redis := db, redis;
    }

    /** ScanService.create_scan, for a scan identifier not used before. A collection job is queued
        only for a scan whose QUEUED status is stored. */
    method CreateScan(scan: ScanId, integration: Option<Integration>, runStatus: string, calls: Calls) returns (result: Creation)
      requires scan !in db.cells
      modifies db, redis`jobs
      ensures integration.None? <==> result == NotFound
      ensures integration.Some? && integration.value.status != "active" <==> result == NotActive
      ensures result == NotFound || result == NotActive ==> db.cells == old(db.cells) && redis.jobs == old(redis.jobs)
      ensures result == ScanQueued ==> Returned(calls(0)) && Returned(calls(1)) && Returned(calls(2))
      ensures result == Raised ==> !(Returned(calls(0)) && Returned(calls(1)) && Returned(calls(2)))
      ensures result == ScanQueued ==>
                && scan in db.cells
                && var row := db.cells[scan];
                   && row.status == Queued && row.startedAt == Some(calls(1).now) && row.completedAt == None
                   && row.accountId == integration.value.accountId && row.runStatus == runStatus
                   && row.resources == map[] && row.relationships == {} && row.findings.rows == map[] && row.evaluation == None
                   && row.tables == ComplianceTables(map[], map[])
      ensures result == Raised && !Returned(calls(0)) ==>
                && db.cells == (if Took(calls(0)) then old(db.cells)[scan := NewCell(integration.value.accountId, runStatus)]
                                else old(db.cells))
                && redis.jobs == old(redis.jobs)
      ensures (result == Raised || result == ScanQueued) && Returned(calls(0)) ==>
                var run := ApiRun(NewCell(integration.value.accountId, runStatus), WriteQueued, calls, 1);
                && db.cells == old(db.cells)[scan := run.0]
                && redis.jobs == if run.1 then Push(old(redis.jobs), scan, ()) else old(redis.jobs)
    {
      if integration.None? {
        return NotFound;
      }
      if integration.value.status != "active" {
        return NotActive;
      }
      ghost var created := NewCell(integration.value.accountId, runStatus);
      QueueRun(created, calls);
      var raised := db.Create(scan, integration.value.accountId, runStatus, calls(0));
      if raised {
        return Raised;
      }
      assert Allowed(Created, Queued);
      raised := db.UpdateStatus(scan, Queued, true, false, calls(1));
      if raised {
        return Raised;
      }
      raised := redis.PushJob(scan, calls(2));
      if raised {
        return Raised;
      }
      result := ScanQueued;
    }
  }

  /** A job is enqueued only when the QUEUED write returned. */
  lemma QueueRun(created: Cell, calls: Calls)
    ensures ApiRun(created, WriteQueued, calls, 1) ==
            (PipelineModel.UpdateStatus(created, Queued, true, false, calls(1)), Returned(calls(1)) && Took(calls(2)))
  {
    var queued := PipelineModel.UpdateStatus(created, Queued, true, false, calls(1));
    assert ApiRun(queued, PushJob, calls, 2) == (queued, Took(calls(2)));
  }
}
