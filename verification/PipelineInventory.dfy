/** What the ingest worker has stored, at every step of every run. */
module PipelineInventory {
  import opened Wrappers
  import opened ScanLifecycle
  import opened Assets
  import opened Tables
  import opened PipelineModel
  import opened PipelineViews
  import opened PipelineSafety

  /** The whole inventory of the report is stored: the first resource under each identifier and
      every relationship. */
  ghost predicate Stored(cell: Cell, report: Report) {
    var inventory := NormalizeAll(report.files, cell.accountId);
    && inventory.Some?
    && cell.resources == InsertAll(map[], Rows(inventory.value.resources))
    && cell.relationships == EdgeSet(inventory.value.edges)
  }

  predicate NothingStored(cell: Cell) {
    cell.resources == map[] && cell.relationships == {}
  }

  /** Progress of the two insert loops. */
  ghost predicate Inserting(cell: Cell, ingest: IngestPc) {
    match ingest
    case InsertResource(report, inventory, i) =>
      && NormalizeAll(report.files, cell.accountId) == Some(inventory)
      && i < |inventory.resources|
      && cell.resources == InsertAll(map[], Rows(inventory.resources[..i]))
      && cell.relationships == {}
    case InsertEdge(report, inventory, i) =>
      && NormalizeAll(report.files, cell.accountId) == Some(inventory)
      && i < |inventory.edges|
      && cell.resources == InsertAll(map[], Rows(inventory.resources))
      && cell.relationships == EdgeSet(inventory.edges[..i])
    case ReadyStatus(report) => Stored(cell, report)
    case CountRows(report) => Stored(cell, report)
    case LogUpdated(report) => Stored(cell, report)
    case Publish(report) => Stored(cell, report)
    case IngestIdle => true
    case FailedRun => true
    case FailedMark => true
    case FailedLog => true
    case IngestFailed => true
    case _ => NothingStored(cell)
  }

  /** The collection run carries the reported status from the moment it is recorded. */
  predicate RunRecorded(cell: Cell, ingest: IngestPc) {
    match ingest
    case CompletedMark(report) => cell.runStatus == report.status
    case IngestingStatus(report) => cell.runStatus == report.status
    case ReadFiles(report) => cell.runStatus == report.status
    case LoadRun(report) => cell.runStatus == report.status
    case InsertResource(report, _, _) => cell.runStatus == report.status
    case InsertEdge(report, _, _) => cell.runStatus == report.status
    case ReadyStatus(report) => cell.runStatus == report.status
    case CountRows(report) => cell.runStatus == report.status
    case LogUpdated(report) => cell.runStatus == report.status
    case Publish(report) => cell.runStatus == report.status
    case _ => true
  }

  ghost predicate HandedOver(v: View) {
    && HasReport(v.scan.collector)
    && Stored(v.scan.cell, v.scan.collector.body.report.value)
    && v.scan.cell.runStatus == v.scan.collector.body.report.value.status
    && forall m | m in v.evaluates :: m == v.scan.collector.body.report.value.status
  }

  ghost predicate Inventoried(v: View) {
    var cell := v.scan.cell;
    && EdgesStored(cell.resources, cell.relationships)
    && cell.ingestedAt.Keys == cell.resources.Keys
    && (!v.scan.collector.Reported? || v.events != [] ==> NothingStored(cell))
    && Inserting(cell, v.ingest)
    && RunRecorded(cell, v.ingest)
    && (v.scan.published ==> HandedOver(v))
  }

  // ----- the insert loops

  lemma InsertedRow(cell: Cell, report: Report, inventory: Inventory, i: nat, call: Call)
    requires Inserting(cell, InsertResource(report, inventory, i)) && Took(call)
    ensures IngestCell(cell, InsertResource(report, inventory, i), call).resources
            == InsertAll(map[], Rows(inventory.resources[..i + 1]))
  {
    OneMoreRowOf(inventory.resources, i);
    var row := inventory.resources[i];
    assert IngestCell(cell, InsertResource(report, inventory, i), call).resources == InsertNew(cell.resources, row.resourceId, row);
  }

  lemma OneMoreRowOf(resources: seq<Resource>, i: nat)
    requires i < |resources|
    ensures InsertAll(map[], Rows(resources[..i + 1])) ==
            InsertNew(InsertAll(map[], Rows(resources[..i])), resources[i].resourceId, resources[i])
  {
    assert Rows(resources[..i + 1])[..i] == Rows(resources[..i]);
  }

  lemma NoEdgesYet(inventory: Inventory)
    ensures EdgeSet(inventory.edges[..0]) == {} && (inventory.edges == [] ==> EdgeSet(inventory.edges) == {})
  {
  }

  lemma InsertingResource(cell: Cell, report: Report, inventory: Inventory, i: nat, call: Call)
    requires Inserting(cell, InsertResource(report, inventory, i))
    ensures var after := IngestCell(cell, InsertResource(report, inventory, i), call);
            && EdgesStored(after.resources, after.relationships)
            && (Returned(call) ==> Inserting(after, InsertResourcesFrom(report, inventory, i + 1)))
  {
    if Took(call) {
      InsertedRow(cell, report, inventory, i, call);
    }
    NoEdgesYet(inventory);
    assert i + 1 == |inventory.resources| ==> inventory.resources[..i + 1] == inventory.resources;
  }

  lemma NextEdge(edges: seq<Edge>, i: nat)
    requires i < |edges|
    ensures EdgeSet(edges[..i + 1]) == EdgeSet(edges[..i]) + {edges[i]} && edges[i] in EdgeSet(edges)
  {
    assert edges[..i + 1] == edges[..i] + [edges[i]];
  }

  lemma InventoryIsStored(cell: Cell, report: Report, inventory: Inventory)
    requires NormalizeAll(report.files, cell.accountId) == Some(inventory)
    requires cell.resources == InsertAll(map[], Rows(inventory.resources))
    ensures EdgesStored(cell.resources, EdgeSet(inventory.edges))
  {
    InventorySourced(report.files, cell.accountId);
    InsertsKeepFirst(inventory.resources);
    SourcedIsStored(inventory, cell.resources);
  }

  lemma InsertingEdge(cell: Cell, report: Report, inventory: Inventory, i: nat, call: Call)
    requires Inserting(cell, InsertEdge(report, inventory, i)) && EdgesStored(cell.resources, cell.relationships)
    ensures var after := IngestCell(cell, InsertEdge(report, inventory, i), call);
            && EdgesStored(after.resources, after.relationships)
            && (Returned(call) ==> Inserting(after, InsertEdgesFrom(report, inventory, i + 1)))
  {
    InventoryIsStored(cell, report, inventory);
    NextEdge(inventory.edges, i);
    assert i + 1 == |inventory.edges| ==> inventory.edges[..i + 1] == inventory.edges;
  }

  lemma StartInserting(cell: Cell, report: Report, inventory: Inventory)
    requires NothingStored(cell) && NormalizeAll(report.files, cell.accountId) == Some(inventory)
    ensures Inserting(cell, InsertResourcesFrom(report, inventory, 0))
  {
    assert inventory.resources[..0] == [] && Rows([]) == [];
    assert EdgeSet(inventory.edges[..0]) == {};
    if inventory.resources == [] && inventory.edges == [] {
      assert EdgeSet(inventory.edges) == {};
    }
  }

  // ----- every step keeps it

  lemma IngestKeepsInserting(cell: Cell, pc: IngestPc, call: Call)
    requires Inserting(cell, pc) && EdgesStored(cell.resources, cell.relationships)
    requires pc.CollectedStatus? || pc.LogEvent? ==> NothingStored(cell)
    ensures var after := IngestCell(cell, pc, call);
            Inserting(after, IngestNext(cell, pc, call)) && EdgesStored(after.resources, after.relationships)
  {
    match pc
    case LoadRun(report) =>
      var inventory := NormalizeAll(report.files, cell.accountId);
      if inventory.Some? {
        StartInserting(cell, report, inventory.value);
      }
    case InsertResource(report, inventory, i) => InsertingResource(cell, report, inventory, i, call);
    case InsertEdge(report, inventory, i) => InsertingEdge(cell, report, inventory, i, call);
    case _ =>
  }

  lemma IngestKeepsRecorded(cell: Cell, pc: IngestPc, call: Call)
    requires RunRecorded(cell, pc)
    ensures RunRecorded(IngestCell(cell, pc, call), IngestNext(cell, pc, call))
  {
  }

  lemma IngestKeepsTimes(cell: Cell, pc: IngestPc, call: Call)
    requires cell.ingestedAt.Keys == cell.resources.Keys
    ensures var after := IngestCell(cell, pc, call); after.ingestedAt.Keys == after.resources.Keys
  {
  }

  lemma IngestKeepsInventoried(faults: Faults, v: View, call: Call)
    requires !faults.phantomPublish && Staged(faults, v) && Inventoried(v)
    requires !v.ingest.IngestIdle? && IngestMay(faults, v.ingest, call)
    ensures Inventoried(ViewIngest(v, call))
  {
    IngestKeepsInserting(v.scan.cell, v.ingest, call);
    IngestKeepsRecorded(v.scan.cell, v.ingest, call);
    IngestKeepsTimes(v.scan.cell, v.ingest, call);
  }

  lemma PolicyKeepsStored(setup: Setup, cell: Cell, pc: PolicyPc, call: Call)
    ensures var after := PolicyCell(setup, cell, pc, call);
            && after.resources == cell.resources && after.ingestedAt == cell.ingestedAt
            && after.relationships == cell.relationships
            && after.runStatus == cell.runStatus && after.accountId == cell.accountId
  {
  }

  lemma PolicyKeepsInventoried(setup: Setup, v: View, call: Call)
    requires Inventoried(v)
    ensures Inventoried(ViewPolicy(setup, v, call))
  {
    PolicyKeepsStored(setup, v.scan.cell, v.policy, call);
  }

  lemma NextKeepsInventoried(setup: Setup, faults: Faults, v: View, w: View)
    requires !faults.phantomPublish && Staged(faults, v) && Inventoried(v) && ViewNext(setup, faults, v, w)
    ensures Inventoried(w)
  {
    if call: Call :| !v.ingest.IngestIdle? && IngestMay(faults, v.ingest, call) && w == ViewIngest(v, call) {
      IngestKeepsInventoried(faults, v, call);
    } else if call: Call :| !v.policy.PolicyIdle? && PolicyMay(faults, v.policy, call) && w == ViewPolicy(setup, v, call) {
      PolicyKeepsInventoried(setup, v, call);
    } else if v.policy.PolicyIdle? && v.evaluates != [] && w == ViewPopEvaluate(v) {
      assert forall m | m in w.evaluates :: m in v.evaluates;
    } else if faults.redelivery && v.scan.published && HasReport(v.scan.collector) && w == ViewRedeliver(v) {
      assert forall m | m in w.evaluates :: m in v.evaluates || m == v.scan.collector.body.report.value.status;
    } else {
      QuietStepKeepsInventoried(faults, v, w);
    }
  }

  /** The remaining steps touch neither inventory nor collection run. */
  lemma QuietStepKeepsInventoried(faults: Faults, v: View, w: View)
    requires Staged(faults, v) && Inventoried(v)
    requires
      || (exists call: Call :: !v.scan.api.ApiDone? && w == ViewApi(v, call))
      || (v.jobs != [] && w == ViewTakeJob(v))
      || (exists wellFormed: bool ::
            v.scan.collector.HasJob? && (wellFormed || faults.startLost) && w == ViewAnnounce(v, wellFormed))
      || (exists body: EventBody :: v.scan.collector.Announced? && !body.CollectionStarted? && w == ViewReport(v, body))
      || (v.ingest.IngestIdle? && v.events != [] && w == ViewPopEvent(v))
    ensures Inventoried(w)
  {
  }

  ghost predicate AllInventoried(faults: Faults, s: System) {
    AllStaged(faults, s) && forall id | id in s.scans :: Inventoried(ViewOf(s, id))
  }

  lemma {:induction false} RunsStayInventoried(setup: Setup, faults: Faults, steps: seq<Step>)
    requires !faults.phantomPublish && After(setup, faults, steps).Some?
    ensures AllInventoried(faults, After(setup, faults, steps).value)
  {
    RunsStayStaged(setup, faults, steps);
    if steps != [] {
      var init, step := steps[..|steps| - 1], steps[|steps| - 1];
      RunsStayInventoried(setup, faults, init);
      var s, t := After(setup, faults, init).value, After(setup, faults, steps).value;
      forall id | id in t.scans ensures Inventoried(ViewOf(t, id)) {
        if id in s.scans {
          StepIsViewStep(setup, faults, s, step, id);
          if ViewOf(t, id) != ViewOf(s, id) {
            NextKeepsInventoried(setup, faults, ViewOf(s, id), ViewOf(t, id));
          }
        } else {
          CreatedView(setup, faults, s, step, id);
        }
      }
    }
  }

  // ----- the guarantees

  /** At every step, each stored relationship starts at a stored asset of the same scan. */
  lemma RelationshipsStartAtAssets(setup: Setup, faults: Faults, steps: seq<Step>, id: ScanId)
    requires !faults.phantomPublish && After(setup, faults, steps).Some?
    requires id in After(setup, faults, steps).value.scans
    ensures var cell := After(setup, faults, steps).value.scans[id].cell;
            EdgesStored(cell.resources, cell.relationships)
  {
    RunsStayInventoried(setup, faults, steps);
    assert Inventoried(ViewOf(After(setup, faults, steps).value, id));
  }

  lemma {:induction false} QueuedIsOf<T>(queue: seq<Message<T>>, message: Message<T>)
    requires message in queue
    ensures message.body in Of(queue, message.scan)
  {
    if queue[0] != message {
      QueuedIsOf(queue[1..], message);
    }
  }

  /** A queued policy.evaluate finds the first occurrence of every resource its collector's bronze
      files normalise to, every relationship, and its own status on the collection run; without
      redelivery it also finds the scan INVENTORY_READY. */
  lemma QueuedEvaluateFindsInventory(setup: Setup, faults: Faults, steps: seq<Step>, message: Message<string>)
    requires !faults.phantomPublish && After(setup, faults, steps).Some?
    requires message in After(setup, faults, steps).value.evaluates
    ensures var s := After(setup, faults, steps).value;
            && message.scan in s.scans
            && var scan := s.scans[message.scan];
               && HasReport(scan.collector)
               && var report := scan.collector.body.report.value;
                  && message.body == report.status == scan.cell.runStatus
                  && var inventory := NormalizeAll(report.files, scan.cell.accountId);
                     && inventory.Some?
                     && HoldsFirstOccurrences(scan.cell.resources, inventory.value.resources)
                     && scan.cell.relationships == EdgeSet(inventory.value.edges)
    ensures !faults.redelivery ==> After(setup, faults, steps).value.scans[message.scan].cell.status == InventoryReady
  {
    var s := After(setup, faults, steps).value;
    RunsStayInventoried(setup, faults, steps);
    var v := ViewOf(s, message.scan);
    QueuedIsOf(s.evaluates, message);
    assert Staged(faults, v) && Inventoried(v);
    InsertsKeepFirst(NormalizeAll(v.scan.collector.body.report.value.files, v.scan.cell.accountId).value.resources);
    if !faults.redelivery {
      RunsDeliverOnce(setup, faults, steps);
      assert DeliveredOnce(v);
    }
  }

  /** Without redelivery the one policy.evaluate of a scan is queued or handled, not both. */
  predicate DeliveredOnce(v: View) {
    && |v.evaluates| <= 1
    && (v.evaluates != [] ==> v.policy.PolicyIdle? && v.scan.cell.status == InventoryReady && v.scan.published)
  }

  lemma {:induction false} RunsDeliverOnce(setup: Setup, faults: Faults, steps: seq<Step>)
    requires !faults.phantomPublish && !faults.redelivery && After(setup, faults, steps).Some?
    ensures var s := After(setup, faults, steps).value; forall id | id in s.scans :: DeliveredOnce(ViewOf(s, id))
  {
    if steps != [] {
      var init, step := steps[..|steps| - 1], steps[|steps| - 1];
      RunsDeliverOnce(setup, faults, init);
      RunsStayStaged(setup, faults, init);
      var s, t := After(setup, faults, init).value, After(setup, faults, steps).value;
      forall id | id in t.scans ensures DeliveredOnce(ViewOf(t, id)) {
        if id in s.scans {
          StepIsViewStep(setup, faults, s, step, id);
          if ViewOf(t, id) != ViewOf(s, id) {
            NextDeliversOnce(setup, faults, ViewOf(s, id), ViewOf(t, id));
          }
        } else {
          CreatedView(setup, faults, s, step, id);
        }
      }
    }
  }

  lemma NextDeliversOnce(setup: Setup, faults: Faults, v: View, w: View)
    requires !faults.phantomPublish && !faults.redelivery
    requires Staged(faults, v) && DeliveredOnce(v) && ViewNext(setup, faults, v, w)
    ensures DeliveredOnce(w)
  {
    if call: Call :| !v.ingest.IngestIdle? && IngestMay(faults, v.ingest, call) && w == ViewIngest(v, call) {
      if Publishes(v.ingest, call) {
        assert w.scan.cell.status == InventoryReady && w.evaluates == [v.ingest.report.status];
      }
    }
  }
}
