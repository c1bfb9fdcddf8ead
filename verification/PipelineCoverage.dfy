/** From a collected item to the finding about it. */
module PipelineCoverage {
  import opened Wrappers
  import opened Assets
  import opened Findings
  import opened Normalization
  import opened PipelineModel
  import opened PipelineOutcome

  // ----- what a report's files become together

  /** The i-th resource of the f-th file. */
  ghost predicate Yields(files: seq<Bronze>, accountId: string, f: int, i: int, r: Resource) {
    && 0 <= f < |files| && Normalize(files[f], accountId).Some?
    && 0 <= i < |Normalize(files[f], accountId).value.resources|
    && Normalize(files[f], accountId).value.resources[i] == r
  }

  lemma {:induction false} FileIsReadable(files: seq<Bronze>, accountId: string, f: nat)
    requires NormalizeAll(files, accountId).Some? && f < |files|
    ensures Normalize(files[f], accountId).Some?
  {
    if f < |files| - 1 {
      FileIsReadable(files[..|files| - 1], accountId, f);
    }
  }

  lemma LastFileYields(files: seq<Bronze>, accountId: string, r: Resource)
    requires files != [] && NormalizeAll(files, accountId).Some?
    ensures var n := |files| - 1;
            r in NormalizeAll(files, accountId).value.resources <==>
            r in NormalizeAll(files[..n], accountId).value.resources || exists i :: Yields(files, accountId, n, i, r)
  {
    var n := |files| - 1;
    var last := Normalize(files[n], accountId).value.resources;
    if r in last {
      var i :| 0 <= i < |last| && last[i] == r;
      assert Yields(files, accountId, n, i, r);
    }
  }

  /** The inventory lists exactly what the single files yield. */
  lemma {:induction false} InventoryIsYielded(files: seq<Bronze>, accountId: string, r: Resource)
    requires NormalizeAll(files, accountId).Some?
    ensures r in NormalizeAll(files, accountId).value.resources <==> exists f, i :: Yields(files, accountId, f, i, r)
  {
    if files != [] {
      var n := |files| - 1;
      InventoryIsYielded(files[..n], accountId, r);
      LastFileYields(files, accountId, r);
      EarlierFilesYield(files, files[..n], n, accountId, r);
    }
  }

  lemma EarlierFilesYield(files: seq<Bronze>, init: seq<Bronze>, n: nat, accountId: string, r: Resource)
    requires n + 1 == |files| && init == files[..n]
    ensures (exists f, i :: Yields(files, accountId, f, i, r)) <==>
            (exists f, i :: Yields(init, accountId, f, i, r)) || exists i :: Yields(files, accountId, n, i, r)
  {
    if f, i :| Yields(files, accountId, f, i, r) && f < n {
      assert Yields(init, accountId, f, i, r);
    }
    if f, i :| Yields(init, accountId, f, i, r) {
      assert Yields(files, accountId, f, i, r);
    }
  }

  lemma YieldedIsDescribed(files: seq<Bronze>, accountId: string, f: int, i: int, r: Resource)
    requires Yields(files, accountId, f, i, r)
    ensures IsListed(r.providerType) && OnePerItem(files[f], accountId, Normalize(files[f], accountId).value.resources)
    ensures files[f].providerType == Some(r.providerType) && files[f].resourceType == Some(r.resourceType)
    ensures r.provider == if "azure_" <= r.providerType then "azure" else "aws"
  {
    if !IsListed(files[f].providerType.value) {
      UnlistedTypesYieldNothing(files[f], accountId);
    } else {
      ListedTypesYieldOnePerItem(files[f], accountId);
    }
  }

  // ----- the finding

  /** Whatever is collected under the identifier comes from files of these types. */
  ghost predicate OnlyFrom(resources: seq<Resource>, resourceId: string, providerType: string, resourceType: string) {
    forall r | r in resources && r.resourceId == resourceId :: r.providerType == providerType && r.resourceType == resourceType
  }

  /** In a finished scan a policy has a finding for every collected resource of its provider and
      resource type, when it names no other provider type. */
  lemma CollectedResourceIsJudged(setup: Setup, faults: Faults, steps: seq<Step>, id: ScanId, policy: Policy, f: nat, i: nat, r: Resource)
    requires !faults.phantomPublish && After(setup, faults, steps).Some?
    requires id in After(setup, faults, steps).value.scans
    requires Finished(After(setup, faults, steps).value.scans[id].cell.status)
    requires DistinctPolicies(setup.policies) && policy in setup.policies
    requires var table := After(setup, faults, steps).value.scans[id].cell.resources; ListsTable(setup.assetOrder(table), table)
    requires HasReport(After(setup, faults, steps).value.scans[id].collector)
    requires var scan := After(setup, faults, steps).value.scans[id];
             var files := scan.collector.body.report.value.files;
             && Yields(files, scan.cell.accountId, f, i, r)
             && (NormalizeAll(files, scan.cell.accountId).Some? ==>
                   OnlyFrom(NormalizeAll(files, scan.cell.accountId).value.resources, r.resourceId, r.providerType, policy.resourceType))
    requires policy.provider == if "azure_" <= r.providerType then "azure" else "aws"
    requires policy.providerType in {None, Some(""), Some(r.providerType)}
    ensures (policy.policyId, r.resourceId) in After(setup, faults, steps).value.scans[id].cell.findings.rows
  {
    var scan := After(setup, faults, steps).value.scans[id];
    var files := scan.collector.body.report.value.files;
    FinishedScanJudgesInventory(setup, faults, steps, id, policy, r.resourceId);
    var resources := NormalizeAll(files, scan.cell.accountId).value.resources;
    InventoryIsYielded(files, scan.cell.accountId, r);
    FirstOfListed(resources, r.resourceId);
    var first := FirstOf(resources, r.resourceId).value;
    InventoryIsYielded(files, scan.cell.accountId, first);
    var g, j :| Yields(files, scan.cell.accountId, g, j, first);
    YieldedIsDescribed(files, scan.cell.accountId, g, j, first);
    StoredAssetMatches(policy, first, IngestedAt(scan.cell.ingestedAt, setup.iso, first.resourceId));
  }

  lemma BucketsAreAws()
    ensures !("azure_" <= "aws_s3_bucket")
  {
    assert "azure_"[1] != "aws_s3_bucket"[1];
  }

  /** For example an AWS policy about buckets has a finding for every bucket that was collected. */
  lemma CollectedBucketIsJudged(setup: Setup, faults: Faults, steps: seq<Step>, id: ScanId, policy: Policy, f: nat, i: nat)
    requires !faults.phantomPublish && After(setup, faults, steps).Some?
    requires id in After(setup, faults, steps).value.scans
    requires Finished(After(setup, faults, steps).value.scans[id].cell.status)
    requires DistinctPolicies(setup.policies) && policy in setup.policies
    requires var table := After(setup, faults, steps).value.scans[id].cell.resources; ListsTable(setup.assetOrder(table), table)
    requires HasReport(After(setup, faults, steps).value.scans[id].collector)
    requires policy.provider == "aws" && policy.providerType == None
    requires var scan := After(setup, faults, steps).value.scans[id];
             var files := scan.collector.body.report.value.files;
             && f < |files| && files[f].providerType == Some("aws_s3_bucket") && files[f].resourceType == Some(policy.resourceType)
             && i < |files[f].items| && "Name" in files[f].items[i].fields
             && (NormalizeAll(files, scan.cell.accountId).Some? ==>
                   OnlyFrom(NormalizeAll(files, scan.cell.accountId).value.resources, "arn:aws:s3:::" + files[f].items[i].fields["Name"],
                            "aws_s3_bucket", policy.resourceType))
    ensures var scan := After(setup, faults, steps).value.scans[id];
            (policy.policyId, "arn:aws:s3:::" + scan.collector.body.report.value.files[f].items[i].fields["Name"])
            in scan.cell.findings.rows
  {
    var scan := After(setup, faults, steps).value.scans[id];
    var files := scan.collector.body.report.value.files;
    FinishedScan(setup, faults, steps, id);
    FileIsReadable(files, scan.cell.accountId, f);
    BucketNames(files[f], scan.cell.accountId);
    var r := Normalize(files[f], scan.cell.accountId).value.resources[i];
    assert Yields(files, scan.cell.accountId, f, i, r);
    BucketsAreAws();
    CollectedResourceIsJudged(setup, faults, steps, id, policy, f, i, r);
  }
}
