/** Bronze files become resources and relationships, and both are inserted first-come. */
module Assets {
  import opened Wrappers
  import opened Json
  import opened Tables
  import Findings

  // ----- bronze files and normalised rows

  /** An entry of an AWS tag list; either half may be absent. */
  datatype Tag = Tag(key: Option<string>, value: Option<string>)

  /** One collected item: its text-valued keys, its tag list, its list of security groups, and the
      properties copied from it. An absent key and a null one both read as None. */
  datatype Item = Item(fields: map<string, string>, tags: seq<Tag>, securityGroups: seq<string>, properties: Json)

  datatype Bronze = Bronze(providerType: Option<string>, resourceType: Option<string>, collectedAt: string, items: seq<Item>)

  datatype Resource = Resource(
    resourceId: string,
    resourceType: string,
    provider: string,
    providerType: string,
    accountId: string,
    region: Option<string>,
    properties: Json,
    tags: map<string, string>,
    collectedAt: string)

  datatype Edge = Edge(source: string, target: string, kind: string)

  datatype Inventory = Inventory(resources: seq<Resource>, edges: seq<Edge>)

  const EMPTY: Inventory := Inventory([], [])

  function Joined(first: Inventory, second: Inventory): Inventory {
    Inventory(first.resources + second.resources, first.edges + second.edges)
  }

  // ----- normalize_bronze

  function Get(item: Item, key: string): Option<string> {
    if key in item.fields then Some(item.fields[key]) else None
  }

  function CloudProvider(providerType: string): string {
    if "azure_" <= providerType then "azure" else "aws"
  }

  /** How an f-string shows a value that may be None. */
  function Shown(value: Option<string>): string {
    match value
    case None => "None"
    case Some(text) => text
  }

  /** _tags_from_aws: entries without a key or a value are dropped, and a later entry wins. */
  function TagsFromAws(tags: seq<Tag>): map<string, string> {
    if tags == [] then map[]
    else
      var before, last := TagsFromAws(tags[..|tags| - 1]), tags[|tags| - 1];
      if last.key.Some? && last.value.Some? then before[last.key.value := last.value.value] else before
  }

  /** How a provider type names its resources. A required key that is absent raises KeyError. */
  datatype IdRule =
    | Own(key: string)
    | OwnBeside(key: string, other: string)
    | OwnOr(key: string, fallback: string)
    | Prefixed(prefix: string, key: string)
    | Regional(service: string, kind: string, key: string)
    | RegionalGet(service: string, kind: string, key: string, default: string)
    | RegionalOr(service: string, kind: string, key: string, default: string)
    | RegionalFixed(service: string, path: string)
    | Account(suffix: string)
    | Subscription(suffix: string)

  datatype RegionRule = NoRegion | InRegion | AtLocation

  datatype Rule = Rule(id: IdRule, region: RegionRule)

  /** Every branch of normalize_bronze; other provider types are skipped. */
  function RuleOf(providerType: string): Option<Rule> {
    match providerType
    case "aws_iam_user" => Some(Rule(Own("Arn"), NoRegion))
    case "aws_iam_account" => Some(Rule(Account(":root"), NoRegion))
    case "aws_iam_account_password_policy" => Some(Rule(Account(":password-policy"), NoRegion))
    case "aws_iam_server_certificate" => Some(Rule(Own("Arn"), NoRegion))
    case "aws_iam_access_analyzer" => Some(Rule(Own("Arn"), InRegion))
    case "aws_s3_bucket" => Some(Rule(Prefixed("arn:aws:s3:::", "Name"), InRegion))
    case "aws_ec2_instance" => Some(Rule(Regional("ec2", "instance", "InstanceId"), InRegion))
    case "aws_rds_instance" => Some(Rule(Own("DBInstanceArn"), InRegion))
    case "aws_rds_cluster" => Some(Rule(Own("DBClusterArn"), InRegion))
    case "aws_rds_snapshot" => Some(Rule(Own("DBSnapshotArn"), InRegion))
    case "aws_dynamodb_table" => Some(Rule(Own("TableArn"), InRegion))
    case "aws_elasticache_replication_group" => Some(Rule(OwnOr("ARN", "ReplicationGroupId"), InRegion))
    case "aws_efs_file_system" => Some(Rule(Regional("elasticfilesystem", "file-system", "FileSystemId"), InRegion))
    case "aws_cloudtrail_trail" => Some(Rule(Own("Arn"), InRegion))
    case "aws_config_configuration_recorder" => Some(Rule(RegionalGet("config", "config-recorder", "Name", "default"), InRegion))
    case "aws_kms_key" => Some(Rule(Own("Arn"), InRegion))
    case "aws_ec2_vpc" => Some(Rule(Own("Arn"), InRegion))
    case "aws_securityhub_hub" => Some(Rule(Own("HubArn"), InRegion))
    case "aws_account_ebs_encryption" => Some(Rule(RegionalFixed("ec2", "ebs-encryption/default"), InRegion))
    case "aws_ec2_security_group" => Some(Rule(Regional("ec2", "security-group", "GroupId"), InRegion))
    case "aws_ec2_ami" => Some(Rule(Regional("ec2", "image", "ImageId"), InRegion))
    case "aws_ebs_snapshot" => Some(Rule(Regional("ec2", "snapshot", "SnapshotId"), InRegion))
    case "aws_ec2_account_setting" => Some(Rule(RegionalFixed("ec2", "account-settings/ec2"), InRegion))
    case "aws_lambda_function" => Some(Rule(OwnBeside("FunctionArn", "FunctionName"), InRegion))
    case "aws_guardduty_detector" => Some(Rule(RegionalOr("guardduty", "detector", "DetectorId", "none"), InRegion))
    case "aws_ebs_volume" => Some(Rule(Regional("ec2", "volume", "VolumeId"), InRegion))
    case "aws_ec2_network_acl" => Some(Rule(Regional("ec2", "network-acl", "NetworkAclId"), InRegion))
    case "azure_storage_account" => Some(Rule(Own("id"), AtLocation))
    case "azure_network_security_group" => Some(Rule(Own("id"), AtLocation))
    case "azure_virtual_network" => Some(Rule(Own("id"), AtLocation))
    case "azure_virtual_machine" => Some(Rule(Own("id"), AtLocation))
    case "azure_managed_disk" => Some(Rule(Own("id"), AtLocation))
    case "azure_subscription" => Some(Rule(Subscription(""), NoRegion))
    case "azure_key_vault" => Some(Rule(Own("id"), AtLocation))
    case "azure_defender" => Some(Rule(Subscription("/providers/Microsoft.Security/defender"), NoRegion))
    case "azure_sql_server" => Some(Rule(Own("id"), AtLocation))
    case "azure_postgresql_server" => Some(Rule(Own("id"), AtLocation))
    case _ => None
  }

  function RegionalArn(service: string, accountId: string, item: Item, path: string): string {
    "arn:aws:" + service + ":" + Shown(Get(item, "Region")) + ":" + accountId + ":" + path
  }

  /** `item.get(key) or default`. */
  function GetTruthy(item: Item, key: string): Option<string> {
    if Get(item, key) == Some("") then None else Get(item, key)
  }

  /** The resource's identifier; None stands for the KeyError. */
  function IdOf(rule: IdRule, accountId: string, item: Item): Option<string> {
    match rule
    case Own(key) => Get(item, key)
    case OwnBeside(key, other) => if Get(item, other).None? then None else Get(item, key)
    case OwnOr(key, fallback) => if GetTruthy(item, key).Some? then Get(item, key) else Get(item, fallback)
    case Prefixed(prefix, key) =>
      if Get(item, key).None? then None else Some(prefix + Shown(Get(item, key)))
    case Regional(service, kind, key) =>
      if Get(item, key).None? then None
      else Some(RegionalArn(service, accountId, item, kind + "/" + Shown(Get(item, key))))
    case RegionalGet(service, kind, key, default) =>
      Some(RegionalArn(service, accountId, item, kind + "/" + if Get(item, key).Some? then Get(item, key).value else default))
    case RegionalOr(service, kind, key, default) =>
      Some(RegionalArn(service, accountId, item, kind + "/" + if GetTruthy(item, key).Some? then GetTruthy(item, key).value else default))
    case RegionalFixed(service, path) => Some(RegionalArn(service, accountId, item, path))
    case Account(suffix) =>
      var account := if Get(item, "AccountId").Some? then Get(item, "AccountId").value else accountId;
      Some("arn:aws:iam::" + account + suffix)
    case Subscription(suffix) => Some("/subscriptions/" + accountId + suffix)
  }

  function RegionOf(rule: RegionRule, item: Item): Option<string> {
    match rule
    case NoRegion => None
    case InRegion => Get(item, "Region")
    case AtLocation => Get(item, "location")
  }

  /** The two provider types that emit relationships. */
  function EdgesOf(providerType: string, accountId: string, item: Item, id: string): seq<Edge> {
    match providerType
    case "aws_ec2_instance" =>
      if GetTruthy(item, "VpcId").None? then []
      else [Edge(id, RegionalArn("ec2", accountId, item, "vpc/" + Shown(Get(item, "VpcId"))), "member_of")]
    case "azure_virtual_machine" =>
      (if GetTruthy(item, "vnet_id").None? then [] else [Edge(id, Shown(Get(item, "vnet_id")), "member_of")])
      + seq(|item.securityGroups|, i requires 0 <= i < |item.securityGroups| => Edge(id, item.securityGroups[i], "protected_by"))
    case _ => []
  }

  /** The two provider types whose items carry tags. */
  predicate HasTags(providerType: string) {
    providerType == "aws_iam_user" || providerType == "aws_ec2_instance"
  }

  /** _append_resource. */
  function MakeResource(rule: Rule, id: string, providerType: string, resourceType: string, accountId: string,
                        collectedAt: string, item: Item): Resource {
    Resource(id, resourceType, CloudProvider(providerType), providerType, accountId, RegionOf(rule.region, item),
             item.properties, if HasTags(providerType) then TagsFromAws(item.tags) else map[], collectedAt)
  }

  /** One item; None stands for the KeyError. */
  function NormalizeItem(header: Header, accountId: string, item: Item): Option<Inventory> {
    match RuleOf(header.providerType)
    case None => Some(EMPTY)
    case Some(rule) =>
      match IdOf(rule.id, accountId, item)
      case None => None
      case Some(id) =>
        Some(Inventory([MakeResource(rule, id, header.providerType, header.resourceType, accountId, header.collectedAt, item)],
                       EdgesOf(header.providerType, accountId, item, id)))
  }

  /** What the items of one file share. */
  datatype Header = Header(providerType: string, resourceType: string, collectedAt: string)

  function NormalizeItems(header: Header, accountId: string, items: seq<Item>): Option<Inventory> {
    if items == [] then Some(EMPTY)
    else
      match NormalizeItems(header, accountId, items[..|items| - 1])
      case None => None
      case Some(before) =>
        match NormalizeItem(header, accountId, items[|items| - 1])
        case None => None
        case Some(last) => Some(Joined(before, last))
  }

  function Normalize(bronze: Bronze, accountId: string): Option<Inventory> {
    if bronze.providerType.None? || bronze.resourceType.None? then None
    else NormalizeItems(Header(bronze.providerType.value, bronze.resourceType.value, bronze.collectedAt), accountId, bronze.items)
  }

  /** Everything the bronze files of a scan normalise to, in order. */
  function NormalizeAll(files: seq<Bronze>, accountId: string): Option<Inventory> {
    if files == [] then Some(EMPTY)
    else
      match NormalizeAll(files[..|files| - 1], accountId)
      case None => None
      case Some(before) =>
        match Normalize(files[|files| - 1], accountId)
        case None => None
        case Some(last) => Some(Joined(before, last))
  }

  lemma {:induction false} FailurePersists(header: Header, accountId: string, items: seq<Item>, n: nat)
    requires n <= |items| && NormalizeItems(header, accountId, items[..n]).None?
    ensures NormalizeItems(header, accountId, items).None?
  {
    if n == |items| {
      assert items[..n] == items;
    } else {
      assert items[..|items| - 1][..n] == items[..n];
      FailurePersists(header, accountId, items[..|items| - 1], n);
    }
  }

  lemma NormalizeNext(header: Header, accountId: string, items: seq<Item>, i: nat, before: Inventory)
    requires i < |items| && NormalizeItems(header, accountId, items[..i]) == Some(before)
    ensures NormalizeItems(header, accountId, items[..i + 1]) ==
            match NormalizeItem(header, accountId, items[i])
            case None => None
            case Some(last) => Some(Joined(before, last))
    ensures Joined(before, EMPTY) == before
  {
    assert items[..i + 1][..i] == items[..i];
  }

  /** normalize_bronze: the resource of an item is appended after its edges. */
  method NormalizeBronze(bronze: Bronze, accountId: string) returns (result: Option<Inventory>)
    ensures result == Normalize(bronze, accountId)
  {
    if bronze.providerType.None? || bronze.resourceType.None? {
      return None;
    }
    var providerType, resourceType, items := bronze.providerType.value, bronze.resourceType.value, bronze.items;
    ghost var header := Header(providerType, resourceType, bronze.collectedAt);
    var resources: seq<Resource>, relationships: seq<Edge> := [], [];
    for i := 0 to |items|
      invariant NormalizeItems(header, accountId, items[..i]) == Some(Inventory(resources, relationships))
    {
      var item := items[i];
      NormalizeNext(header, accountId, items, i, Inventory(resources, relationships));
      var found := RuleOf(providerType);
      if found.None? {
        continue;
      }
      var rule := found.value;
      var id := IdOf(rule.id, accountId, item);
      if id.None? {
        FailurePersists(header, accountId, items, i + 1);
        return None;
      }
      relationships := relationships + EdgesOf(providerType, accountId, item, id.value);
      resources := resources + [MakeResource(rule, id.value, providerType, resourceType, accountId, bronze.collectedAt, item)];
    }
    assert items[..|items|] == items;
    result := Some(Inventory(resources, relationships));
  }

  // ----- every edge starts at a resource of the same output

  ghost predicate Sourced(inventory: Inventory) {
    forall e | e in inventory.edges :: exists r :: r in inventory.resources && r.resourceId == e.source
  }

  lemma JoinedSourced(first: Inventory, second: Inventory)
    requires Sourced(first) && Sourced(second)
    ensures Sourced(Joined(first, second))
  {
    var both := Joined(first, second);
    forall e | e in both.edges ensures exists r :: r in both.resources && r.resourceId == e.source {
      if e in first.edges {
        var r :| r in first.resources && r.resourceId == e.source;
        assert r in both.resources;
      } else {
        var r :| r in second.resources && r.resourceId == e.source;
        assert r in both.resources;
      }
    }
  }

  lemma ItemSourced(header: Header, accountId: string, item: Item)
    requires NormalizeItem(header, accountId, item).Some?
    ensures Sourced(NormalizeItem(header, accountId, item).value)
  {
    var inventory := NormalizeItem(header, accountId, item).value;
    if inventory.resources != [] {
      var resource := inventory.resources[0];
      forall e | e in inventory.edges ensures e.source == resource.resourceId && resource in inventory.resources {
      }
    }
  }

  lemma {:induction false} ItemsSourced(header: Header, accountId: string, items: seq<Item>)
    requires NormalizeItems(header, accountId, items).Some?
    ensures Sourced(NormalizeItems(header, accountId, items).value)
  {
    if items != [] {
      ItemsSourced(header, accountId, items[..|items| - 1]);
      ItemSourced(header, accountId, items[|items| - 1]);
      JoinedSourced(NormalizeItems(header, accountId, items[..|items| - 1]).value,
                    NormalizeItem(header, accountId, items[|items| - 1]).value);
    }
  }

  /** Every relationship the bronze files of a scan yield starts at a resource they yield. */
  lemma {:induction false} InventorySourced(files: seq<Bronze>, accountId: string)
    requires NormalizeAll(files, accountId).Some?
    ensures Sourced(NormalizeAll(files, accountId).value)
  {
    if files != [] {
      var last := files[|files| - 1];
      InventorySourced(files[..|files| - 1], accountId);
      ItemsSourced(Header(last.providerType.value, last.resourceType.value, last.collectedAt), accountId, last.items);
      JoinedSourced(NormalizeAll(files[..|files| - 1], accountId).value, Normalize(last, accountId).value);
    }
  }

  // ----- the tables

  function Rows(resources: seq<Resource>): seq<(string, Resource)> {
    seq(|resources|, i requires 0 <= i < |resources| => (resources[i].resourceId, resources[i]))
  }

  /** The first resource listed under an identifier. */
  function FirstOf(resources: seq<Resource>, id: string): Option<Resource> {
    if resources == [] then None
    else if resources[0].resourceId == id then Some(resources[0])
    else FirstOf(resources[1..], id)
  }

  function EdgeSet(edges: seq<Edge>): set<Edge> {
    set e | e in edges
  }

  /** The asset table of one scan: the first resource inserted under an identifier stays. */
  class AssetWriter {
    var resources: map<string, Resource>
    var relationships: set<Edge>

    constructor ()
      ensures resources == map[] && relationships == {}
    {
      resources, relationships := map[], {};
    }

    method InsertResources(rows: seq<Resource>) returns (inserted: nat)
      modifies this`resources
      ensures resources == InsertAll(old(resources), Rows(rows))
      ensures |resources| == |old(resources)| + inserted
    {
      inserted := 0;
      for i := 0 to |rows|
        invariant resources == InsertAll(old(resources), Rows(rows[..i]))
        invariant |resources| == |old(resources)| + inserted
      {
        assert Rows(rows[..i + 1])[..i] == Rows(rows[..i]);
        var row := rows[i];
        if row.resourceId !in resources {
          assert resources[row.resourceId := row].Keys == resources.Keys + {row.resourceId};
          resources := resources[row.resourceId := row];
          inserted := inserted + 1;
        }
      }
      assert rows[..|rows|] == rows;
    }

    method InsertRelationships(edges: seq<Edge>) returns (inserted: nat)
      modifies this`relationships
      ensures relationships == old(relationships) + EdgeSet(edges)
      ensures |relationships| == |old(relationships)| + inserted
    {
      inserted := 0;
      for i := 0 to |edges|
        invariant relationships == old(relationships) + EdgeSet(edges[..i])
        invariant |relationships| == |old(relationships)| + inserted
      {
        assert edges[..i + 1] == edges[..i] + [edges[i]];
        if edges[i] !in relationships {
          relationships := relationships + {edges[i]};
          inserted := inserted + 1;
        }
      }
      assert edges[..|edges|] == edges;
    }
  }

  lemma {:induction false} FirstOfIsFirstValue(resources: seq<Resource>, id: string)
    ensures FirstOf(resources, id) == FirstValue(Rows(resources), id)
  {
    if resources != [] {
      FirstOfIsFirstValue(resources[1..], id);
      assert Rows(resources)[1..] == Rows(resources[1..]);
    }
  }

  /** A table that holds, for each identifier listed, the first resource listed under it, and
      nothing else. */
  ghost predicate HoldsFirstOccurrences(table: map<string, Resource>, resources: seq<Resource>) {
    && (forall id :: id in table <==> FirstOf(resources, id).Some?)
    && (forall id | id in table :: table[id] == FirstOf(resources, id).value)
  }

  lemma {:induction false} FirstOfListed(resources: seq<Resource>, id: string)
    ensures FirstOf(resources, id).Some? <==> exists r :: r in resources && r.resourceId == id
    ensures FirstOf(resources, id).Some? ==> FirstOf(resources, id).value.resourceId == id && FirstOf(resources, id).value in resources
  {
    if resources != [] && resources[0].resourceId != id {
      FirstOfListed(resources[1..], id);
    }
  }

  /** Inserting into an empty table keeps the first occurrence of every identifier. */
  lemma InsertsKeepFirst(resources: seq<Resource>)
    ensures HoldsFirstOccurrences(InsertAll(map[], Rows(resources)), resources)
  {
    InsertAllKeepsFirst(map[], Rows(resources));
    forall id ensures FirstOf(resources, id) == FirstValue(Rows(resources), id) {
      FirstOfIsFirstValue(resources, id);
    }
  }

  /** Every stored relationship starts at a stored resource. */
  ghost predicate EdgesStored(table: map<string, Resource>, edges: set<Edge>) {
    forall e | e in edges :: e.source in table
  }

  lemma SourcedIsStored(inventory: Inventory, table: map<string, Resource>)
    requires Sourced(inventory) && HoldsFirstOccurrences(table, inventory.resources)
    ensures EdgesStored(table, EdgeSet(inventory.edges))
  {
    forall e | e in inventory.edges ensures e.source in table {
      var r :| r in inventory.resources && r.resourceId == e.source;
      FirstOfListed(inventory.resources, e.source);
    }
  }

  // ----- assets as the policy engine sees them

  function TagValues(tags: map<string, string>): map<string, Json> {
    map k | k in tags :: Str(tags[k])
  }

  /** A row as AssetRepository returns it; the database adds ingested_at. */
  function ToAsset(resource: Resource, ingestedAt: string): Findings.Asset {
    map[
      "resource_id" := Str(resource.resourceId),
      "resource_type" := Str(resource.resourceType),
      "provider" := Str(resource.provider),
      "provider_type" := Str(resource.providerType),
      "account_id" := Str(resource.accountId),
      "region" := if resource.region.Some? then Str(resource.region.value) else Null,
      "properties" := resource.properties,
      "tags" := Obj(TagValues(resource.tags)),
      "collected_at" := Str(resource.collectedAt),
      "ingested_at" := Str(ingestedAt)]
  }

  /** When each stored identifier was inserted. */
  type Times = map<string, int>

  function IngestedAt(times: Times, iso: int -> string, id: string): string {
    if id in times then iso(times[id]) else ""
  }

  function ToAssets(resources: seq<Resource>, times: Times, iso: int -> string): (assets: seq<Findings.Asset>)
    ensures |assets| == |resources|
    ensures forall a | a in assets :: Findings.IsAssetRow(a)
  {
    seq(|resources|, i requires 0 <= i < |resources| => ToAsset(resources[i], IngestedAt(times, iso, resources[i].resourceId)))
  }

  /** Which stored resources a policy is evaluated on: an absent or empty provider type matches
      every provider type. */
  lemma StoredAssetMatches(policy: Findings.Policy, resource: Resource, ingestedAt: string)
    ensures Findings.Matches(policy, ToAsset(resource, ingestedAt)) <==>
              && policy.provider == resource.provider
              && policy.resourceType == resource.resourceType
              && (policy.providerType == None || policy.providerType == Some("")
                  || policy.providerType == Some(resource.providerType))
  {
    AssetFields(resource, ingestedAt);
  }

  /** The ten fields a policy can read of a stored resource. */
  lemma AssetFields(resource: Resource, ingestedAt: string)
    ensures var asset := ToAsset(resource, ingestedAt);
            && asset.Keys == {"resource_id", "resource_type", "provider", "provider_type", "account_id", "region", "properties",
                              "tags", "collected_at", "ingested_at"}
            && asset["resource_id"] == Str(resource.resourceId)
            && asset["resource_type"] == Str(resource.resourceType)
            && asset["provider"] == Str(resource.provider)
            && asset["provider_type"] == Str(resource.providerType)
            && asset["account_id"] == Str(resource.accountId)
            && asset["region"] == (match resource.region case None => Null case Some(region) => Str(region))
            && asset["properties"] == resource.properties
            && asset["collected_at"] == Str(resource.collectedAt)
            && asset["ingested_at"] == Str(ingestedAt)
            && asset["tags"].Obj? && asset["tags"].fields.Keys == resource.tags.Keys
            && forall k | k in resource.tags :: asset["tags"].fields[k] == Str(resource.tags[k])
  {
    ColumnsDiffer();
    TagsShown(resource.tags);
    assert ToAsset(resource, ingestedAt)["tags"] == Obj(TagValues(resource.tags));
  }

  lemma ColumnsDiffer()
    ensures |"tags"| < |"region"| < |"provider"| < |"account_id"| == |"properties"| < |"resource_id"| == |"ingested_at"|
    ensures |"resource_id"| < |"collected_at"| < |"resource_type"| == |"provider_type"|
    ensures "resource_type" != "provider_type" && "account_id" != "properties" && "resource_id" != "ingested_at"
  {
    assert "resource_type"[0] != "provider_type"[0] && "account_id"[0] != "properties"[0] && "resource_id"[0] != "ingested_at"[0];
  }

  lemma TagsShown(tags: map<string, string>)
    ensures TagValues(tags).Keys == tags.Keys && forall k | k in tags :: TagValues(tags)[k] == Str(tags[k])
  {
  }

  /** The rows of the asset table in the order the database returns them. */
  ghost predicate ListsTable(rows: seq<Resource>, table: map<string, Resource>) {
    && (forall i, j | 0 <= i < j < |rows| :: rows[i].resourceId != rows[j].resourceId)
    && (forall r | r in rows :: r.resourceId in table && table[r.resourceId] == r)
    && (forall id | id in table :: table[id] in rows)
  }

  lemma AssetHasId(resource: Resource, ingestedAt: string)
    ensures Findings.IsAssetRow(ToAsset(resource, ingestedAt)) && Findings.ResourceId(ToAsset(resource, ingestedAt)) == resource.resourceId
  {
    ColumnsDiffer();
  }

  lemma ListedAssetsAreDistinct(rows: seq<Resource>, table: map<string, Resource>, times: Times, iso: int -> string)
    requires ListsTable(rows, table)
    ensures Findings.DistinctAssets(ToAssets(rows, times, iso))
  {
    forall i, j | 0 <= i < j < |rows|
      ensures Findings.ResourceId(ToAssets(rows, times, iso)[i]) != Findings.ResourceId(ToAssets(rows, times, iso)[j])
    {
      AssetHasId(rows[i], IngestedAt(times, iso, rows[i].resourceId));
      AssetHasId(rows[j], IngestedAt(times, iso, rows[j].resourceId));
    }
  }
}
