/** What bronze files become, provider type by provider type, said of the items themselves. */
module Normalization {
  import opened Wrappers
  import opened Assets

  // ----- one file

  /** A file of this provider type, with a resource type. */
  predicate IsFile(bronze: Bronze, providerTypes: set<string>) {
    bronze.providerType.Some? && bronze.providerType.value in providerTypes && bronze.resourceType.Some?
  }

  /** The provider types whose items carry a tag list. */
  const TAGGED: set<string> := {"aws_iam_user", "aws_ec2_instance"}

  /** One resource for each item, in order; the file and the scan give it its types, its collection time
      and its account, and its provider is Azure exactly for the types that begin so. */
  ghost predicate OnePerItem(bronze: Bronze, accountId: string, resources: seq<Resource>) {
    && |resources| == |bronze.items|
    && forall i | 0 <= i < |resources| ::
         && Some(resources[i].providerType) == bronze.providerType && Some(resources[i].resourceType) == bronze.resourceType
         && resources[i].collectedAt == bronze.collectedAt && resources[i].accountId == accountId
         && resources[i].properties == bronze.items[i].properties
         && resources[i].tags == (if resources[i].providerType in TAGGED then TagsFromAws(bronze.items[i].tags) else map[])
         && resources[i].provider == (if "azure_" <= resources[i].providerType then "azure" else "aws")
  }

  lemma {:induction false} ItemsNormalized(header: Header, accountId: string, items: seq<Item>, rule: Rule)
    requires RuleOf(header.providerType) == Some(rule)
    ensures NormalizeItems(header, accountId, items).Some? <==>
            forall i | 0 <= i < |items| :: IdOf(rule.id, accountId, items[i]).Some?
    ensures NormalizeItems(header, accountId, items).Some? ==>
              var resources := NormalizeItems(header, accountId, items).value.resources;
              && |resources| == |items|
              && forall i | 0 <= i < |items| ::
                   resources[i] == MakeResource(rule, IdOf(rule.id, accountId, items[i]).value, header.providerType,
                                                header.resourceType, accountId, header.collectedAt, items[i])
  {
    if items != [] {
      ItemsNormalized(header, accountId, items[..|items| - 1], rule);
      assert forall i | 0 <= i < |items| - 1 :: items[..|items| - 1][i] == items[i];
    }
  }

  lemma FileNormalized(bronze: Bronze, accountId: string, rule: Rule)
    requires bronze.providerType.Some? && bronze.resourceType.Some? && RuleOf(bronze.providerType.value) == Some(rule)
    ensures Normalize(bronze, accountId).Some? <==>
            forall i | 0 <= i < |bronze.items| :: IdOf(rule.id, accountId, bronze.items[i]).Some?
    ensures Normalize(bronze, accountId).Some? ==>
              var resources := Normalize(bronze, accountId).value.resources;
              && OnePerItem(bronze, accountId, resources)
              && forall i | 0 <= i < |bronze.items| ::
                   && Some(resources[i].resourceId) == IdOf(rule.id, accountId, bronze.items[i])
                   && resources[i].region == RegionOf(rule.region, bronze.items[i])
  {
    var header := Header(bronze.providerType.value, bronze.resourceType.value, bronze.collectedAt);
    ItemsNormalized(header, accountId, bronze.items, rule);
  }

  /** Without a provider type or a resource type a file raises. */
  lemma HeaderRequired(bronze: Bronze, accountId: string)
    requires bronze.providerType.None? || bronze.resourceType.None?
    ensures Normalize(bronze, accountId) == None
  {
  }

  // ----- identifiers, by naming scheme

  /** Every resource is named by its item's value under the key, which every item must have, and lies
      where its item says. */
  ghost predicate NamedByKey(bronze: Bronze, accountId: string, key: string, place: Option<string>) {
    var result := Normalize(bronze, accountId);
    && (result.Some? <==> forall i | 0 <= i < |bronze.items| :: key in bronze.items[i].fields)
    && (result.Some? ==>
          && OnePerItem(bronze, accountId, result.value.resources)
          && forall i | 0 <= i < |bronze.items| ::
               var fields, resource := bronze.items[i].fields, result.value.resources[i];
               && resource.resourceId == fields[key]
               && resource.region == if place.Some? && place.value in fields then Some(fields[place.value]) else None)
  }

  lemma IamNames(bronze: Bronze, accountId: string)
    requires IsFile(bronze, {"aws_iam_user", "aws_iam_server_certificate"})
    ensures NamedByKey(bronze, accountId, "Arn", None)
  {
    FileNormalized(bronze, accountId, Rule(Own("Arn"), NoRegion));
  }

  lemma ArnNames(bronze: Bronze, accountId: string)
    requires IsFile(bronze, {"aws_iam_access_analyzer", "aws_cloudtrail_trail", "aws_kms_key", "aws_ec2_vpc"})
    ensures NamedByKey(bronze, accountId, "Arn", Some("Region"))
  {
    FileNormalized(bronze, accountId, Rule(Own("Arn"), InRegion));
  }

  /** The provider types named by a key of their own. */
  predicate IsKeyed(providerType: string, key: string) {
    (providerType, key) in {
      ("aws_rds_instance", "DBInstanceArn"), ("aws_rds_cluster", "DBClusterArn"), ("aws_rds_snapshot", "DBSnapshotArn"),
      ("aws_dynamodb_table", "TableArn"), ("aws_securityhub_hub", "HubArn")}
  }

  lemma OtherKeyRules(providerType: string, key: string)
    requires IsKeyed(providerType, key)
    ensures RuleOf(providerType) == Some(Rule(Own(key), InRegion))
  {
  }

  lemma OtherKeyNames(bronze: Bronze, accountId: string, key: string)
    requires bronze.resourceType.Some? && bronze.providerType.Some?
    requires IsKeyed(bronze.providerType.value, key)
    ensures NamedByKey(bronze, accountId, key, Some("Region"))
  {
    OtherKeyRules(bronze.providerType.value, key);
    FileNormalized(bronze, accountId, Rule(Own(key), InRegion));
  }

  lemma AzureStorageRules(providerType: string)
    requires providerType in {"azure_storage_account", "azure_network_security_group", "azure_virtual_network",
                              "azure_virtual_machine"}
    ensures RuleOf(providerType) == Some(Rule(Own("id"), AtLocation))
  {
  }

  lemma AzureDiskRules(providerType: string)
    requires providerType in {"azure_managed_disk", "azure_key_vault"}
    ensures RuleOf(providerType) == Some(Rule(Own("id"), AtLocation))
  {
  }

  lemma AzureServerRules(providerType: string)
    requires providerType in {"azure_sql_server", "azure_postgresql_server"}
    ensures RuleOf(providerType) == Some(Rule(Own("id"), AtLocation))
  {
  }

  lemma AzureNames(bronze: Bronze, accountId: string)
    requires IsFile(bronze, {"azure_storage_account", "azure_network_security_group", "azure_virtual_network",
                             "azure_virtual_machine", "azure_managed_disk", "azure_key_vault", "azure_sql_server",
                             "azure_postgresql_server"})
    ensures NamedByKey(bronze, accountId, "id", Some("location"))
  {
    var providerType := bronze.providerType.value;
    if providerType in {"azure_managed_disk", "azure_key_vault"} {
      AzureDiskRules(providerType);
    } else if providerType in {"azure_sql_server", "azure_postgresql_server"} {
      AzureServerRules(providerType);
    } else {
      AzureStorageRules(providerType);
    }
    FileNormalized(bronze, accountId, Rule(Own("id"), AtLocation));
  }

  /** How an absent region reads inside an identifier. */
  function RegionText(item: Item): string {
    if "Region" in item.fields then item.fields["Region"] else "None"
  }

  /** arn:aws:service:region:account:path */
  ghost function Arn(service: string, accountId: string, item: Item, path: string): string {
    "arn:aws:" + service + ":" + RegionText(item) + ":" + accountId + ":" + path
  }

  /** The resources of a file whose i-th item is named so, in the item's region. */
  ghost predicate NamedInRegion(bronze: Bronze, accountId: string, resources: seq<Resource>, names: Item -> string) {
    && OnePerItem(bronze, accountId, resources)
    && forall i | 0 <= i < |bronze.items| ::
         && resources[i].resourceId == names(bronze.items[i])
         && resources[i].region ==
            if "Region" in bronze.items[i].fields then Some(bronze.items[i].fields["Region"]) else None
  }

  /** The provider types named by a regional ARN around a key of their own. */
  predicate IsRegional(providerType: string, service: string, kind: string, key: string) {
    || (service == "ec2" && IsComputing(providerType, kind, key))
    || (service == "ec2" && IsStoring(providerType, kind, key))
    || (providerType == "aws_efs_file_system" && service == "elasticfilesystem" && kind == "file-system" && key == "FileSystemId")
  }

  predicate IsComputing(providerType: string, kind: string, key: string) {
    || (providerType == "aws_ec2_instance" && kind == "instance" && key == "InstanceId")
    || (providerType == "aws_ec2_security_group" && kind == "security-group" && key == "GroupId")
    || (providerType == "aws_ec2_network_acl" && kind == "network-acl" && key == "NetworkAclId")
  }

  predicate IsStoring(providerType: string, kind: string, key: string) {
    || (providerType == "aws_ec2_ami" && kind == "image" && key == "ImageId")
    || (providerType == "aws_ebs_snapshot" && kind == "snapshot" && key == "SnapshotId")
    || (providerType == "aws_ebs_volume" && kind == "volume" && key == "VolumeId")
  }

  lemma ComputingRules(providerType: string, kind: string, key: string)
    requires IsComputing(providerType, kind, key)
    ensures RuleOf(providerType) == Some(Rule(Regional("ec2", kind, key), InRegion))
  {
    InstanceRule();
    SecurityGroupRule();
    NetworkAclRule();
  }

  lemma StoringRules(providerType: string, kind: string, key: string)
    requires IsStoring(providerType, kind, key)
    ensures RuleOf(providerType) == Some(Rule(Regional("ec2", kind, key), InRegion))
  {
    ImageRule();
    SnapshotRule();
    VolumeRule();
  }

  lemma InstanceRule()
    ensures RuleOf("aws_ec2_instance") == Some(Rule(Regional("ec2", "instance", "InstanceId"), InRegion))
  {
  }

  lemma SecurityGroupRule()
    ensures RuleOf("aws_ec2_security_group") == Some(Rule(Regional("ec2", "security-group", "GroupId"), InRegion))
  {
  }

  lemma NetworkAclRule()
    ensures RuleOf("aws_ec2_network_acl") == Some(Rule(Regional("ec2", "network-acl", "NetworkAclId"), InRegion))
  {
  }

  lemma ImageRule()
    ensures RuleOf("aws_ec2_ami") == Some(Rule(Regional("ec2", "image", "ImageId"), InRegion))
  {
  }

  lemma SnapshotRule()
    ensures RuleOf("aws_ebs_snapshot") == Some(Rule(Regional("ec2", "snapshot", "SnapshotId"), InRegion))
  {
  }

  lemma VolumeRule()
    ensures RuleOf("aws_ebs_volume") == Some(Rule(Regional("ec2", "volume", "VolumeId"), InRegion))
  {
  }

  lemma FileSystemRule()
    ensures var providerType := "aws_efs_file_system";
            RuleOf(providerType) == Some(Rule(Regional("elasticfilesystem", "file-system", "FileSystemId"), InRegion))
  {
  }

  lemma RegionalRules(providerType: string, service: string, kind: string, key: string)
    requires IsRegional(providerType, service, kind, key)
    ensures RuleOf(providerType) == Some(Rule(Regional(service, kind, key), InRegion))
  {
    if service == "ec2" && IsComputing(providerType, kind, key) {
      ComputingRules(providerType, kind, key);
    } else if service == "ec2" && IsStoring(providerType, kind, key) {
      StoringRules(providerType, kind, key);
    } else {
      FileSystemRule();
    }
  }

  /** Most AWS resources are named by an ARN built from region, account and the item's own key. */
  lemma RegionalNames(bronze: Bronze, accountId: string, service: string, kind: string, key: string)
    requires bronze.resourceType.Some? && bronze.providerType.Some?
    requires IsRegional(bronze.providerType.value, service, kind, key)
    ensures var result := Normalize(bronze, accountId);
            && (result.Some? <==> forall i | 0 <= i < |bronze.items| :: key in bronze.items[i].fields)
            && (result.Some? ==>
                  NamedInRegion(bronze, accountId, result.value.resources,
                                (item: Item) => Arn(service, accountId, item, kind + "/" + (if key in item.fields then item.fields[key] else ""))))
  {
    RegionalRules(bronze.providerType.value, service, kind, key);
    RegionalFile(bronze, accountId, service, kind, key);
  }

  lemma RegionalFile(bronze: Bronze, accountId: string, service: string, kind: string, key: string)
    requires bronze.resourceType.Some? && bronze.providerType.Some?
    requires RuleOf(bronze.providerType.value) == Some(Rule(Regional(service, kind, key), InRegion))
    ensures var result := Normalize(bronze, accountId);
            && (result.Some? <==> forall i | 0 <= i < |bronze.items| :: key in bronze.items[i].fields)
            && (result.Some? ==>
                  NamedInRegion(bronze, accountId, result.value.resources,
                                (item: Item) => Arn(service, accountId, item, kind + "/" + (if key in item.fields then item.fields[key] else ""))))
  {
    FileNormalized(bronze, accountId, Rule(Regional(service, kind, key), InRegion));
  }

  lemma BucketNames(bronze: Bronze, accountId: string)
    requires IsFile(bronze, {"aws_s3_bucket"})
    ensures var result := Normalize(bronze, accountId);
            && (result.Some? <==> forall i | 0 <= i < |bronze.items| :: "Name" in bronze.items[i].fields)
            && (result.Some? ==>
                  NamedInRegion(bronze, accountId, result.value.resources,
                                (item: Item) => "arn:aws:s3:::" + (if "Name" in item.fields then item.fields["Name"] else "")))
  {
    FileNormalized(bronze, accountId, Rule(Prefixed("arn:aws:s3:::", "Name"), InRegion));
  }

  /** A function needs its name although its ARN identifies it. */
  lemma FunctionNames(bronze: Bronze, accountId: string)
    requires IsFile(bronze, {"aws_lambda_function"})
    ensures var result := Normalize(bronze, accountId);
            && (result.Some? <==>
                  forall i | 0 <= i < |bronze.items| ::
                    "FunctionName" in bronze.items[i].fields && "FunctionArn" in bronze.items[i].fields)
            && (result.Some? ==>
                  NamedInRegion(bronze, accountId, result.value.resources,
                                (item: Item) => if "FunctionArn" in item.fields then item.fields["FunctionArn"] else ""))
  {
    FileNormalized(bronze, accountId, Rule(OwnBeside("FunctionArn", "FunctionName"), InRegion));
  }

  /** A replication group without an ARN, or with an empty one, goes by its identifier. */
  lemma ReplicationGroupNames(bronze: Bronze, accountId: string)
    requires IsFile(bronze, {"aws_elasticache_replication_group"})
    ensures var result := Normalize(bronze, accountId);
            && (result.Some? <==>
                  forall i | 0 <= i < |bronze.items| ::
                    ("ARN" in bronze.items[i].fields && bronze.items[i].fields["ARN"] != "")
                    || "ReplicationGroupId" in bronze.items[i].fields)
            && (result.Some? ==>
                  NamedInRegion(bronze, accountId, result.value.resources, (item: Item) =>
                    if "ARN" in item.fields && item.fields["ARN"] != "" then item.fields["ARN"]
                    else if "ReplicationGroupId" in item.fields then item.fields["ReplicationGroupId"]
                    else ""))
  {
    FileNormalized(bronze, accountId, Rule(OwnOr("ARN", "ReplicationGroupId"), InRegion));
  }

  /** Recorders, detectors and the two account-wide settings are named without any required key. */
  lemma RecorderNames(bronze: Bronze, accountId: string)
    requires IsFile(bronze, {"aws_config_configuration_recorder"})
    ensures Normalize(bronze, accountId).Some?
    ensures NamedInRegion(bronze, accountId, Normalize(bronze, accountId).value.resources, (item: Item) =>
              Arn("config", accountId, item, "config-recorder/" + (if "Name" in item.fields then item.fields["Name"] else "default")))
  {
    RecorderRule();
    DefaultedFile(bronze, accountId, "config", "config-recorder", "config-recorder/", "Name", "default");
  }

  lemma RecorderRule()
    ensures var providerType := "aws_config_configuration_recorder";
            RuleOf(providerType) == Some(Rule(RegionalGet("config", "config-recorder", "Name", "default"), InRegion))
    ensures "config-recorder/" == "config-recorder" + "/"
  {
  }

  lemma DefaultedFile(bronze: Bronze, accountId: string, service: string, kind: string, prefix: string, key: string, default: string)
    requires bronze.resourceType.Some? && bronze.providerType.Some?
    requires RuleOf(bronze.providerType.value) == Some(Rule(RegionalGet(service, kind, key, default), InRegion))
    requires prefix == kind + "/"
    ensures Normalize(bronze, accountId).Some?
    ensures NamedInRegion(bronze, accountId, Normalize(bronze, accountId).value.resources, (item: Item) =>
              Arn(service, accountId, item, prefix + (if key in item.fields then item.fields[key] else default)))
  {
    FileNormalized(bronze, accountId, Rule(RegionalGet(service, kind, key, default), InRegion));
  }

  lemma DetectorNames(bronze: Bronze, accountId: string)
    requires IsFile(bronze, {"aws_guardduty_detector"})
    ensures Normalize(bronze, accountId).Some?
    ensures NamedInRegion(bronze, accountId, Normalize(bronze, accountId).value.resources, (item: Item) =>
              Arn("guardduty", accountId, item, "detector/" + (if "DetectorId" in item.fields && item.fields["DetectorId"] != ""
                                                               then item.fields["DetectorId"] else "none")))
  {
    DetectorRule();
    TruthyFile(bronze, accountId, "guardduty", "detector", "detector/", "DetectorId", "none");
  }

  lemma DetectorRule()
    ensures var providerType := "aws_guardduty_detector";
            RuleOf(providerType) == Some(Rule(RegionalOr("guardduty", "detector", "DetectorId", "none"), InRegion))
    ensures "detector/" == "detector" + "/"
  {
  }

  lemma TruthyFile(bronze: Bronze, accountId: string, service: string, kind: string, prefix: string, key: string, default: string)
    requires bronze.resourceType.Some? && bronze.providerType.Some?
    requires RuleOf(bronze.providerType.value) == Some(Rule(RegionalOr(service, kind, key, default), InRegion))
    requires prefix == kind + "/"
    ensures Normalize(bronze, accountId).Some?
    ensures NamedInRegion(bronze, accountId, Normalize(bronze, accountId).value.resources, (item: Item) =>
              Arn(service, accountId, item,
                  prefix + (if key in item.fields && item.fields[key] != "" then item.fields[key] else default)))
  {
    FileNormalized(bronze, accountId, Rule(RegionalOr(service, kind, key, default), InRegion));
  }

  lemma SettingNames(bronze: Bronze, accountId: string, path: string)
    requires bronze.resourceType.Some? && bronze.providerType.Some?
    requires (bronze.providerType.value, path) in {
               ("aws_account_ebs_encryption", "ebs-encryption/default"), ("aws_ec2_account_setting", "account-settings/ec2")}
    ensures Normalize(bronze, accountId).Some?
    ensures NamedInRegion(bronze, accountId, Normalize(bronze, accountId).value.resources,
                          (item: Item) => Arn("ec2", accountId, item, path))
  {
    if path == "ebs-encryption/default" {
      EncryptionSettingRule();
    } else {
      AccountSettingRule();
    }
    FixedFile(bronze, accountId, "ec2", path);
  }

  lemma EncryptionSettingRule()
    ensures RuleOf("aws_account_ebs_encryption") == Some(Rule(RegionalFixed("ec2", "ebs-encryption/default"), InRegion))
  {
  }

  lemma AccountSettingRule()
    ensures RuleOf("aws_ec2_account_setting") == Some(Rule(RegionalFixed("ec2", "account-settings/ec2"), InRegion))
  {
  }

  lemma FixedFile(bronze: Bronze, accountId: string, service: string, path: string)
    requires bronze.resourceType.Some? && bronze.providerType.Some?
    requires RuleOf(bronze.providerType.value) == Some(Rule(RegionalFixed(service, path), InRegion))
    ensures Normalize(bronze, accountId).Some?
    ensures NamedInRegion(bronze, accountId, Normalize(bronze, accountId).value.resources,
                          (item: Item) => Arn(service, accountId, item, path))
  {
    FileNormalized(bronze, accountId, Rule(RegionalFixed(service, path), InRegion));
  }

  /** The resources of a file that lie in no region. */
  ghost predicate NamedAnywhere(bronze: Bronze, accountId: string, names: Item -> string) {
    && Normalize(bronze, accountId).Some?
    && var resources := Normalize(bronze, accountId).value.resources;
       && OnePerItem(bronze, accountId, resources)
       && forall i | 0 <= i < |bronze.items| ::
            resources[i].resourceId == names(bronze.items[i]) && resources[i].region == None
  }

  /** An account is named by its own number if its item gives one, and by the scan's otherwise. */
  lemma AccountNames(bronze: Bronze, accountId: string, suffix: string)
    requires bronze.resourceType.Some? && bronze.providerType.Some?
    requires (bronze.providerType.value, suffix) in {
               ("aws_iam_account", ":root"), ("aws_iam_account_password_policy", ":password-policy")}
    ensures NamedAnywhere(bronze, accountId, (item: Item) =>
              "arn:aws:iam::" + (if "AccountId" in item.fields then item.fields["AccountId"] else accountId) + suffix)
  {
    FileNormalized(bronze, accountId, Rule(Account(suffix), NoRegion));
  }

  lemma SubscriptionNames(bronze: Bronze, accountId: string, suffix: string)
    requires bronze.resourceType.Some? && bronze.providerType.Some?
    requires (bronze.providerType.value, suffix) in {
               ("azure_subscription", ""), ("azure_defender", "/providers/Microsoft.Security/defender")}
    ensures NamedAnywhere(bronze, accountId, (item: Item) => "/subscriptions/" + accountId + suffix)
  {
    if suffix == "" {
      SubscriptionRule();
    } else {
      DefenderRule();
    }
    SubscriptionFile(bronze, accountId, suffix);
  }

  lemma SubscriptionRule()
    ensures RuleOf("azure_subscription") == Some(Rule(Subscription(""), NoRegion))
  {
  }

  lemma DefenderRule()
    ensures var suffix := "/providers/Microsoft.Security/defender";
            && RuleOf("azure_defender") == Some(Rule(Subscription(suffix), NoRegion))
            && suffix != ""
  {
  }

  lemma SubscriptionFile(bronze: Bronze, accountId: string, suffix: string)
    requires bronze.resourceType.Some? && bronze.providerType.Some?
    requires RuleOf(bronze.providerType.value) == Some(Rule(Subscription(suffix), NoRegion))
    ensures NamedAnywhere(bronze, accountId, (item: Item) => "/subscriptions/" + accountId + suffix)
  {
    FileNormalized(bronze, accountId, Rule(Subscription(suffix), NoRegion));
  }

  // ----- which types are known

  /** The provider types that yield resources. */
  predicate IsListed(providerType: string) {
    || providerType in {"aws_iam_user", "aws_iam_server_certificate"}
    || providerType in {"aws_iam_access_analyzer", "aws_cloudtrail_trail", "aws_kms_key", "aws_ec2_vpc"}
    || providerType in {"aws_rds_instance", "aws_rds_cluster", "aws_rds_snapshot", "aws_dynamodb_table", "aws_securityhub_hub"}
    || providerType in {"azure_storage_account", "azure_network_security_group", "azure_virtual_network", "azure_virtual_machine",
                        "azure_managed_disk", "azure_key_vault", "azure_sql_server", "azure_postgresql_server"}
    || providerType in {"aws_ec2_instance", "aws_ec2_security_group", "aws_ec2_network_acl"}
    || providerType in {"aws_ec2_ami", "aws_ebs_snapshot", "aws_ebs_volume", "aws_efs_file_system"}
    || providerType in {"aws_s3_bucket", "aws_lambda_function", "aws_elasticache_replication_group"}
    || providerType in {"aws_config_configuration_recorder", "aws_guardduty_detector"}
    || providerType in {"aws_account_ebs_encryption", "aws_ec2_account_setting"}
    || providerType in {"aws_iam_account", "aws_iam_account_password_policy", "azure_subscription", "azure_defender"}
  }

  lemma ListedHaveRules(providerType: string)
    ensures RuleOf(providerType).Some? <==> IsListed(providerType)
  {
  }

  /** A file of a listed type yields one resource for each of its items, in order. */
  lemma ListedTypesYieldOnePerItem(bronze: Bronze, accountId: string)
    requires bronze.providerType.Some? && IsListed(bronze.providerType.value) && Normalize(bronze, accountId).Some?
    ensures OnePerItem(bronze, accountId, Normalize(bronze, accountId).value.resources)
  {
    ListedHaveRules(bronze.providerType.value);
    FileNormalized(bronze, accountId, RuleOf(bronze.providerType.value).value);
  }

  lemma {:induction false} NothingNormalized(header: Header, accountId: string, items: seq<Item>)
    requires RuleOf(header.providerType).None?
    ensures NormalizeItems(header, accountId, items) == Some(Inventory([], []))
  {
    if items != [] {
      NothingNormalized(header, accountId, items[..|items| - 1]);
      assert NormalizeItem(header, accountId, items[|items| - 1]) == Some(EMPTY);
      assert Joined(EMPTY, EMPTY) == EMPTY;
    }
  }

  /** A file of any other type yields nothing, whatever its items hold. */
  lemma UnlistedTypesYieldNothing(bronze: Bronze, accountId: string)
    requires bronze.providerType.Some? && bronze.resourceType.Some? && !IsListed(bronze.providerType.value)
    ensures Normalize(bronze, accountId) == Some(Inventory([], []))
  {
    ListedHaveRules(bronze.providerType.value);
    NothingNormalized(Header(bronze.providerType.value, bronze.resourceType.value, bronze.collectedAt), accountId, bronze.items);
  }

  // ----- tags

  /** An entry counts when it has both halves. */
  predicate TagAt(tags: seq<Tag>, i: int, key: string) {
    0 <= i < |tags| && tags[i].key == Some(key) && tags[i].value.Some?
  }

  ghost predicate LastTagAt(tags: seq<Tag>, i: int, key: string) {
    TagAt(tags, i, key) && forall j | i < j < |tags| :: !TagAt(tags, j, key)
  }

  /** A key of the tag list is kept with the value of its last complete entry. */
  lemma {:induction false} TagsKeepLast(tags: seq<Tag>, key: string)
    ensures key in TagsFromAws(tags) <==> exists i :: TagAt(tags, i, key)
    ensures key in TagsFromAws(tags) ==> exists i :: LastTagAt(tags, i, key) && tags[i].value == Some(TagsFromAws(tags)[key])
  {
    if tags != [] {
      var n := |tags| - 1;
      var init := tags[..n];
      TagsKeepLast(init, key);
      assert forall i :: TagAt(tags, i, key) <==> TagAt(init, i, key) || (i == n && TagAt(tags, n, key));
      if TagAt(tags, n, key) {
        assert LastTagAt(tags, n, key);
      } else if i :| LastTagAt(init, i, key) && init[i].value == Some(TagsFromAws(init)[key]) {
        assert LastTagAt(tags, i, key);
      }
    }
  }

  // ----- relationships

  lemma LastItemLinked(header: Header, accountId: string, items: seq<Item>, rule: Rule)
    requires items != [] && RuleOf(header.providerType) == Some(rule) && NormalizeItems(header, accountId, items).Some?
    ensures var init, last := items[..|items| - 1], items[|items| - 1];
            && NormalizeItems(header, accountId, init).Some? && IdOf(rule.id, accountId, last).Some?
            && NormalizeItems(header, accountId, items).value.edges ==
               NormalizeItems(header, accountId, init).value.edges
               + EdgesOf(header.providerType, accountId, last, IdOf(rule.id, accountId, last).value)
  {
  }

  function Concat(parts: seq<seq<Edge>>): seq<Edge> {
    if parts == [] then [] else Concat(parts[..|parts| - 1]) + parts[|parts| - 1]
  }

  lemma {:induction false} ConcatContents(parts: seq<seq<Edge>>, e: Edge)
    ensures e in Concat(parts) <==> exists i :: 0 <= i < |parts| && e in parts[i]
  {
    if parts != [] {
      var init, last := parts[..|parts| - 1], parts[|parts| - 1];
      ConcatContents(init, e);
      assert parts == init + [last];
    }
  }

  /** The relationships of the single items, one list for each. */
  function LinksOf(providerType: string, accountId: string, items: seq<Item>, rule: Rule): seq<seq<Edge>> {
    seq(|items|, i requires 0 <= i < |items| =>
      match IdOf(rule.id, accountId, items[i])
      case None => []
      case Some(id) => EdgesOf(providerType, accountId, items[i], id))
  }

  lemma {:induction false} ItemsLinked(header: Header, accountId: string, items: seq<Item>, rule: Rule)
    requires RuleOf(header.providerType) == Some(rule) && NormalizeItems(header, accountId, items).Some?
    ensures NormalizeItems(header, accountId, items).value.edges == Concat(LinksOf(header.providerType, accountId, items, rule))
  {
    if items != [] {
      var init := items[..|items| - 1];
      LastItemLinked(header, accountId, items, rule);
      ItemsLinked(header, accountId, init, rule);
      var parts := LinksOf(header.providerType, accountId, items, rule);
      assert parts[..|items| - 1] == LinksOf(header.providerType, accountId, init, rule);
    }
  }

  lemma FileLinked(bronze: Bronze, accountId: string, rule: Rule, e: Edge)
    requires bronze.providerType.Some? && bronze.resourceType.Some? && RuleOf(bronze.providerType.value) == Some(rule)
    requires Normalize(bronze, accountId).Some?
    ensures |Normalize(bronze, accountId).value.resources| == |bronze.items|
    ensures e in Normalize(bronze, accountId).value.edges <==>
            exists i :: 0 <= i < |bronze.items|
                        && e in EdgesOf(bronze.providerType.value, accountId, bronze.items[i],
                                        Normalize(bronze, accountId).value.resources[i].resourceId)
  {
    var header := Header(bronze.providerType.value, bronze.resourceType.value, bronze.collectedAt);
    ItemsNormalized(header, accountId, bronze.items, rule);
    ItemsLinked(header, accountId, bronze.items, rule);
    var parts, resources := LinksOf(header.providerType, accountId, bronze.items, rule), Normalize(bronze, accountId).value.resources;
    ConcatContents(parts, e);
    forall i | 0 <= i < |bronze.items|
      ensures parts[i] == EdgesOf(header.providerType, accountId, bronze.items[i], resources[i].resourceId)
    {
    }
    if i :| 0 <= i < |parts| && e in parts[i] {
      assert e in EdgesOf(header.providerType, accountId, bronze.items[i], resources[i].resourceId);
    }
    if i :| 0 <= i < |bronze.items| && e in EdgesOf(header.providerType, accountId, bronze.items[i], resources[i].resourceId) {
      assert e in parts[i];
    }
  }

  /** An instance with a VPC is a member of it, under the ARN built from region and account. */
  lemma InstanceLinks(bronze: Bronze, accountId: string, e: Edge)
    requires IsFile(bronze, {"aws_ec2_instance"}) && Normalize(bronze, accountId).Some?
    ensures |Normalize(bronze, accountId).value.resources| == |bronze.items|
    ensures e in Normalize(bronze, accountId).value.edges <==>
            exists i :: 0 <= i < |bronze.items|
                        && var fields := bronze.items[i].fields;
                           && "VpcId" in fields && fields["VpcId"] != ""
                           && e.source == Normalize(bronze, accountId).value.resources[i].resourceId
                           && e.target == Arn("ec2", accountId, bronze.items[i], "vpc/" + fields["VpcId"])
                           && e.kind == "member_of"
  {
    InstanceRule();
    FileLinked(bronze, accountId, Rule(Regional("ec2", "instance", "InstanceId"), InRegion), e);
  }

  /** A virtual machine is a member of its network and protected by each of its security groups. */
  lemma MachineLinks(bronze: Bronze, accountId: string, e: Edge)
    requires IsFile(bronze, {"azure_virtual_machine"}) && Normalize(bronze, accountId).Some?
    ensures |Normalize(bronze, accountId).value.resources| == |bronze.items|
    ensures e in Normalize(bronze, accountId).value.edges <==>
            exists i :: 0 <= i < |bronze.items|
                        && var item := bronze.items[i];
                           && e.source == Normalize(bronze, accountId).value.resources[i].resourceId
                           && ((e.kind == "member_of" && "vnet_id" in item.fields && item.fields["vnet_id"] != ""
                                && e.target == item.fields["vnet_id"])
                               || (e.kind == "protected_by" && e.target in item.securityGroups))
  {
    AzureStorageRules("azure_virtual_machine");
    FileLinked(bronze, accountId, Rule(Own("id"), AtLocation), e);
    forall i | 0 <= i < |bronze.items| {
      MachineEdges(accountId, bronze.items[i], Normalize(bronze, accountId).value.resources[i].resourceId, e);
    }
  }

  lemma MachineEdges(accountId: string, item: Item, id: string, e: Edge)
    ensures e in EdgesOf("azure_virtual_machine", accountId, item, id) <==>
              && e.source == id
              && ((e.kind == "member_of" && "vnet_id" in item.fields && item.fields["vnet_id"] != ""
                   && e.target == item.fields["vnet_id"])
                  || (e.kind == "protected_by" && e.target in item.securityGroups))
  {
    var groups := seq(|item.securityGroups|, i requires 0 <= i < |item.securityGroups| => Edge(id, item.securityGroups[i], "protected_by"));
    var member := if GetTruthy(item, "vnet_id").None? then [] else [Edge(id, Shown(Get(item, "vnet_id")), "member_of")];
    assert EdgesOf("azure_virtual_machine", accountId, item, id) == member + groups;
    if e.source == id && e.kind == "protected_by" && e.target in item.securityGroups {
      var i :| 0 <= i < |item.securityGroups| && item.securityGroups[i] == e.target;
      assert groups[i] == e;
    }
  }

  /** No other type has relationships. */
  lemma OthersDoNotLink(bronze: Bronze, accountId: string)
    requires Normalize(bronze, accountId).Some?
    requires bronze.providerType.Some? && bronze.providerType.value !in {"aws_ec2_instance", "azure_virtual_machine"}
    ensures Normalize(bronze, accountId).value.edges == []
  {
    if !IsListed(bronze.providerType.value) {
      UnlistedTypesYieldNothing(bronze, accountId);
    } else {
      ListedHaveRules(bronze.providerType.value);
      var rule := RuleOf(bronze.providerType.value).value;
      var edges := Normalize(bronze, accountId).value.edges;
      if edges != [] {
        FileLinked(bronze, accountId, rule, edges[0]);
      }
    }
  }
}
