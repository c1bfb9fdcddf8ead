/** Customer-facing prioritisation: risk signals, the priority sort key, and the three lists
    that are ordered by it. */
module RiskPriorities {
  import opened Wrappers
  import opened Json
  import opened StableSort
  import opened Text
  import F = Findings

  type Finding = F.Finding

  // ----- risk signals

  const DATA_SENSITIVE_TYPES := {"storage.bucket", "storage.filesystem", "database.instance"}
  const IDENTITY_RESOURCE_TYPES := {"identity.user", "identity.account", "identity.certificate"}
  const PUBLIC_BLOCKS := {"block_public_acls", "block_public_policy", "ignore_public_acls",
                          "restrict_public_buckets", "public_access_block_enabled"}
  const PUBLIC_POLICY_PREFIXES := {"AWS_EC2_011", "AWS_EC2_012", "AWS_EC2_013", "AWS_CMP_013", "AWS_CMP_014",
                                   "AZURE_NET_001", "AZURE_NET_002", "AZURE_CMP_001", "AZURE_DB_001"}

  /** The evidence's properties object, or the evidence itself. */
  function Properties(finding: Finding): map<string, Json> {
    var evidence := finding.draft.evidence;
    if "properties" in evidence && evidence["properties"].Obj? then evidence["properties"].fields else evidence
  }

  predicate Says(properties: map<string, Json>, key: string, flag: bool) {
    key in properties && properties[key] == Bool(flag)
  }

  predicate InternetExposed(finding: Finding) {
    var policyId, properties := finding.draft.policyId, Properties(finding);
    if "AZURE_STG_003" <= policyId && Says(properties, "allow_blob_public_access", true) then true
    else if finding.draft.resourceType != "storage.bucket" then false
    else if exists key | key in PUBLIC_BLOCKS :: Says(properties, key, false) then true
    else if Says(properties, "is_public", true) || Says(properties, "public", true) then true
    else finding.draft.severity == "critical" && "AWS_S3_" <= policyId
  }

  predicate PubliclyAccessible(finding: Finding) {
    || InternetExposed(finding)
    || Says(Properties(finding), "public", true)
    || exists prefix | prefix in PUBLIC_POLICY_PREFIXES :: prefix <= finding.draft.policyId
  }

  predicate IdentityExposure(finding: Finding) {
    || finding.draft.resourceType in IDENTITY_RESOURCE_TYPES
    || "AWS_IAM_" <= finding.draft.policyId
    || "AZURE_ID_" <= finding.draft.policyId
  }

  predicate DataSensitive(finding: Finding) {
    finding.draft.resourceType in DATA_SENSITIVE_TYPES
  }

  function RiskBase(severity: string): nat {
    match severity
    case "critical" => 92
    case "high" => 72
    case "medium" => 48
    case "low" => 28
    case "info" => 12
    case _ => 45
  }

  function SeverityRank(severity: string): nat {
    match severity
    case "critical" => 0
    case "high" => 1
    case "medium" => 2
    case "low" => 3
    case "info" => 4
    case _ => 99
  }

  function CappedAt100(score: nat): nat {
    if score < 100 then score else 100
  }

  function RiskScore(finding: Finding): nat {
    var s0 := RiskBase(finding.draft.severity);
    var s1 := if InternetExposed(finding) then CappedAt100(s0 + 12) else s0;
    var s2 := if DataSensitive(finding) then CappedAt100(s1 + 8) else s1;
    var s3 := if PubliclyAccessible(finding) && !InternetExposed(finding) then CappedAt100(s2 + 6) else s2;
    if IdentityExposure(finding) then CappedAt100(s3 + 5) else s3
  }

  /** Signals only raise the score, by at most 31, and never past 100. */
  lemma RiskScoreRange(finding: Finding)
    ensures var base, score := RiskBase(finding.draft.severity), RiskScore(finding);
            && base <= score <= 100 && score <= base + 31
            && (score == base || InternetExposed(finding) || DataSensitive(finding)
                || PubliclyAccessible(finding) || IdentityExposure(finding))
  {
  }

  /** The score is the severity's base with 12 for internet exposure, 8 for sensitive data, 6 for a public
      resource that is not on the internet and 5 for an identity, capped once at 100. */
  lemma RiskScoreIsCappedSum(finding: Finding)
    ensures var severity := finding.draft.severity;
            var base := if severity == "critical" then 92 else if severity == "high" then 72
                        else if severity == "medium" then 48 else if severity == "low" then 28
                        else if severity == "info" then 12 else 45;
            var sum := base + (if InternetExposed(finding) then 12 else 0) + (if DataSensitive(finding) then 8 else 0)
                       + (if PubliclyAccessible(finding) && !InternetExposed(finding) then 6 else 0)
                       + (if IdentityExposure(finding) then 5 else 0);
            RiskScore(finding) == if sum < 100 then sum else 100
  {
  }

  const SEVERITIES: seq<string> := ["critical", "high", "medium", "low", "info"]

  /** A more severe finding ranks before, and scores above another with the same signals unless the cap
      makes them equal; an unknown severity ranks last and scores between medium and low. */
  lemma SeverityOrders(i: nat, j: nat, x: Finding, y: Finding)
    requires i < j < 5 && x.draft.severity == SEVERITIES[i] && y.draft.severity == SEVERITIES[j]
    requires InternetExposed(x) == InternetExposed(y) && DataSensitive(x) == DataSensitive(y)
    requires PubliclyAccessible(x) == PubliclyAccessible(y) && IdentityExposure(x) == IdentityExposure(y)
    ensures SeverityRank(x.draft.severity) == i && SeverityRank(y.draft.severity) == j
    ensures RiskScore(x) > RiskScore(y) || RiskScore(x) == RiskScore(y) == 100
  {
    RiskScoreIsCappedSum(x);
    RiskScoreIsCappedSum(y);
  }

  lemma UnknownSeverity(severity: string)
    requires severity !in SEVERITIES
    ensures SeverityRank(severity) == 99 && RiskBase("low") < RiskBase(severity) < RiskBase("medium")
  {
    assert SEVERITIES[0] == "critical" && SEVERITIES[1] == "high" && SEVERITIES[2] == "medium";
    assert SEVERITIES[3] == "low" && SEVERITIES[4] == "info";
  }

  /** The evidence holds the flag under the key, inside its properties object when it has one. */
  predicate Marks(evidence: map<string, Json>, key: string, flag: bool) {
    if "properties" in evidence && evidence["properties"].Obj? then (key, Bool(flag)) in evidence["properties"].fields.Items
    else (key, Bool(flag)) in evidence.Items
  }

  lemma MarksAreSaid(finding: Finding, key: string, flag: bool)
    ensures Says(Properties(finding), key, flag) <==> Marks(finding.draft.evidence, key, flag)
  {
  }

  /** What makes a finding exposed: an Azure storage policy on a blob that is public, or a bucket with a
      public-access block switched off, declared public, or critical under an S3 policy. */
  lemma ExposureMeaning(finding: Finding)
    ensures var evidence := finding.draft.evidence;
            InternetExposed(finding) <==>
              || ("AZURE_STG_003" <= finding.draft.policyId && Marks(evidence, "allow_blob_public_access", true))
              || (finding.draft.resourceType == "storage.bucket"
                  && (|| Marks(evidence, "block_public_acls", false) || Marks(evidence, "block_public_policy", false)
                      || Marks(evidence, "ignore_public_acls", false) || Marks(evidence, "restrict_public_buckets", false)
                      || Marks(evidence, "public_access_block_enabled", false)
                      || Marks(evidence, "is_public", true) || Marks(evidence, "public", true)
                      || (finding.draft.severity == "critical" && "AWS_S3_" <= finding.draft.policyId)))
  {
    forall key, flag ensures Says(Properties(finding), key, flag) <==> Marks(finding.draft.evidence, key, flag) {
      MarksAreSaid(finding, key, flag);
    }
  }

  /** Which findings are sensitive, touch an identity, or are on a public resource. */
  lemma SignalsMeaning(finding: Finding)
    ensures var resourceType, policyId := finding.draft.resourceType, finding.draft.policyId;
            && (DataSensitive(finding) <==>
                  || resourceType == "storage.bucket" || resourceType == "storage.filesystem"
                  || resourceType == "database.instance")
            && (IdentityExposure(finding) <==>
                  || resourceType == "identity.user" || resourceType == "identity.account"
                  || resourceType == "identity.certificate" || "AWS_IAM_" <= policyId || "AZURE_ID_" <= policyId)
            && (PubliclyAccessible(finding) <==>
                  || InternetExposed(finding) || Marks(finding.draft.evidence, "public", true)
                  || "AWS_EC2_011" <= policyId || "AWS_EC2_012" <= policyId || "AWS_EC2_013" <= policyId
                  || "AWS_CMP_013" <= policyId || "AWS_CMP_014" <= policyId || "AZURE_NET_001" <= policyId
                  || "AZURE_NET_002" <= policyId || "AZURE_CMP_001" <= policyId || "AZURE_DB_001" <= policyId)
  {
    MarksAreSaid(finding, "public", true);
  }

  // ----- remediation

  /** What of a policy's remediation the ordering looks at. */
  datatype Remediation = Remediation(frameworkMappings: seq<string>, minutes: Option<int>)

  /** The effective remediation of each policy in the catalog. */
  type Catalog = map<string, Remediation>

  function DefaultMinutes(severity: string): int {
    match severity
    case "critical" => 5
    case "high" => 5
    case "medium" => 3
    case "low" => 2
    case _ => 3
  }

  function RemediationFor(catalog: Catalog, finding: Finding): Remediation {
    if finding.draft.policyId in catalog then catalog[finding.draft.policyId]
    else Remediation([], Some(DefaultMinutes(finding.draft.severity)))
  }

  /** str.upper() as far as the letters C, I, S and the space can come of it: the dotless i and the
      long s are the only letters outside ASCII whose upper case is one of them. */
  function UpperChar(c: char): char {
    if 'a' <= c <= 'z' then c - 'a' + 'A'
    else if c == '\U{131}' then 'I'
    else if c == '\U{17F}' then 'S'
    else c
  }

  function Upper(s: string): string {
    seq(|s|, i requires 0 <= i < |s| => UpperChar(s[i]))
  }

  /** Mappings to the licensed CIS framework are kept from customers. */
  predicate IsCis(mapping: string) {
    "CIS " <= Upper(Strip(mapping, IsSpace))
  }

  function CustomerRemediation(remediation: Remediation): Remediation {
    remediation.(frameworkMappings := Filter(m => !IsCis(m), remediation.frameworkMappings))
  }

  // ----- the sort key

  /** fix_priority_sort_key: a tuple compared lexicographically, smallest first. */
  function SortKey(finding: Finding, remediation: Remediation): (key: seq<int>)
    ensures |key| == 6
  {
    [ 0 - RiskScore(finding),
      SeverityRank(finding.draft.severity),
      if InternetExposed(finding) then 0 else 1,
      if DataSensitive(finding) then 0 else 1,
      if remediation.frameworkMappings != [] then 0 else 1,
      if remediation.minutes.Some? && remediation.minutes.value != 0 then remediation.minutes.value else 99]
  }

  predicate LexLe(a: seq<int>, b: seq<int>) {
    if a == [] then true
    else if b == [] then false
    else a[0] < b[0] || (a[0] == b[0] && LexLe(a[1..], b[1..]))
  }

  lemma {:induction false} LexTotal(a: seq<int>, b: seq<int>)
    ensures LexLe(a, b) || LexLe(b, a)
  {
    if a != [] && b != [] {
      LexTotal(a[1..], b[1..]);
    }
  }

  lemma {:induction false} LexTransitive(a: seq<int>, b: seq<int>, c: seq<int>)
    requires LexLe(a, b) && LexLe(b, c)
    ensures LexLe(a, c)
  {
    if a != [] && a[0] == b[0] == c[0] {
      LexTransitive(a[1..], b[1..], c[1..]);
    }
  }

  /** The order used by build_fix_priorities and build_risk_summary, which pass the remediation
      shown to the customer. */
  predicate CustomerOrder(catalog: Catalog, x: Finding, y: Finding) {
    LexLe(SortKey(x, CustomerRemediation(RemediationFor(catalog, x))),
          SortKey(y, CustomerRemediation(RemediationFor(catalog, y))))
  }

  /** The order used by build_resource_risk, which passes the unfiltered remediation. */
  predicate RawOrder(catalog: Catalog, x: Finding, y: Finding) {
    LexLe(SortKey(x, RemediationFor(catalog, x)), SortKey(y, RemediationFor(catalog, y)))
  }

  function ByCustomer(catalog: Catalog): (Finding, Finding) -> bool {
    (x, y) => CustomerOrder(catalog, x, y)
  }

  function ByRaw(catalog: Catalog): (Finding, Finding) -> bool {
    (x, y) => RawOrder(catalog, x, y)
  }

  lemma OrdersAreTotalPreorders(catalog: Catalog)
    ensures TotalPreorder(ByCustomer(catalog)) && TotalPreorder(ByRaw(catalog))
  {
    forall x, y ensures CustomerOrder(catalog, x, y) || CustomerOrder(catalog, y, x) {
      LexTotal(SortKey(x, CustomerRemediation(RemediationFor(catalog, x))),
               SortKey(y, CustomerRemediation(RemediationFor(catalog, y))));
    }
    forall x, y ensures RawOrder(catalog, x, y) || RawOrder(catalog, y, x) {
      LexTotal(SortKey(x, RemediationFor(catalog, x)), SortKey(y, RemediationFor(catalog, y)));
    }
    forall x, y, z | CustomerOrder(catalog, x, y) && CustomerOrder(catalog, y, z) ensures CustomerOrder(catalog, x, z) {
      LexTransitive(SortKey(x, CustomerRemediation(RemediationFor(catalog, x))),
                    SortKey(y, CustomerRemediation(RemediationFor(catalog, y))),
                    SortKey(z, CustomerRemediation(RemediationFor(catalog, z))));
    }
    forall x, y, z | RawOrder(catalog, x, y) && RawOrder(catalog, y, z) ensures RawOrder(catalog, x, z) {
      LexTransitive(SortKey(x, RemediationFor(catalog, x)), SortKey(y, RemediationFor(catalog, y)),
                    SortKey(z, RemediationFor(catalog, z)));
    }
  }

  function Estimate(minutes: Option<int>): int {
    match minutes
    case None => 99
    case Some(n) => if n == 0 then 99 else n
  }

  /** x comes before y, or ties with it: a higher risk score first, then the more severe, then the exposed,
      then the sensitive, then the mapped to a framework, then the quicker to fix, a missing or zero
      estimate counting as 99 minutes. */
  predicate Precedes(x: Finding, y: Finding, mappings: seq<string>, others: seq<string>, minutes: Option<int>, later: Option<int>) {
    var a, b := SeverityRank(x.draft.severity), SeverityRank(y.draft.severity);
    if RiskScore(x) != RiskScore(y) then RiskScore(x) > RiskScore(y)
    else if a != b then a < b
    else if InternetExposed(x) != InternetExposed(y) then InternetExposed(x)
    else if DataSensitive(x) != DataSensitive(y) then DataSensitive(x)
    else if (mappings == []) != (others == []) then others == []
    else Estimate(minutes) <= Estimate(later)
  }

  lemma {:induction false} LexDecides(a: seq<int>, b: seq<int>, n: nat)
    requires |a| == |b| && n < |a| && a[..n] == b[..n]
    ensures LexLe(a, b) <==> a[n] < b[n] || (a[n] == b[n] && LexLe(a[n + 1..], b[n + 1..]))
  {
    if n > 0 {
      assert a[0] == a[..n][0] == b[..n][0] == b[0];
      assert a[1..][..n - 1] == a[..n][1..] && b[1..][..n - 1] == b[..n][1..];
      LexDecides(a[1..], b[1..], n - 1);
      assert a[1..][n..] == a[n + 1..] && b[1..][n..] == b[n + 1..];
    }
  }

  lemma LexOfSix(a: seq<int>, b: seq<int>)
    requires |a| == |b| == 6
    ensures LexLe(a, b) <==>
            if a[0] != b[0] then a[0] < b[0]
            else if a[1] != b[1] then a[1] < b[1]
            else if a[2] != b[2] then a[2] < b[2]
            else if a[3] != b[3] then a[3] < b[3]
            else if a[4] != b[4] then a[4] < b[4]
            else a[5] <= b[5]
  {
    var n := if a[0] != b[0] then 0 else if a[1] != b[1] then 1 else if a[2] != b[2] then 2
             else if a[3] != b[3] then 3 else if a[4] != b[4] then 4 else 5;
    LexDecides(a, b, n);
    assert n == 5 ==> a[6..] == [] && b[6..] == [];
  }

  lemma KeysPrecede(x: Finding, y: Finding, r: Remediation, t: Remediation)
    ensures LexLe(SortKey(x, r), SortKey(y, t)) <==> Precedes(x, y, r.frameworkMappings, t.frameworkMappings, r.minutes, t.minutes)
  {
    var a, b := SortKey(x, r), SortKey(y, t);
    LexOfSix(a, b);
    assert a[5] == Estimate(r.minutes) && b[5] == Estimate(t.minutes);
    assert a[4] == b[4] <==> ((r.frameworkMappings == []) == (t.frameworkMappings == []));
  }

  /** The two orders, said of the findings: they differ only in the mappings they count. */
  lemma OrdersMeaning(catalog: Catalog, x: Finding, y: Finding)
    ensures var r, t := RemediationFor(catalog, x), RemediationFor(catalog, y);
            && (RawOrder(catalog, x, y) <==> Precedes(x, y, r.frameworkMappings, t.frameworkMappings, r.minutes, t.minutes))
            && (CustomerOrder(catalog, x, y) <==>
                  Precedes(x, y, Filter(m => !IsCis(m), r.frameworkMappings), Filter(m => !IsCis(m), t.frameworkMappings),
                           r.minutes, t.minutes))
  {
    var r, t := RemediationFor(catalog, x), RemediationFor(catalog, y);
    KeysPrecede(x, y, r, t);
    KeysPrecede(x, y, CustomerRemediation(r), CustomerRemediation(t));
  }

  /** A mapping is kept from customers when, white space at its beginning aside, it reads "CIS " in any
      case, the dotless i and the long s included, and goes on with something else than white space. */
  lemma CisMeaning(mapping: string)
    ensures var text := Strip(mapping, IsSpace);
            IsCis(mapping) <==>
              |text| >= 4 && text[0] in {'c', 'C'} && text[1] in {'i', 'I', '\U{131}'} && text[2] in {'s', 'S', '\U{17F}'}
              && text[3] == ' '
  {
    var text := Strip(mapping, IsSpace);
    if |text| >= 4 {
      assert Upper(text)[..4] == [UpperChar(text[0]), UpperChar(text[1]), UpperChar(text[2]), UpperChar(text[3])];
      assert "CIS " <= Upper(text) <==> Upper(text)[..4] == "CIS ";
    }
  }

  /** A policy outside the catalog gets no mappings and an estimate by severity. */
  lemma DefaultRemediation(catalog: Catalog, finding: Finding)
    requires finding.draft.policyId !in catalog
    ensures var r, severity := RemediationFor(catalog, finding), finding.draft.severity;
            && r.frameworkMappings == []
            && (severity in {"critical", "high"} ==> r.minutes == Some(5))
            && (severity == "low" ==> r.minutes == Some(2))
            && (severity !in {"critical", "high", "low"} ==> r.minutes == Some(3))
  {
  }

  // ----- the three lists

  function Failures(findings: seq<Finding>): seq<Finding> {
    Filter((f: Finding) => f.draft.result == F.Fail, findings)
  }

  function FailuresOn(findings: seq<Finding>, resourceId: string): seq<Finding> {
    Filter((f: Finding) => f.draft.resourceId == resourceId && f.draft.result == F.Fail, findings)
  }

  lemma {:induction false} FilterCounts<T>(keep: T -> bool, xs: seq<T>, x: T)
    ensures multiset(Filter(keep, xs))[x] == if keep(x) then multiset(xs)[x] else 0
  {
    if xs != [] {
      FilterCounts(keep, xs[1..], x);
      assert xs == [xs[0]] + xs[1..];
    }
  }

  /** The lists are about the failing findings, each as often as it is given; a resource's about its own. */
  lemma FailuresListed(findings: seq<Finding>, resourceId: string, f: Finding)
    ensures multiset(Failures(findings))[f] == if f.draft.result == F.Fail then multiset(findings)[f] else 0
    ensures multiset(FailuresOn(findings, resourceId))[f] ==
            if f.draft.result == F.Fail && f.draft.resourceId == resourceId then multiset(findings)[f] else 0
  {
    FilterCounts((f: Finding) => f.draft.result == F.Fail, findings, f);
    FilterCounts((f: Finding) => f.draft.resourceId == resourceId && f.draft.result == F.Fail, findings, f);
  }

  datatype RankedFinding = RankedFinding(rank: nat, finding: Finding)

  /** How many elements `xs[:limit]` has for a list of n; a negative limit counts from the end. */
  function SliceLength(limit: int, n: nat): (length: nat)
    ensures length <= n
  {
    if limit >= 0 then (if limit < n then limit else n)
    else if n + limit >= 0 then n + limit else 0
  }

  /** build_fix_priorities. */
  method BuildFixPriorities(catalog: Catalog, findings: seq<Finding>, limit: int) returns (out: seq<RankedFinding>)
    ensures var n := |Failures(findings)|;
            |out| == if limit >= n then n else if limit >= 0 then limit else if n >= -limit then n + limit else 0
    ensures forall i | 0 <= i < |out| ::
              out[i] == RankedFinding(i + 1, Sort(ByCustomer(catalog), Failures(findings))[i])
  {
    var pairs := Sort(ByCustomer(catalog), Failures(findings))[..SliceLength(limit, |Failures(findings)|)];
    out := [];
    for i := 0 to |pairs|
      invariant |out| == i
      invariant forall j | 0 <= j < i :: out[j] == RankedFinding(j + 1, pairs[j])
    {
      out := out + [RankedFinding(i + 1, pairs[i])];
    }
  }

  datatype RiskLevel = Healthy | Critical | High | Medium | Low | Info

  function LevelOf(rank: nat): RiskLevel {
    match rank
    case 0 => Critical
    case 1 => High
    case 2 => Medium
    case 3 => Low
    case 4 => Info
    case _ => Medium
  }

  datatype ResourceRisk = ResourceRisk(level: RiskLevel, findings: seq<Finding>)

  /** The minimum of build_resource_risk's severities. */
  method WorstOf(related: seq<Finding>) returns (worst: Finding)
    requires related != []
    ensures worst in related
    ensures forall f | f in related :: SeverityRank(worst.draft.severity) <= SeverityRank(f.draft.severity)
  {
    worst := related[0];
    for i := 1 to |related|
      invariant worst in related
      invariant forall j | 0 <= j < i :: SeverityRank(worst.draft.severity) <= SeverityRank(related[j].draft.severity)
    {
      if SeverityRank(related[i].draft.severity) < SeverityRank(worst.draft.severity) {
        worst := related[i];
      }
    }
  }

  predicate HasSeverity(related: seq<Finding>, severity: string) {
    exists f | f in related :: f.draft.severity == severity
  }

  /** The level of the worst severity among the failures, and "medium" when none is known. */
  function WorstLevel(related: seq<Finding>): RiskLevel {
    if related == [] then Healthy
    else if HasSeverity(related, "critical") then Critical
    else if HasSeverity(related, "high") then High
    else if HasSeverity(related, "medium") then Medium
    else if HasSeverity(related, "low") then Low
    else if HasSeverity(related, "info") then Info
    else Medium
  }

  lemma WorstDecides(related: seq<Finding>, worst: Finding)
    requires worst in related
    requires forall f | f in related :: SeverityRank(worst.draft.severity) <= SeverityRank(f.draft.severity)
    ensures LevelOf(SeverityRank(worst.draft.severity)) == WorstLevel(related)
  {
  }

  /** build_resource_risk. */
  method BuildResourceRisk(catalog: Catalog, findings: seq<Finding>, resourceId: string) returns (risk: ResourceRisk)
    ensures risk.findings == Sort(ByRaw(catalog), FailuresOn(findings, resourceId))
    ensures risk.level == Healthy <==> FailuresOn(findings, resourceId) == []
    ensures risk.level != Healthy ==>
              exists worst | worst in FailuresOn(findings, resourceId) ::
                && risk.level == LevelOf(SeverityRank(worst.draft.severity))
                && forall f | f in FailuresOn(findings, resourceId) ::
                     SeverityRank(worst.draft.severity) <= SeverityRank(f.draft.severity)
    ensures risk.level == WorstLevel(FailuresOn(findings, resourceId))
  {
    var related := FailuresOn(findings, resourceId);
    if related == [] {
      return ResourceRisk(Healthy, []);
    }
    var worst := WorstOf(related);
    WorstDecides(related, worst);
    risk := ResourceRisk(LevelOf(SeverityRank(worst.draft.severity)), Sort(ByRaw(catalog), related));
  }

  function PolicyIds(findings: seq<Finding>): set<string> {
    set f | f in findings :: f.draft.policyId
  }

  /** The first finding of each policy, in list order. */
  function FirstPerPolicy(findings: seq<Finding>): seq<Finding> {
    if findings == [] then []
    else
      var init, last := findings[..|findings| - 1], findings[|findings| - 1];
      if last.draft.policyId in PolicyIds(init) then FirstPerPolicy(init) else FirstPerPolicy(init) + [last]
  }

  /** The top-risks loop of build_risk_summary. The length test comes after the append, so a
      topN below one still lists one risk. */
  method TopRisks(catalog: Catalog, findings: seq<Finding>, topN: int) returns (top: seq<Finding>)
    ensures top == Take(if topN < 1 then 1 else topN, FirstPerPolicy(Sort(ByCustomer(catalog), Failures(findings))))
  {
    var pairs := Sort(ByCustomer(catalog), Failures(findings));
    top := PickRisks(pairs, topN);
  }

  method PickRisks(pairs: seq<Finding>, topN: int) returns (top: seq<Finding>)
    ensures top == Take(if topN < 1 then 1 else topN, FirstPerPolicy(pairs))
  {
    var seen: set<string> := {};
    top := [];
    for i := 0 to |pairs|
      invariant top == FirstPerPolicy(pairs[..i])
      invariant top == [] || |top| < topN
      invariant seen == PolicyIds(pairs[..i])
    {
      FirstPerPolicyStep(pairs, i);
      if pairs[i].draft.policyId !in seen {
        seen := seen + {pairs[i].draft.policyId};
        top := top + [pairs[i]];
        if |top| >= topN {
          CutShort(pairs, i + 1, topN, top);
          return;
        }
      }
    }
    assert pairs[..|pairs|] == pairs;
  }

  lemma CutShort(pairs: seq<Finding>, n: nat, topN: int, top: seq<Finding>)
    requires n <= |pairs| && top == FirstPerPolicy(pairs[..n]) && top != []
    requires |top| == if topN < 1 then 1 else topN
    ensures top == Take(if topN < 1 then 1 else topN, FirstPerPolicy(pairs))
  {
    FirstPerPolicyPrefix(pairs, n);
  }

  lemma FirstPerPolicyStep(findings: seq<Finding>, i: nat)
    requires i < |findings|
    ensures PolicyIds(findings[..i + 1]) == PolicyIds(findings[..i]) + {findings[i].draft.policyId}
    ensures FirstPerPolicy(findings[..i + 1]) ==
            if findings[i].draft.policyId in PolicyIds(findings[..i]) then FirstPerPolicy(findings[..i])
            else FirstPerPolicy(findings[..i]) + [findings[i]]
  {
    assert findings[..i + 1][..i] == findings[..i];
    assert findings[..i + 1] == findings[..i] + [findings[i]];
  }

  lemma {:induction false} FirstPerPolicyPrefix(findings: seq<Finding>, n: nat)
    requires n <= |findings|
    ensures FirstPerPolicy(findings[..n]) <= FirstPerPolicy(findings)
  {
    if n < |findings| {
      FirstPerPolicyPrefix(findings[..|findings| - 1], n);
      assert findings[..|findings| - 1][..n] == findings[..n];
    } else {
      assert findings[..n] == findings;
    }
  }

  lemma PolicyIdsGrow(findings: seq<Finding>, f: Finding)
    ensures PolicyIds(findings + [f]) == PolicyIds(findings) + {f.draft.policyId}
  {
  }

  /** One entry for each distinct policy. */
  lemma {:induction false} FirstPerPolicyIsComplete(findings: seq<Finding>)
    ensures |FirstPerPolicy(findings)| == |PolicyIds(findings)|
    ensures PolicyIds(FirstPerPolicy(findings)) == PolicyIds(findings)
  {
    if findings != [] {
      var init, last := findings[..|findings| - 1], findings[|findings| - 1];
      FirstPerPolicyIsComplete(init);
      assert findings == init + [last];
      PolicyIdsGrow(init, last);
      PolicyIdsGrow(FirstPerPolicy(init), last);
      if last.draft.policyId !in PolicyIds(init) {
        assert |PolicyIds(init) + {last.draft.policyId}| == |PolicyIds(init)| + 1;
      } else {
        assert PolicyIds(findings) == PolicyIds(init);
      }
    }
  }

  /** Each entry is the first finding of its policy. */
  lemma {:induction false} FirstPerPolicyIsFirst(findings: seq<Finding>, f: Finding)
    requires f in FirstPerPolicy(findings)
    ensures exists i :: 0 <= i < |findings| && findings[i] == f && f.draft.policyId !in PolicyIds(findings[..i])
  {
    var n := |findings| - 1;
    var init := findings[..n];
    if f in FirstPerPolicy(init) {
      FirstPerPolicyIsFirst(init, f);
      var i :| 0 <= i < |init| && init[i] == f && f.draft.policyId !in PolicyIds(init[..i]);
      assert findings[..i] == init[..i];
    } else {
      assert findings[n] == f;
    }
  }

  lemma {:induction false} FirstPerPolicySorted(le: (Finding, Finding) -> bool, findings: seq<Finding>)
    requires Sorted(le, findings)
    ensures Sorted(le, FirstPerPolicy(findings))
  {
    if findings != [] {
      var init, last := findings[..|findings| - 1], findings[|findings| - 1];
      FirstPerPolicySorted(le, init);
      forall f | f in FirstPerPolicy(init) ensures le(f, last) {
        FirstPerPolicyIsFirst(init, f);
        var i :| 0 <= i < |init| && init[i] == f;
        assert le(findings[i], findings[|findings| - 1]);
      }
    }
  }

  lemma OrderedByRisk(catalog: Catalog, x: Finding, y: Finding)
    requires CustomerOrder(catalog, x, y)
    ensures RiskScore(x) >= RiskScore(y)
  {
  }

  lemma SortKeepsPolicies(le: (Finding, Finding) -> bool, findings: seq<Finding>)
    requires TotalPreorder(le)
    ensures PolicyIds(Sort(le, findings)) == PolicyIds(findings)
  {
    SortIsSortedPermutation(le, findings);
    forall f ensures f in Sort(le, findings) <==> f in findings {
      assert f in multiset(Sort(le, findings)) <==> f in multiset(findings);
    }
  }

  /** The top risks number min(topN, distinct failing policies) for topN >= 1, and their risk
      scores never increase. */
  lemma TopRisksShape(catalog: Catalog, findings: seq<Finding>, topN: nat)
    requires topN >= 1
    ensures var top := Take(topN, FirstPerPolicy(Sort(ByCustomer(catalog), Failures(findings))));
            var policies := |PolicyIds(Failures(findings))|;
            && |top| == (if topN < policies then topN else policies)
            && forall i, j | 0 <= i < j < |top| ::
                 top[i].draft.policyId != top[j].draft.policyId && RiskScore(top[i]) >= RiskScore(top[j])
  {
    var le := ByCustomer(catalog);
    var sorted := Sort(le, Failures(findings));
    var firsts := FirstPerPolicy(sorted);
    OrdersAreTotalPreorders(catalog);
    SortIsSortedPermutation(le, Failures(findings));
    SortKeepsPolicies(le, Failures(findings));
    FirstPerPolicyIsComplete(sorted);
    FirstPerPolicyDistinct(sorted);
    FirstPerPolicySorted(le, sorted);
    SortedByRisk(catalog, firsts);
  }

  lemma SortedByRisk(catalog: Catalog, findings: seq<Finding>)
    requires Sorted(ByCustomer(catalog), findings)
    ensures forall i, j | 0 <= i < j < |findings| :: RiskScore(findings[i]) >= RiskScore(findings[j])
  {
    forall i, j | 0 <= i < j < |findings| ensures RiskScore(findings[i]) >= RiskScore(findings[j]) {
      assert ByCustomer(catalog)(findings[i], findings[j]);
      OrderedByRisk(catalog, findings[i], findings[j]);
    }
  }

  lemma {:induction false} FirstPerPolicyDistinct(findings: seq<Finding>)
    ensures var firsts := FirstPerPolicy(findings);
            forall i, j | 0 <= i < j < |firsts| :: firsts[i].draft.policyId != firsts[j].draft.policyId
  {
    if findings != [] {
      var init := findings[..|findings| - 1];
      FirstPerPolicyDistinct(init);
      FirstPerPolicyIsComplete(init);
      forall f | f in FirstPerPolicy(init) ensures f.draft.policyId in PolicyIds(init) {
        assert f.draft.policyId in PolicyIds(FirstPerPolicy(init));
      }
    }
  }

  // ----- agreement of the orders

  /** A remediation that is mapped, but only to CIS. */
  predicate OnlyCis(remediation: Remediation) {
    remediation.frameworkMappings != [] && forall m | m in remediation.frameworkMappings :: IsCis(m)
  }

  /** Hiding the CIS mappings changes a finding's key exactly when there is nothing else. */
  lemma KeysAgree(finding: Finding, remediation: Remediation)
    ensures SortKey(finding, CustomerRemediation(remediation)) == SortKey(finding, remediation) <==> !OnlyCis(remediation)
  {
    var keep := m => !IsCis(m);
    FilterContents(keep, remediation.frameworkMappings);
    var kept := Filter(keep, remediation.frameworkMappings);
    if kept != [] {
      assert kept[0] in remediation.frameworkMappings;
    }
    if remediation.frameworkMappings != [] && kept == [] {
      assert SortKey(finding, remediation)[4] != SortKey(finding, CustomerRemediation(remediation))[4];
    }
  }

  lemma {:induction false} LexSplits(a: seq<int>, b: seq<int>, n: nat)
    requires |a| == |b| && n <= |a|
    ensures LexLe(a, b) <==> if a[..n] == b[..n] then LexLe(a[n..], b[n..]) else LexLe(a[..n], b[..n])
  {
    if n > 0 {
      LexSplits(a[1..], b[1..], n - 1);
      assert a[1..][..n - 1] == a[..n][1..] && b[1..][..n - 1] == b[..n][1..];
      assert a[1..][n - 1..] == a[n..] && b[1..][n - 1..] == b[n..];
      assert a[..n] == [a[0]] + a[..n][1..] && b[..n] == [b[0]] + b[..n][1..];
    }
  }

  /** Whether a mapping hidden from customers decides between two findings, x before y in the table:
      risk, severity, exposure and sensitivity tie, one of the two is mapped to CIS alone, and counting
      its mapping or not changes which comes first. If the other one is mapped, not counting it puts
      the finding behind; if not, it leaves the choice to the minutes. */
  predicate HiddenMappingDecides(catalog: Catalog, x: Finding, y: Finding) {
    var r, t := RemediationFor(catalog, x), RemediationFor(catalog, y);
    var a, b := SortKey(x, r), SortKey(y, t);
    && a[..4] == b[..4]
    && OnlyCis(r) != OnlyCis(t)
    && (a[5] <= b[5] <==> (OnlyCis(r) <==> (if OnlyCis(r) then t else r).frameworkMappings != []))
  }

  lemma CustomerKey(finding: Finding, remediation: Remediation)
    ensures var raw, shown := SortKey(finding, remediation), SortKey(finding, CustomerRemediation(remediation));
            && shown[..4] == raw[..4] && shown[5] == raw[5]
            && shown[4] == (if OnlyCis(remediation) then 1 else raw[4])
            && (raw[4] == 0 <==> remediation.frameworkMappings != [])
  {
    KeysAgree(finding, remediation);
  }

  lemma LastTwo(a: seq<int>, b: seq<int>)
    requires |a| == |b| == 6
    ensures LexLe(a[4..], b[4..]) <==> a[4] < b[4] || (a[4] == b[4] && a[5] <= b[5])
  {
    var x, y := a[4..], b[4..];
    assert x[1..][1..] == [] && y[1..][1..] == [];
    assert LexLe(x[1..], y[1..]) <==> a[5] <= b[5];
  }

  /** The two orders differ on a pair exactly when a hidden mapping decides it. */
  lemma HiddenMappingIsExact(catalog: Catalog, x: Finding, y: Finding)
    ensures ByRaw(catalog)(x, y) != ByCustomer(catalog)(x, y) <==> HiddenMappingDecides(catalog, x, y)
  {
    var r, t := RemediationFor(catalog, x), RemediationFor(catalog, y);
    var a, b := SortKey(x, r), SortKey(y, t);
    var c, d := SortKey(x, CustomerRemediation(r)), SortKey(y, CustomerRemediation(t));
    CustomerKey(x, r);
    CustomerKey(y, t);
    LexSplits(a, b, 4);
    LexSplits(c, d, 4);
    LastTwo(a, b);
    LastTwo(c, d);
  }

  predicate HiddenMappingsDecideNothing(catalog: Catalog, related: seq<Finding>) {
    forall i, j | 0 <= i < j < |related| :: !HiddenMappingDecides(catalog, related[i], related[j])
  }

  /** The whole priority list, filtered to a resource. */
  function PrioritiesOn(catalog: Catalog, findings: seq<Finding>, resourceId: string): seq<Finding> {
    Filter((f: Finding) => f.draft.resourceId == resourceId, Sort(ByCustomer(catalog), Failures(findings)))
  }

  lemma PrioritiesOnIsSort(catalog: Catalog, findings: seq<Finding>, resourceId: string)
    ensures PrioritiesOn(catalog, findings, resourceId) == Sort(ByCustomer(catalog), FailuresOn(findings, resourceId))
  {
    OrdersAreTotalPreorders(catalog);
    SortFilter(ByCustomer(catalog), Failures(findings), (f: Finding) => f.draft.resourceId == resourceId);
    FilterTwice(findings, resourceId);
  }

  /** A resource's findings stand in the order the whole priority list gives them if and only if no
      hidden mapping decides between two of its failures. */
  lemma ListsAgreeExactly(catalog: Catalog, findings: seq<Finding>, resourceId: string)
    requires Distinct(findings)
    ensures Sort(ByRaw(catalog), FailuresOn(findings, resourceId)) == PrioritiesOn(catalog, findings, resourceId)
            <==> HiddenMappingsDecideNothing(catalog, FailuresOn(findings, resourceId))
  {
    var related := FailuresOn(findings, resourceId);
    OrdersAreTotalPreorders(catalog);
    PrioritiesOnIsSort(catalog, findings, resourceId);
    FilterDistinct((f: Finding) => f.draft.resourceId == resourceId && f.draft.result == F.Fail, findings);
    SortsAgree(ByRaw(catalog), ByCustomer(catalog), related);
    forall i, j | 0 <= i < j < |related|
      ensures ByRaw(catalog)(related[i], related[j]) == ByCustomer(catalog)(related[i], related[j])
              <==> !HiddenMappingDecides(catalog, related[i], related[j])
    {
      HiddenMappingIsExact(catalog, related[i], related[j]);
    }
  }

  /** The priority list cut at a limit, filtered to a resource. */
  function LimitedOn(catalog: Catalog, findings: seq<Finding>, resourceId: string, limit: nat): seq<Finding> {
    Filter((f: Finding) => f.draft.resourceId == resourceId, Take(limit, Sort(ByCustomer(catalog), Failures(findings))))
  }

  /** Under the same condition, and only then, that is a beginning of the resource's list for every
      limit. */
  lemma LimitedListsAgree(catalog: Catalog, findings: seq<Finding>, resourceId: string)
    requires Distinct(findings)
    ensures (forall limit :: LimitedOn(catalog, findings, resourceId, limit) <= Sort(ByRaw(catalog), FailuresOn(findings, resourceId)))
            <==> HiddenMappingsDecideNothing(catalog, FailuresOn(findings, resourceId))
  {
    var list, all := Sort(ByRaw(catalog), FailuresOn(findings, resourceId)), Sort(ByCustomer(catalog), Failures(findings));
    ListsAgreeExactly(catalog, findings, resourceId);
    PrioritiesOnIsSort(catalog, findings, resourceId);
    forall limit ensures LimitedOn(catalog, findings, resourceId, limit) <= PrioritiesOn(catalog, findings, resourceId) {
      FilterOfTake((f: Finding) => f.draft.resourceId == resourceId, limit, all);
    }
    assert LimitedOn(catalog, findings, resourceId, |all|) == PrioritiesOn(catalog, findings, resourceId);
  }

  /** Ordering agreement: in particular when no failing finding of the resource is mapped to CIS
      alone, the resource's findings stand in the order the whole priority list gives them. */
  lemma OrdersAgree(catalog: Catalog, findings: seq<Finding>, resourceId: string)
    requires forall f | f in FailuresOn(findings, resourceId) :: !OnlyCis(RemediationFor(catalog, f))
    ensures Sort(ByRaw(catalog), FailuresOn(findings, resourceId)) ==
            Filter((f: Finding) => f.draft.resourceId == resourceId, Sort(ByCustomer(catalog), Failures(findings)))
  {
    var related := FailuresOn(findings, resourceId);
    OrdersAreTotalPreorders(catalog);
    PrioritiesOnIsSort(catalog, findings, resourceId);
    forall i, j | 0 <= i < j < |related|
      ensures ByCustomer(catalog)(related[i], related[j]) == ByRaw(catalog)(related[i], related[j])
    {
      HiddenMappingIsExact(catalog, related[i], related[j]);
    }
    SortCongruence(ByCustomer(catalog), ByRaw(catalog), related);
  }

  lemma {:induction false} FilterTwice(findings: seq<Finding>, resourceId: string)
    ensures Filter((f: Finding) => f.draft.resourceId == resourceId, Failures(findings)) == FailuresOn(findings, resourceId)
  {
    if findings != [] {
      FilterTwice(findings[1..], resourceId);
      var here := (f: Finding) => f.draft.resourceId == resourceId;
      if findings[0].draft.result == F.Fail {
        FilterCons(here, findings[0], Failures(findings[1..]));
      }
    }
  }

  lemma {:induction false} LexDecidedAt(a: seq<int>, b: seq<int>, n: nat)
    requires n < |a| && n < |b| && a[..n] == b[..n] && a[n] != b[n]
    ensures LexLe(a, b) <==> a[n] < b[n]
  {
    if n > 0 {
      assert a[0] == a[..n][0] == b[..n][0] == b[0];
      assert a[1..][..n - 1] == a[..n][1..] && b[1..][..n - 1] == b[..n][1..];
      LexDecidedAt(a[1..], b[1..], n - 1);
    }
  }

  lemma KeepPair(keep: Finding -> bool, x: Finding, y: Finding)
    requires keep(x) && keep(y)
    ensures Filter(keep, [x, y]) == [x, y]
  {
    assert [x, y][1..] == [y] && [y][1..] == [];
  }

  /** When a policy is mapped to CIS alone the two lists can disagree: against an unmapped finding
      with an otherwise equal key, the raw order counts the hidden mapping and puts its finding
      first, the customer order sees a tie. */
  lemma OnlyCisJumpsTheQueue(catalog: Catalog, unmapped: Finding, onlyCis: Finding)
    requires unmapped.draft.result == F.Fail && onlyCis.draft.result == F.Fail
    requires unmapped.draft.resourceId == onlyCis.draft.resourceId
    requires OnlyCis(RemediationFor(catalog, onlyCis)) && RemediationFor(catalog, unmapped).frameworkMappings == []
    requires var x, y := SortKey(unmapped, RemediationFor(catalog, unmapped)), SortKey(onlyCis, RemediationFor(catalog, onlyCis));
             x[..4] == y[..4] && x[5] == y[5]
    ensures var findings, resourceId := [unmapped, onlyCis], unmapped.draft.resourceId;
            && Sort(ByRaw(catalog), FailuresOn(findings, resourceId)) == [onlyCis, unmapped]
            && Filter((f: Finding) => f.draft.resourceId == resourceId, Sort(ByCustomer(catalog), Failures(findings)))
               == [unmapped, onlyCis]
  {
    var u, c := RemediationFor(catalog, unmapped), RemediationFor(catalog, onlyCis);
    var x, y := SortKey(unmapped, u), SortKey(onlyCis, c);
    LexDecidedAt(x, y, 4);
    NothingKept(m => !IsCis(m), c.frameworkMappings);
    assert SortKey(unmapped, CustomerRemediation(u)) == x;
    assert x == x[..4] + [1, x[5]] && SortKey(onlyCis, CustomerRemediation(c)) == y[..4] + [1, y[5]];
    LexTotal(x, x);
    KeepPair((f: Finding) => f.draft.result == F.Fail, unmapped, onlyCis);
    KeepPair((f: Finding) => f.draft.resourceId == unmapped.draft.resourceId && f.draft.result == F.Fail, unmapped, onlyCis);
    KeepPair((f: Finding) => f.draft.resourceId == unmapped.draft.resourceId, unmapped, onlyCis);
    SortPair(ByRaw(catalog), unmapped, onlyCis);
    SortPair(ByCustomer(catalog), unmapped, onlyCis);
  }

  /** A concrete pair: two high findings on one network, one of them mapped to CIS 1.1 only. */
  lemma OrdersCanDisagree()
    ensures var catalog: Catalog := map["P1" := Remediation(["CIS 1.1"], Some(5))];
            var unmapped := F.Finding(0, F.Draft("P2", "r", "network.vpc", F.Fail, F.Open, "high", "", map[]));
            var onlyCis := F.Finding(1, F.Draft("P1", "r", "network.vpc", F.Fail, F.Open, "high", "", map[]));
            && Sort(ByRaw(catalog), FailuresOn([unmapped, onlyCis], "r")) == [onlyCis, unmapped]
            && Filter((f: Finding) => f.draft.resourceId == "r", Sort(ByCustomer(catalog), Failures([unmapped, onlyCis])))
               == [unmapped, onlyCis]
  {
    var catalog: Catalog := map["P1" := Remediation(["CIS 1.1"], Some(5))];
    var unmapped := F.Finding(0, F.Draft("P2", "r", "network.vpc", F.Fail, F.Open, "high", "", map[]));
    var onlyCis := F.Finding(1, F.Draft("P1", "r", "network.vpc", F.Fail, F.Open, "high", "", map[]));
    assert "P2" != "P1" by {
      assert "P2"[1] != "P1"[1];
    }
    IsCisMapping();
    NothingExposed(unmapped);
    NothingExposed(onlyCis);
    OnlyCisJumpsTheQueue(catalog, unmapped, onlyCis);
  }

  lemma IsCisMapping()
    ensures IsCis("CIS 1.1")
  {
    var mapping := "CIS 1.1";
    assert StripLeft(mapping, IsSpace) == mapping && StripRight(mapping, IsSpace) == mapping;
    assert Upper(mapping)[..4] == "CIS ";
  }

  lemma NothingExposed(finding: Finding)
    requires finding.draft.evidence == map[] && finding.draft.resourceType == "network.vpc"
    requires |finding.draft.policyId| == 2
    ensures !InternetExposed(finding) && !DataSensitive(finding) && !PubliclyAccessible(finding) && !IdentityExposure(finding)
  {
  }
}
