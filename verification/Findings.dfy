/** Policy evaluation over a scan's assets, into the keyed findings table. */
module Findings {
  import opened Wrappers
  import opened Json
  import opened Evaluator

  // ----- policies and assets

  type Asset = map<string, Json>

  datatype Policy = Policy(
    policyId: string,
    title: string,
    provider: string,
    resourceType: string,
    providerType: Option<string>,
    severity: string,
    logic: Logic,
    evidenceFields: seq<string>)

  function GetOr(asset: Asset, key: string, default: Json): Json {
    if key in asset then asset[key] else default
  }

  /** PolicyDefinition.matches_asset: an asset without a provider counts as AWS, and an empty or
      absent provider_type on the policy matches every asset. */
  predicate Matches(policy: Policy, asset: Asset) {
    && GetOr(asset, "provider", Str("aws")) == Str(policy.provider)
    && GetOr(asset, "resource_type", Null) == Str(policy.resourceType)
    && (policy.providerType.Some? && policy.providerType.value != "" ==>
          GetOr(asset, "provider_type", Null) == Str(policy.providerType.value))
  }

  /** Rows of the asset table always carry an identifier and a type. */
  predicate IsAssetRow(asset: Asset) {
    && "resource_id" in asset && asset["resource_id"].Str?
    && "resource_type" in asset && asset["resource_type"].Str?
  }

  function ResourceId(asset: Asset): string
    requires IsAssetRow(asset)
  {
    asset["resource_id"].text
  }

  // ----- findings

  datatype FindingResult = Pass | Fail | Error
  datatype FindingStatus = Open | Resolved

  /** One evaluated (policy, asset) pair: a findings row without its identifier. */
  datatype Draft = Draft(
    policyId: string,
    resourceId: string,
    resourceType: string,
    result: FindingResult,
    status: FindingStatus,
    severity: string,
    title: string,
    evidence: map<string, Json>)

  type Key = (string, string)

  datatype Finding = Finding(id: nat, draft: Draft)

  /** The findings table of one scan and the supply of row identifiers. */
  datatype Store = Store(rows: map<Key, Finding>, nextId: nat)

  /** The text of a caught exception is not part of this model. */
  const ERROR_EVIDENCE: map<string, Json> := map["error" := Str("exception")]

  function KeyOf(draft: Draft): Key {
    (draft.policyId, draft.resourceId)
  }

  function StatusFor(result: FindingResult): FindingStatus {
    if result == Fail then Open else Resolved
  }

  function ResultOf(verdict: Verdict): FindingResult {
    match verdict
    case Raised => Error
    case Is(failed) => if failed then Fail else Pass
  }

  function Judge(policy: Policy, asset: Asset): Draft
    requires IsAssetRow(asset)
  {
    var verdict := EvaluateLogic(Obj(asset), policy.logic);
    var evidence := if verdict.Raised? then ERROR_EVIDENCE else Evidence(Obj(asset), policy.evidenceFields);
    Draft(policy.policyId, ResourceId(asset), asset["resource_type"].text, ResultOf(verdict),
          StatusFor(ResultOf(verdict)), policy.severity, policy.title, evidence)
  }

  /** INSERT ... ON CONFLICT DO UPDATE: an existing row keeps its identifier. */
  function Upsert(store: Store, draft: Draft): Store {
    var key := KeyOf(draft);
    if key in store.rows then
      store.(rows := store.rows[key := Finding(store.rows[key].id, draft)])
    else
      Store(store.rows[key := Finding(store.nextId, draft)], store.nextId + 1)
  }

  function UpsertAll(store: Store, drafts: seq<Draft>): Store {
    if drafts == [] then store
    else Upsert(UpsertAll(store, drafts[..|drafts| - 1]), drafts[|drafts| - 1])
  }

  function DraftsOf(policy: Policy, assets: seq<Asset>): seq<Draft>
    requires forall a | a in assets :: IsAssetRow(a)
  {
    if assets == [] then []
    else
      var last := assets[|assets| - 1];
      DraftsOf(policy, assets[..|assets| - 1]) + if Matches(policy, last) then [Judge(policy, last)] else []
  }

  /** The drafts of a whole scan, policy by policy, in the order the loops produce them. */
  function Drafts(policies: seq<Policy>, assets: seq<Asset>): seq<Draft>
    requires forall a | a in assets :: IsAssetRow(a)
  {
    if policies == [] then []
    else Drafts(policies[..|policies| - 1], assets) + DraftsOf(policies[|policies| - 1], assets)
  }

  function FailCount(drafts: seq<Draft>): nat {
    if drafts == [] then 0
    else FailCount(drafts[..|drafts| - 1]) + if drafts[|drafts| - 1].result == Fail then 1 else 0
  }

  datatype EvaluationRun = EvaluationRun(running: bool, failed: bool, policiesRun: nat, findingsCount: nat, failCount: nat)

  // ----- the repository and the evaluation loop

  class FindingsRepository {
    var rows: map<Key, Finding>
    var nextId: nat

    constructor ()
      ensures Contents() == Store(map[], 0)
    {
      rows, nextId := map[], 0;
    }

    function Contents(): Store
      reads this
    {
      Store(rows, nextId)
    }

    method UpsertFinding(policy: Policy, resourceId: string, resourceType: string,
                         result: FindingResult, evidence: map<string, Json>)
      modifies this
      ensures Contents() == Upsert(old(Contents()), Draft(policy.policyId, resourceId, resourceType, result,
                                                          StatusFor(result), policy.severity, policy.title, evidence))
    {
      var status := if result == Fail then Open else Resolved;
      var key := (policy.policyId, resourceId);
      var draft := Draft(policy.policyId, resourceId, resourceType, result, status,
                         policy.severity, policy.title, evidence);
      if key in rows {
        rows := rows[key := Finding(rows[key].id, draft)];
      } else {
        rows := rows[key := Finding(nextId, draft)];
        nextId := nextId + 1;
      }
    }

    /** The body of evaluate_scan's inner loop, for an asset that matches. */
    method EvaluateAsset(policy: Policy, asset: Asset) returns (result: FindingResult)
      requires IsAssetRow(asset)
      modifies this
      ensures Contents() == Upsert(old(Contents()), Judge(policy, asset))
      ensures result == Judge(policy, asset).result
    {
      var verdict := EvaluateLogic(Obj(asset), policy.logic);
      var evidence;
      if verdict.Raised? {
        result, evidence := Error, ERROR_EVIDENCE;
      } else {
        result := if verdict.holds then Fail else Pass;
        evidence := BuildEvidence(Obj(asset), policy.evidenceFields);
      }
      UpsertFinding(policy, asset["resource_id"].text, asset["resource_type"].text, result, evidence);
    }

    /** evaluate_scan. */
    method EvaluateScan(assets: seq<Asset>, policies: seq<Policy>)
      returns (policiesRun: nat, findingsCount: nat, failCount: nat)
      requires forall a | a in assets :: IsAssetRow(a)
      modifies this
      ensures Contents() == UpsertAll(old(Contents()), Drafts(policies, assets))
      ensures policiesRun == |policies|
      ensures findingsCount == |Drafts(policies, assets)|
      ensures failCount == FailCount(Drafts(policies, assets))
    {
      policiesRun, findingsCount, failCount := 0, 0, 0;
      ghost var start := Contents();
      for i := 0 to |policies|
        invariant policiesRun == i
        invariant Tallies(start, Drafts(policies[..i], assets), findingsCount, failCount)
      {
        policiesRun := policiesRun + 1;
        ghost var before := Drafts(policies[..i], assets);
        NoPairYet(before, policies[i], assets);
        for j := 0 to |assets|
          invariant Tallies(start, WithPairs(before, policies[i], assets, j), findingsCount, failCount)
        {
          OneMorePair(start, before, policies[i], assets, j);
          if Matches(policies[i], assets[j]) {
            var result := EvaluateAsset(policies[i], assets[j]);
            findingsCount := findingsCount + 1;
            if result == Fail {
              failCount := failCount + 1;
            }
          }
        }
        DraftsStep(policies, assets, i);
      }
      assert policies[..|policies|] == policies;
    }

    /** The table and the two counters after these drafts. */
    ghost predicate Tallies(start: Store, drafts: seq<Draft>, findingsCount: nat, failCount: nat)
      reads this
    {
      Contents() == UpsertAll(start, drafts) && findingsCount == |drafts| && failCount == FailCount(drafts)
    }
  }

  /** The drafts so far, with those of a policy on the first n assets. */
  ghost function WithPairs(before: seq<Draft>, policy: Policy, assets: seq<Asset>, n: nat): seq<Draft>
    requires n <= |assets| && forall a | a in assets :: IsAssetRow(a)
  {
    before + DraftsOf(policy, assets[..n])
  }

  lemma NoPairYet(before: seq<Draft>, policy: Policy, assets: seq<Asset>)
    requires forall a | a in assets :: IsAssetRow(a)
    ensures WithPairs(before, policy, assets, 0) == before
  {
  }

  lemma OneMorePair(start: Store, before: seq<Draft>, policy: Policy, assets: seq<Asset>, j: nat)
    requires j < |assets| && forall a | a in assets :: IsAssetRow(a)
    ensures var drafts, more := WithPairs(before, policy, assets, j), WithPairs(before, policy, assets, j + 1);
            if Matches(policy, assets[j]) then
              var draft := Judge(policy, assets[j]);
              && |more| == |drafts| + 1
              && UpsertAll(start, more) == Upsert(UpsertAll(start, drafts), draft)
              && FailCount(more) == FailCount(drafts) + if draft.result == Fail then 1 else 0
            else more == drafts
  {
    DraftsOfStep(policy, assets, j);
    if Matches(policy, assets[j]) {
      var drafts, draft := WithPairs(before, policy, assets, j), Judge(policy, assets[j]);
      AppendDraft(start, drafts, draft);
      assert WithPairs(before, policy, assets, j + 1) == drafts + [draft];
    } else {
      assert WithPairs(before, policy, assets, j + 1) == WithPairs(before, policy, assets, j);
    }
  }

  lemma DraftsStep(policies: seq<Policy>, assets: seq<Asset>, i: nat)
    requires i < |policies| && forall a | a in assets :: IsAssetRow(a)
    ensures Drafts(policies[..i + 1], assets) == WithPairs(Drafts(policies[..i], assets), policies[i], assets, |assets|)
  {
    assert assets[..|assets|] == assets;
    assert policies[..i + 1][..i] == policies[..i];
  }

  lemma DraftsOfStep(policy: Policy, assets: seq<Asset>, j: nat)
    requires j < |assets| && forall a | a in assets :: IsAssetRow(a)
    ensures DraftsOf(policy, assets[..j + 1]) ==
            DraftsOf(policy, assets[..j]) + if Matches(policy, assets[j]) then [Judge(policy, assets[j])] else []
  {
    assert assets[..j + 1][..j] == assets[..j];
  }

  lemma AppendDraft(store: Store, drafts: seq<Draft>, draft: Draft)
    ensures UpsertAll(store, drafts + [draft]) == Upsert(UpsertAll(store, drafts), draft)
    ensures FailCount(drafts + [draft]) == FailCount(drafts) + if draft.result == Fail then 1 else 0
  {
    assert (drafts + [draft])[..|drafts|] == drafts;
  }

  // ----- what the loop computes

  ghost predicate DistinctPolicies(policies: seq<Policy>) {
    forall i, j | 0 <= i < j < |policies| :: policies[i].policyId != policies[j].policyId
  }

  ghost predicate DistinctAssets(assets: seq<Asset>)
    requires forall a | a in assets :: IsAssetRow(a)
  {
    forall i, j | 0 <= i < j < |assets| :: ResourceId(assets[i]) != ResourceId(assets[j])
  }

  ghost predicate DistinctKeys(drafts: seq<Draft>) {
    forall i, j | 0 <= i < j < |drafts| :: KeyOf(drafts[i]) != KeyOf(drafts[j])
  }

  /** A draft is listed exactly for the matching pairs. */
  lemma {:induction false} DraftsOfAreMatches(policy: Policy, assets: seq<Asset>)
    requires forall a | a in assets :: IsAssetRow(a)
    ensures forall d :: d in DraftsOf(policy, assets) <==> exists a :: a in assets && Matches(policy, a) && d == Judge(policy, a)
  {
    if assets != [] {
      var init, last := assets[..|assets| - 1], assets[|assets| - 1];
      DraftsOfAreMatches(policy, init);
      assert assets == init + [last];
    }
  }

  lemma {:induction false} DraftsAreMatches(policies: seq<Policy>, assets: seq<Asset>)
    requires forall a | a in assets :: IsAssetRow(a)
    ensures forall d :: d in Drafts(policies, assets) <==>
                   exists p, a :: p in policies && a in assets && Matches(p, a) && d == Judge(p, a)
  {
    if policies != [] {
      var init, last := policies[..|policies| - 1], policies[|policies| - 1];
      DraftsAreMatches(init, assets);
      DraftsOfAreMatches(last, assets);
      assert policies == init + [last];
    }
  }

  lemma {:induction false} DraftsOfDistinct(policy: Policy, assets: seq<Asset>)
    requires forall a | a in assets :: IsAssetRow(a)
    requires DistinctAssets(assets)
    ensures DistinctKeys(DraftsOf(policy, assets))
  {
    if assets != [] {
      var init, last := assets[..|assets| - 1], assets[|assets| - 1];
      DraftsOfDistinct(policy, init);
      DraftsOfAreMatches(policy, init);
      forall d | d in DraftsOf(policy, init) ensures KeyOf(d) != KeyOf(Judge(policy, last)) {
        var a :| a in init && Matches(policy, a) && d == Judge(policy, a);
      }
    }
  }

  lemma {:induction false} DraftsDistinct(policies: seq<Policy>, assets: seq<Asset>)
    requires forall a | a in assets :: IsAssetRow(a)
    requires DistinctPolicies(policies) && DistinctAssets(assets)
    ensures DistinctKeys(Drafts(policies, assets))
  {
    if policies != [] {
      var init, last := policies[..|policies| - 1], policies[|policies| - 1];
      DraftsDistinct(init, assets);
      DraftsOfDistinct(last, assets);
      DraftsAreMatches(init, assets);
      DraftsOfAreMatches(last, assets);
      var before, now := Drafts(init, assets), DraftsOf(last, assets);
      forall d, e | d in before && e in now ensures KeyOf(d) != KeyOf(e) {
        var p, a :| p in init && a in assets && Matches(p, a) && d == Judge(p, a);
        var b :| b in assets && Matches(last, b) && e == Judge(last, b);
        assert p.policyId != last.policyId;
      }
    }
  }

  ghost function FailPositions(drafts: seq<Draft>): set<nat> {
    set i: nat | i < |drafts| && drafts[i].result == Fail
  }

  lemma {:induction false} FailCountIsPositions(drafts: seq<Draft>)
    ensures FailCount(drafts) == |FailPositions(drafts)|
  {
    if drafts != [] {
      var n := |drafts| - 1;
      FailCountIsPositions(drafts[..n]);
      assert n !in FailPositions(drafts[..n]);
      assert FailPositions(drafts) == FailPositions(drafts[..n]) + if drafts[n].result == Fail then {n} else {};
    }
  }

  ghost function FailKeys(rows: map<Key, Finding>): set<Key> {
    set k | k in rows && rows[k].draft.result == Fail
  }

  ghost function OpenKeys(rows: map<Key, Finding>): set<Key> {
    set k | k in rows && rows[k].draft.status == Open
  }

  /** The draft a key ends up with: the last one upserted under it. */
  ghost function LastDraft(drafts: seq<Draft>, key: Key): Option<Draft> {
    if drafts == [] then None
    else if KeyOf(drafts[|drafts| - 1]) == key then Some(drafts[|drafts| - 1])
    else LastDraft(drafts[..|drafts| - 1], key)
  }

  lemma {:induction false} UpsertAllKeepsIds(store: Store, drafts: seq<Draft>)
    ensures var after := UpsertAll(store, drafts);
            store.rows.Keys <= after.rows.Keys && forall k | k in store.rows :: after.rows[k].id == store.rows[k].id
  {
    if drafts != [] {
      UpsertAllKeepsIds(store, drafts[..|drafts| - 1]);
    }
  }

  /** What one key holds afterwards. */
  lemma {:induction false} UpsertAllRow(store: Store, drafts: seq<Draft>, k: Key)
    ensures var after := UpsertAll(store, drafts);
            match LastDraft(drafts, k)
            case Some(d) => k in after.rows && after.rows[k].draft == d
            case None => (k in after.rows <==> k in store.rows) && (k in after.rows ==> after.rows[k] == store.rows[k])
  {
    if drafts != [] {
      UpsertAllRow(store, drafts[..|drafts| - 1], k);
    }
  }

  lemma {:induction false} ListedHasLast(drafts: seq<Draft>, d: Draft)
    requires d in drafts
    ensures LastDraft(drafts, KeyOf(d)).Some?
  {
    var init, last := drafts[..|drafts| - 1], drafts[|drafts| - 1];
    assert drafts == init + [last];
    if KeyOf(last) != KeyOf(d) {
      ListedHasLast(init, d);
    }
  }

  /** Upserting only known keys adds no row. */
  lemma {:induction false} UpsertAllKnown(store: Store, drafts: seq<Draft>)
    requires forall d | d in drafts :: KeyOf(d) in store.rows
    ensures var after := UpsertAll(store, drafts); after.nextId == store.nextId && after.rows.Keys == store.rows.Keys
  {
    if drafts != [] {
      var init, last := drafts[..|drafts| - 1], drafts[|drafts| - 1];
      assert drafts == init + [last];
      UpsertAllKnown(store, init);
    }
  }

  lemma UpsertAllKeepsLast(store: Store, drafts: seq<Draft>)
    ensures var after := UpsertAll(store, drafts);
            && store.rows.Keys <= after.rows.Keys
            && (forall k | k in store.rows :: after.rows[k].id == store.rows[k].id)
            && (forall k | k in after.rows ::
                  match LastDraft(drafts, k)
                  case Some(d) => after.rows[k].draft == d
                  case None => k in store.rows && after.rows[k] == store.rows[k])
            && (forall d | d in drafts :: KeyOf(d) in after.rows)
            && ((forall d | d in drafts :: KeyOf(d) in store.rows) ==>
                  after.nextId == store.nextId && after.rows.Keys == store.rows.Keys)
  {
    var after := UpsertAll(store, drafts);
    UpsertAllKeepsIds(store, drafts);
    forall k | k in after.rows
      ensures match LastDraft(drafts, k)
              case Some(d) => after.rows[k].draft == d
              case None => k in store.rows && after.rows[k] == store.rows[k]
    {
      UpsertAllRow(store, drafts, k);
    }
    forall d | d in drafts ensures KeyOf(d) in after.rows {
      ListedHasLast(drafts, d);
      UpsertAllRow(store, drafts, KeyOf(d));
    }
    if forall d | d in drafts :: KeyOf(d) in store.rows {
      UpsertAllKnown(store, drafts);
    }
  }

  ghost function KeysOf(drafts: seq<Draft>): set<Key> {
    set d | d in drafts :: KeyOf(d)
  }

  lemma {:induction false} UpsertAllKeys(store: Store, drafts: seq<Draft>)
    ensures UpsertAll(store, drafts).rows.Keys == store.rows.Keys + KeysOf(drafts)
  {
    if drafts != [] {
      var init, last := drafts[..|drafts| - 1], drafts[|drafts| - 1];
      UpsertAllKeys(store, init);
      assert drafts == init + [last];
      assert KeysOf(drafts) == KeysOf(init) + {KeyOf(last)};
    }
  }

  lemma AddFailingRow(rows: map<Key, Finding>, key: Key, row: Finding)
    requires key !in rows
    ensures FailKeys(rows[key := row]) == if row.draft.result == Fail then FailKeys(rows) + {key} else FailKeys(rows)
  {
    var after := rows[key := row];
    forall k
      ensures k in FailKeys(after) <==> k in FailKeys(rows) || (k == key && row.draft.result == Fail)
    {
      if k != key {
        assert k in after <==> k in rows;
      }
    }
  }

  lemma AddRow(rows: map<Key, Finding>, key: Key, row: Finding)
    requires key !in rows
    ensures |rows[key := row]| == |rows| + 1
    ensures |FailKeys(rows[key := row])| == |FailKeys(rows)| + if row.draft.result == Fail then 1 else 0
  {
    assert rows[key := row].Keys == rows.Keys + {key};
    AddFailingRow(rows, key, row);
    assert key !in FailKeys(rows);
  }

  lemma UpsertNewKey(store: Store, draft: Draft)
    requires KeyOf(draft) !in store.rows
    ensures |Upsert(store, draft).rows| == |store.rows| + 1
    ensures |FailKeys(Upsert(store, draft).rows)| == |FailKeys(store.rows)| + if draft.result == Fail then 1 else 0
  {
    AddRow(store.rows, KeyOf(draft), Finding(store.nextId, draft));
  }

  /** Upserting drafts with distinct new keys adds one row for each. */
  lemma {:induction false} UpsertDistinctCounts(store: Store, drafts: seq<Draft>)
    requires DistinctKeys(drafts)
    requires forall d | d in drafts :: KeyOf(d) !in store.rows
    ensures |UpsertAll(store, drafts).rows| == |store.rows| + |drafts|
    ensures |FailKeys(UpsertAll(store, drafts).rows)| == |FailKeys(store.rows)| + FailCount(drafts)
  {
    if drafts != [] {
      var init, last := drafts[..|drafts| - 1], drafts[|drafts| - 1];
      UpsertDistinctCounts(store, init);
      UpsertAllKeys(store, init);
      assert KeyOf(last) !in KeysOf(init);
      UpsertNewKey(UpsertAll(store, init), last);
    }
  }

  lemma {:induction false} LastDraftDistinct(drafts: seq<Draft>, draft: Draft)
    requires DistinctKeys(drafts) && draft in drafts
    ensures LastDraft(drafts, KeyOf(draft)) == Some(draft)
  {
    var init, last := drafts[..|drafts| - 1], drafts[|drafts| - 1];
    assert drafts == init + [last];
    if draft != last {
      assert draft in init;
      LastDraftDistinct(init, draft);
    }
  }

  lemma DraftKeysAreMatches(policies: seq<Policy>, assets: seq<Asset>)
    requires forall a | a in assets :: IsAssetRow(a)
    ensures forall k :: k in KeysOf(Drafts(policies, assets)) <==>
                   exists p, a :: p in policies && a in assets && Matches(p, a) && k == (p.policyId, ResourceId(a))
  {
    DraftsAreMatches(policies, assets);
    var drafts := Drafts(policies, assets);
    forall k | k in KeysOf(drafts)
      ensures exists p, a :: p in policies && a in assets && Matches(p, a) && k == (p.policyId, ResourceId(a))
    {
      var d :| d in drafts && KeyOf(d) == k;
      var p, a :| p in policies && a in assets && Matches(p, a) && d == Judge(p, a);
    }
    forall p, a | p in policies && a in assets && Matches(p, a)
      ensures (p.policyId, ResourceId(a)) in KeysOf(drafts)
    {
      assert Judge(p, a) in drafts && KeyOf(Judge(p, a)) == (p.policyId, ResourceId(a));
    }
  }

  /** What evaluate_scan leaves in an empty table when policy ids and resource ids are distinct:
      a row exists exactly for the pairs where the policy matches the asset, and it holds the
      verdict of that pair. */
  lemma EvaluationIsComprehension(policies: seq<Policy>, assets: seq<Asset>, nextId: nat)
    requires forall a | a in assets :: IsAssetRow(a)
    requires DistinctPolicies(policies) && DistinctAssets(assets)
    ensures var rows := UpsertAll(Store(map[], nextId), Drafts(policies, assets)).rows;
            && (forall k :: k in rows <==>
                  exists p, a :: p in policies && a in assets && Matches(p, a) && k == (p.policyId, ResourceId(a)))
            && (forall p, a | p in policies && a in assets && Matches(p, a) ::
                  (p.policyId, ResourceId(a)) in rows && rows[(p.policyId, ResourceId(a))].draft == Judge(p, a))
  {
    var drafts := Drafts(policies, assets);
    var rows := UpsertAll(Store(map[], nextId), drafts).rows;
    UpsertAllKeys(Store(map[], nextId), drafts);
    assert rows.Keys == KeysOf(drafts);
    DraftKeysAreMatches(policies, assets);
    forall p, a | p in policies && a in assets && Matches(p, a)
      ensures (p.policyId, ResourceId(a)) in rows && rows[(p.policyId, ResourceId(a))].draft == Judge(p, a)
    {
      RowHoldsVerdict(policies, assets, nextId, p, a);
    }
  }

  lemma RowHoldsVerdict(policies: seq<Policy>, assets: seq<Asset>, nextId: nat, p: Policy, a: Asset)
    requires forall a | a in assets :: IsAssetRow(a)
    requires DistinctPolicies(policies) && DistinctAssets(assets)
    requires p in policies && a in assets && Matches(p, a)
    ensures var rows := UpsertAll(Store(map[], nextId), Drafts(policies, assets)).rows;
            (p.policyId, ResourceId(a)) in rows && rows[(p.policyId, ResourceId(a))].draft == Judge(p, a)
  {
    var drafts := Drafts(policies, assets);
    DraftsAreMatches(policies, assets);
    DraftsDistinct(policies, assets);
    UpsertAllKeepsLast(Store(map[], nextId), drafts);
    assert Judge(p, a) in drafts;
    LastDraftDistinct(drafts, Judge(p, a));
  }

  /** The counters evaluate_scan returns count the rows, the failing rows and the open rows. */
  lemma CountersCountRows(policies: seq<Policy>, assets: seq<Asset>, nextId: nat)
    requires forall a | a in assets :: IsAssetRow(a)
    requires DistinctPolicies(policies) && DistinctAssets(assets)
    ensures var rows := UpsertAll(Store(map[], nextId), Drafts(policies, assets)).rows;
            && |rows| == |Drafts(policies, assets)|
            && |FailKeys(rows)| == FailCount(Drafts(policies, assets))
            && OpenKeys(rows) == FailKeys(rows)
  {
    var drafts := Drafts(policies, assets);
    DraftsDistinct(policies, assets);
    UpsertDistinctCounts(Store(map[], nextId), drafts);
    assert FailKeys(Store(map[], nextId).rows) == {};
    EvaluationIsComprehension(policies, assets, nextId);
  }

  // ----- what a stored row says

  /** What a row for this pair holds: the logic's answer as its result, the failures open, the
      evidence the policy asks for, and the policy's own texts. */
  ghost predicate Records(row: Draft, policy: Policy, asset: Asset)
    requires IsAssetRow(asset)
  {
    var verdict := EvaluateLogic(Obj(asset), policy.logic);
    && (row.result == Fail <==> verdict == Is(true))
    && (row.result == Pass <==> verdict == Is(false))
    && (row.result == Error <==> verdict == Raised)
    && (row.status == Open <==> verdict == Is(true))
    && (verdict.Raised? ==> row.evidence.Keys == {"error"})
    && (!verdict.Raised? ==>
          && (forall field :: field in row.evidence <==> field in policy.evidenceFields && Resolve(Obj(asset), field).Some?)
          && (forall field | field in row.evidence :: Resolve(Obj(asset), field) == Some(row.evidence[field])))
    && row.policyId == policy.policyId && row.severity == policy.severity && row.title == policy.title
    && Str(row.resourceId) == asset["resource_id"] && Str(row.resourceType) == asset["resource_type"]
  }

  lemma JudgedRowRecords(policy: Policy, asset: Asset)
    requires IsAssetRow(asset)
    ensures Records(Judge(policy, asset), policy, asset)
  {
  }

  /** Which assets a policy is evaluated on: one without a provider counts as AWS. */
  lemma MatchesMeaning(policy: Policy, asset: Asset)
    ensures Matches(policy, asset) <==>
              && (if "provider" in asset then asset["provider"] == Str(policy.provider) else policy.provider == "aws")
              && "resource_type" in asset && asset["resource_type"] == Str(policy.resourceType)
              && (policy.providerType == None || policy.providerType == Some("")
                  || ("provider_type" in asset && asset["provider_type"] == Str(policy.providerType.value)))
  {
  }

  /** evaluate_scan on a table without findings records the answer of every policy on every asset it
      matches, and nothing else. */
  lemma EvaluationRecordsAnswers(policies: seq<Policy>, assets: seq<Asset>, nextId: nat)
    requires forall a | a in assets :: IsAssetRow(a)
    requires DistinctPolicies(policies) && DistinctAssets(assets)
    ensures var rows := UpsertAll(Store(map[], nextId), Drafts(policies, assets)).rows;
            && (forall p, a | p in policies && a in assets && Matches(p, a) ::
                  (p.policyId, ResourceId(a)) in rows && Records(rows[(p.policyId, ResourceId(a))].draft, p, a))
            && (forall k | k in rows ::
                  exists p, a :: p in policies && a in assets && Matches(p, a) && k == (p.policyId, ResourceId(a)))
  {
    EvaluationIsComprehension(policies, assets, nextId);
    forall p, a | p in policies && a in assets && Matches(p, a)
      ensures Records(Judge(p, a), p, a)
    {
      JudgedRowRecords(p, a);
    }
  }

  // ----- row identifiers

  /** No two rows share an identifier, and the supply is ahead of all of them. */
  ghost predicate FreshIds(store: Store) {
    && (forall k | k in store.rows :: store.rows[k].id < store.nextId)
    && (forall k, l | k in store.rows && l in store.rows && k != l :: store.rows[k].id != store.rows[l].id)
  }

  lemma {:induction false} IdsStayDistinct(store: Store, drafts: seq<Draft>)
    requires FreshIds(store)
    ensures FreshIds(UpsertAll(store, drafts))
  {
    if drafts != [] {
      IdsStayDistinct(store, drafts[..|drafts| - 1]);
    }
  }

  // ----- evaluating again

  /** Evaluating the same drafts a second time changes nothing, identifiers included. */
  lemma UpsertAllIdempotent(store: Store, drafts: seq<Draft>)
    ensures UpsertAll(UpsertAll(store, drafts), drafts) == UpsertAll(store, drafts)
  {
    var once := UpsertAll(store, drafts);
    UpsertAllKeepsLast(store, drafts);
    UpsertAllKeepsLast(once, drafts);
    var twice := UpsertAll(once, drafts);
    forall k | k in twice.rows ensures twice.rows[k] == once.rows[k] {
      assert k in once.rows;
    }
    assert twice.rows == once.rows;
  }
}
