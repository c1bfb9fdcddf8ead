# Verification of the scan platform backend

A Dafny model of the backend that scans cloud accounts: a scan is created by the API, collected by an
external collector, ingested into an asset table, evaluated against policies, and mapped to compliance
frameworks. `dafny verify dfyconfig.toml` checks everything.

## What is modelled

- **The status machine** (`ScanLifecycle`): the ten statuses and the transition table.
- **The scan pipeline as a concurrent system** (`PipelineModel`, `PipelineViews`, `PipelineSafety`,
  `PipelineInventory`, `PipelineOutcome`, `PipelineHistory`, `PipelineRuns`, `PipelineAtomicity`,
  `PipelineCompletion`). Any number of scans share three Redis lists, one ingest worker and one policy worker.
  Every database or Redis call is one step; it returns, raises without effect, or raises although its effect
  took place. The collector is an environment that emits `collection.started` and then one terminal event per
  scan.
- **The handlers as code** (`Workers`): classes whose methods follow `handle_event` statement by statement,
  with try and except paths, proved to leave what the state machine's handler leaves (`Handlers`).
- **Ingest** (`Assets`, `Normalization`), **the policy language** (`Json`, `Evaluator`, `Operators`),
  **evaluation** (`Findings`), **compliance mapping and the decimal score** (`Compliance`, `ComplianceMapping`,
  `ControlOutcomes`, `DecimalScore`), with the keyed tables of `Tables`; from a collected item to its finding
  (`PipelineCoverage`).
- **Smaller pieces**: the cross-tenant scan list (`AdminListing`), risk priorities (`RiskPriorities`), template
  rendering (`Templates`, `TemplateGaps`, `TemplateSafety`, `RemediationTemplates`), the rate limiter
  (`RateLimiter`), workspace slugs (`Slugs`), over `StableSort` and `Text`.

## Assumptions of the pipeline theorems

`Faults` names what may go wrong; a theorem says which of these it excludes.

- `startLost`: the `collection.started` handler may end before its COLLECTING write takes effect (its log
  insert or the write raises, or the event carries no run id).
- `lateRaise`: a call may raise when the final status is already stored.
- `phantomPublish`: a publish that raises may have enqueued its message.
- `redelivery`: a published `policy.evaluate` may be delivered again, any number of times.

`PipelineRuns.AssumptionsAreExact` shows that excluding the first three is exactly what the transition table
needs (the second only where the primary framework is enabled), and that redelivery is harmless to it. Always
assumed: one ingest worker and one policy worker; a scan's events name its own collection run; the collector
sends one terminal event per scan, after `collection.started`; a scan has at most 5000 assets.

## What the proofs found in the code

- A status write can leave the transition table in exactly two ways short of a phantom publish: QUEUED to
  COLLECTED when the start was lost, and COMPLETED to FAILED when a call raises after the final write
  (src/platform_backend/policy/worker.py:111-165).
- An empty `collection_status` counts as completed: the `or` chain falls through to "completed"
  (src/platform_backend/policy/worker.py:105-109).
- TERMINAL_STATUSES contains COMPLETED_WITH_ERRORS, which has successors
  (src/platform_backend/platform/models/scan.py:19-38).
- A `collection.failed` event without a run id is dropped: it leaves the scan QUEUED or COLLECTING for good,
  and is the only way a scan fails to reach a terminal status in a run without exceptions
  (`PipelineCompletion.CalmScanEnds`; src/platform_backend/assets/ingest/worker.py:53-106).
- Four exceptions, and no others, leave a scan EVALUATING for good, because a redelivered request is then
  skipped (`PipelineCompletion.StuckIffStranded`; src/platform_backend/policy/worker.py:75-87, 148-171).
- `resolve_unique_slug` can return a slug of 49 or 50 characters, which `validate_slug` rejects; it does so
  exactly when the base is in use and has 47 or 48 characters
  (`Slugs.ResolvedSlug`; src/platform_backend/platform/repositories/workspace.py:48-57).
- `build_risk_summary` lists one risk even for `top_n` below one
  (src/platform_backend/findings/experience.py:401-402).
- `build_resource_risk` orders by the unfiltered framework mappings, the other lists by those shown to the
  customer; they disagree exactly when a mapping to CIS alone decides between two failures of the resource
  (`RiskPriorities.ListsAgreeExactly`; src/platform_backend/findings/experience.py:286-293, 418, 463).
- A finding whose evaluation raised is stored as resolved (src/platform_backend/findings/repository.py:80).
- An unsupported operator on a missing path answers False instead of raising; a check never raises on a missing
  path (`Evaluator.CheckRaises`; src/platform_backend/policy/engine/evaluator.py:27-51).
- Rendering a template one key at a time is not substitution exactly when a literal brace stands before a gap
  that a resource's values can make read a later key, as in `{{region}}`
  (`RemediationTemplates.RemediationsAreExact`; src/platform_backend/findings/presentation.py:33-50).
- The rate limiter's per-window bound fails exactly when an IP's requests come back to a window after another
  one and are more than the limit, which takes a clock that steps back
  (`RateLimiter.MemoryWindowBoundIsExact`; src/platform_backend/api/middleware/security.py:85-89).

## Model

| member | source | states |
|---|---|---|
| `ScanLifecycle.WalkBound` | src/platform_backend/platform/models/scan.py:27-42 | every walk through the transition table from CREATED has at most eight steps plus two for each COMPLETED_WITH_ERRORS to EVALUATING step |
| `ScanLifecycle.WalkBoundIsTight` | src/platform_backend/platform/models/scan.py:27-42 | for every n some walk re-evaluates n times and meets that bound |
| `ScanLifecycle.DeadEnds` | src/platform_backend/platform/models/scan.py:19-42 | COMPLETED and FAILED are exactly the statuses without a successor; the third terminal status has one |
| `ScanLifecycle.Predecessors` | src/platform_backend/platform/models/scan.py:27-42 | the table read backwards: for each status exactly which statuses a scan may have come from |
| `PipelineViews.StepIsViewStep` | src/platform_backend/queue/events.py:11-26 | over shared FIFO lists and single workers, a step of the system is one step, or none, in the view of every scan |
| `PipelineSafety.NextKeepsStaged` | src/platform_backend/policy/worker.py:59-171 | every step of the API, the collector, the ingest worker and the policy worker keeps each scan on its track, any call allowed to raise before or after its effect |
| `PipelineSafety.ExactlyTwoBadWrites` | src/platform_backend/policy/worker.py:111-165 | in every interleaving without a phantom publish, a pending status write breaks the table exactly when it is COLLECTED after a lost start or FAILED after a stored COMPLETED |
| `PipelineSafety.EveryWriteFollows` | src/platform_backend/assets/ingest/worker.py:53-192 | with the start reaching its write, nothing raising after the final status, and no phantom publish, every status write of every run follows the table, although update_status never checks it |
| `PipelineSafety.StatusChangesFollow` | src/platform_backend/platform/repositories/integrations.py:210-240 | under those assumptions every change of a scan's status is an edge of the table |
| `PipelineSafety.StatusChangesAreWrites` | src/platform_backend/platform/repositories/integrations.py:210-240 | a step changes a scan's status only to the status its handler was about to write |
| `PipelineRuns.LostStartRun` | src/platform_backend/assets/ingest/worker.py:59-67 | a concrete run: the log insert of collection.started raises, collection.completed then takes the scan from QUEUED to COLLECTED |
| `PipelineRuns.PhantomPublishRun` | src/platform_backend/assets/ingest/worker.py:183-192 | a concrete run: the publish is enqueued but its reply lost, so FAILED is stored under an evaluation about to start |
| `PipelineRuns.LateRaiseRun` | src/platform_backend/policy/worker.py:111-165 | a run for every set-up with the primary framework: the COMPLETED write took effect but raised, and the except path is about to write FAILED over it |
| `PipelineRuns.AssumptionsAreExact` | src/platform_backend/policy/worker.py:59-171 | all runs are lawful if and only if none of the three assumptions may be broken, redelivery allowed or not; late exceptions are harmless exactly when the primary framework is not enabled |
| `PipelineHistory.StatusChangesAreBounded` | src/platform_backend/platform/models/scan.py:27-42 | the statuses a scan goes through in a run form a walk from CREATED with at most eight changes plus two for each re-evaluation |
| `PipelineHistory.TerminalIsStamped` | src/platform_backend/platform/repositories/integrations.py:222-228 | in every run, under every fault, a terminal scan has completed_at and a scan past CREATED has started_at |
| `PipelineHistory.StampsPersist` | src/platform_backend/platform/repositories/integrations.py:226-227 | in every run, under every fault, started_at never changes once set and completed_at stays set |
| `PipelineHistory.StampsAreCallTimes` | src/platform_backend/platform/repositories/integrations.py:210-240 | in every run a step changes a scan's rows only by a call made for that scan; a terminal status takes the time of that call as completed_at, and nothing else does |
| `PipelineInventory.RelationshipsStartAtAssets` | src/platform_backend/assets/ingest/worker.py:153-165 | at every step of every run each stored relationship starts at a stored asset of the same scan |
| `PipelineInventory.QueuedEvaluateFindsInventory` | src/platform_backend/assets/ingest/worker.py:164-192 | a queued policy.evaluate finds exactly the first occurrence per identifier of everything normalised, every relationship, and the reported status on the collection run; without redelivery the scan is INVENTORY_READY |
| `PipelineOutcome.FinishedScan` | src/platform_backend/policy/worker.py:88-116 | a finished scan is COMPLETED exactly when the collector reported "completed" or an empty status, else COMPLETED_WITH_ERRORS; findings, control results and scores are those of one evaluation however often the request was delivered |
| `PipelineOutcome.EvaluationEndsWithVerdict` | src/platform_backend/policy/worker.py:104-139 | an evaluation whose last call returns leaves the status the collector's report calls for |
| `PipelineOutcome.FinishedScanJudgesInventory` | src/platform_backend/findings/repository.py:265-303 | a finished scan has a finding for a policy and an identifier exactly when the policy matches the first resource collected under it, and it holds that verdict; the asset judged has every field the asset table returns, tags and both times included |
| `PipelineOutcome.FinishedScanRecordsAnswers` | src/platform_backend/findings/repository.py:69-109 | such a row reads fail, pass or error exactly when the policy's logic holds on that asset, does not hold, or raises; it is open exactly when the logic holds; its evidence holds the listed fields present on the asset |
| `PipelineOutcome.FinishedScanCounts` | src/platform_backend/policy/worker.py:89-103 | the evaluation run of a finished scan is neither running nor failed and counts the policies, the findings and the failing findings stored; finding identifiers are distinct |
| `PipelineOutcome.EvaluationRunFollows` | src/platform_backend/policy/worker.py:84-160 | in every run the evaluation run is running with zero counts until the findings are complete, and a scan FAILED after its hand-over has a failed run with zero counts |
| `PipelineCoverage.CollectedResourceIsJudged` | src/platform_backend/assets/ingest/normalizer.py:61-582 | in a finished scan a policy that names no other provider type has a finding for every collected resource of its provider and resource type, when nothing else is collected under the identifier |
| `PipelineCoverage.CollectedBucketIsJudged` | src/platform_backend/assets/ingest/normalizer.py:136-147 | an AWS policy without a provider type has a finding under the ARN of every collected bucket of its resource type |
| `PipelineAtomicity.EvaluationIsAtomic` | src/platform_backend/policy/worker.py:59-171 | the policy worker, interleaved with every other actor, leaves the rows its handler leaves when run alone with the same calls |
| `PipelineAtomicity.IngestIsAtomic` | src/platform_backend/assets/ingest/worker.py:53-192 | the same for the ingest worker |
| `PipelineModel.MapWritesAreTables` | src/platform_backend/compliance/mapper.py:143-183 | the single upserts of map_scan, in order, amount to its tables |
| `Handlers.HandledIsEvaluatedOnce` | src/platform_backend/policy/worker.py:66-147 | the handler, run call by call without an exception, is one complete evaluation, or nothing for a scan not up for evaluation, or FAILED without the primary framework |
| `Handlers.HandledScans` | src/platform_backend/policy/worker.py:59-147 | handling a request without an exception leaves the findings, tables, run counts and final status of an evaluation when the scan was INVENTORY_READY or COMPLETED_WITH_ERRORS, and leaves any other scan as it was |
| `Handlers.CopiesActAsOne` | src/platform_backend/policy/worker.py:75-116 | handling n >= 1 copies of a policy.evaluate leaves status, findings, evaluation run, control results and scores as one copy does, whatever was stored before |
| `PipelineCompletion.CalmScanEnds` | src/platform_backend/assets/ingest/worker.py:53-192 | in every run without an exception, a scan whose collector has reported and of which no queue or worker holds anything has exactly the status its report calls for; it is terminal if and only if that event was not a collection.failed without a run id |
| `PipelineCompletion.CalmRunsCanEnd` | src/platform_backend/policy/worker.py:59-171 | from every such run the workers alone can finish, and then every scan whose collector has reported has that status |
| `PipelineCompletion.CalmRunEnds` | src/platform_backend/assets/ingest/worker.py:59-117 | in such a run the collection run then says what the terminal event said: failed, the reported status, or still running after an event that could not be read |
| `PipelineCompletion.WorkShrinks` | src/platform_backend/queue/events.py:11-26 | every step of a worker, raising or not, leaves less work: no schedule of the workers goes on for ever without new messages |
| `PipelineCompletion.StuckIffStranded` | src/platform_backend/policy/worker.py:84-171 | in every run without a phantom publish a scan is EVALUATING with no evaluation under way if and only if one of four exceptions hit it: in the EVALUATING write after its effect, in start_evaluation_run, in complete_evaluation_run of the except path, or in its FAILED write before its effect |
| `PipelineCompletion.DrainedEvaluatingIsStranded` | src/platform_backend/policy/worker.py:75-87 | so a scan that nothing is left to be done for stays EVALUATING exactly after such an exception, redelivered requests included |
| `Workers.Database.UpdateStatus` | src/platform_backend/platform/repositories/integrations.py:210-240 | the new row: status unconditionally, started_at only when unset, completed_at when asked; nothing for a scan without a row |
| `Workers.Database.UpdateCollectionRun` | src/platform_backend/platform/repositories/integrations.py:278-311 | the collection run takes the given status; nothing for a scan without a row |
| `Workers.Database.InsertResource` | src/platform_backend/assets/ingest/writer.py:41-71 | a new identifier is inserted, a known one keeps its row |
| `Workers.Database.InsertRelationship` | src/platform_backend/assets/ingest/writer.py:83-102 | a relationship is stored once |
| `Workers.Redis.PublishPolicyEvaluate` | src/platform_backend/queue/events.py:11-26 | the message goes to the head of the list, or nowhere when the push raised before its effect |
| `Workers.PolicyWorker.HandleEvent` | src/platform_backend/policy/worker.py:59-171 | the handler as written, guard, try and except included, changes exactly its scan's rows, to what the state machine's handler run yields for the same calls |
| `Workers.PolicyWorker.Evaluate` | src/platform_backend/policy/worker.py:87-147 | the try block, with where an exception leaves it |
| `Workers.PolicyWorker.Fail` | src/platform_backend/policy/worker.py:148-171 | the except path |
| `Workers.IngestWorker.HandleEvent` | src/platform_backend/assets/ingest/worker.py:53-106 | the handler as written changes exactly its scan's rows and the policy queue, to what the state machine's handler run yields; an event of a scan without a row changes nothing |
| `Workers.IngestWorker.HandleCollectionCompleted` | src/platform_backend/assets/ingest/worker.py:118-192 | the try block from COLLECTED to the publish, with or without a row |
| `Workers.NormalizeFiles` | src/platform_backend/assets/ingest/worker.py:150-162 | the loop over bronze files collects everything they normalise to, or raises when one of them does |
| `Workers.QueueRun` | src/platform_backend/platform/services/scan_service.py:51-63 | a collection job is enqueued only once the QUEUED write returned, whatever the push itself does |
| `Workers.ScanService.CreateScan` | src/platform_backend/platform/services/scan_service.py:33-63 | error cases, and for every outcome of every call the stored row and the queue: those of the state machine's creator run with the same calls; a queued scan's row is written out |
| `Assets.NormalizeBronze` | src/platform_backend/assets/ingest/normalizer.py:61-582 | for each of the 37 provider types, the loop returns the resources and edges of every item in order, skips unknown types, and raises on a missing required key |
| `Normalization.ListedTypesYieldOnePerItem` | src/platform_backend/assets/ingest/normalizer.py:25-58 | a listed provider type yields one resource per item, in order, with the file's types and collection time, the scan's account, the item's properties, tags for two types, and provider azure exactly when the type starts with azure_ |
| `Normalization.UnlistedTypesYieldNothing` | src/platform_backend/assets/ingest/normalizer.py:564-565 | any other provider type yields nothing, whatever the items hold |
| `Normalization.HeaderRequired` | src/platform_backend/assets/ingest/normalizer.py:69-70 | a file without a provider type or a resource type raises |
| `Normalization.IamNames` | src/platform_backend/assets/ingest/normalizer.py:76-126 | users and server certificates are named by Arn, which every item must have, and lie in no region |
| `Normalization.ArnNames` | src/platform_backend/assets/ingest/normalizer.py:127-285 | analyzers, trails, keys and VPCs are named by Arn, which every item must have, in the item's region |
| `Normalization.OtherKeyNames` | src/platform_backend/assets/ingest/normalizer.py:179-293 | database resources, tables and hubs are named by their own key, which every item must have |
| `Normalization.AzureNames` | src/platform_backend/assets/ingest/normalizer.py:426-563 | eight Azure types are named by id, which every item must have, at the item's location |
| `Normalization.RegionalNames` | src/platform_backend/assets/ingest/normalizer.py:148-425 | seven AWS types are named by an ARN built from service, region, account and their own key, which every item must have; an absent region reads None |
| `Normalization.BucketNames` | src/platform_backend/assets/ingest/normalizer.py:136-147 | buckets are named arn:aws:s3::: and their Name |
| `Normalization.FunctionNames` | src/platform_backend/assets/ingest/normalizer.py:375-388 | functions are named by FunctionArn and need FunctionName as well |
| `Normalization.ReplicationGroupNames` | src/platform_backend/assets/ingest/normalizer.py:233-241 | replication groups are named by a non-empty ARN, else by ReplicationGroupId; one of them is needed |
| `Normalization.RecorderNames` | src/platform_backend/assets/ingest/normalizer.py:261-269 | recorders are named by their Name or default, and never raise |
| `Normalization.DetectorNames` | src/platform_backend/assets/ingest/normalizer.py:389-402 | detectors are named by a non-empty DetectorId or none, and never raise |
| `Normalization.SettingNames` | src/platform_backend/assets/ingest/normalizer.py:294-374 | the two account-wide settings are named by a fixed path |
| `Normalization.AccountNames` | src/platform_backend/assets/ingest/normalizer.py:95-116 | accounts are named by the item's AccountId or the scan's account |
| `Normalization.SubscriptionNames` | src/platform_backend/assets/ingest/normalizer.py:506-536 | subscriptions and their defender are named by the scan's account |
| `Normalization.TagsKeepLast` | src/platform_backend/assets/ingest/normalizer.py:9-12 | a tag key is kept with the value of its last complete entry |
| `Normalization.InstanceLinks` | src/platform_backend/assets/ingest/normalizer.py:148-178 | an instance is a member of the VPC its non-empty VpcId names, and has no other relationship |
| `Normalization.MachineLinks` | src/platform_backend/assets/ingest/normalizer.py:466-495 | a virtual machine is a member of its non-empty vnet_id and protected by each of its security groups, and has no other relationship |
| `Normalization.OthersDoNotLink` | src/platform_backend/assets/ingest/normalizer.py:73-565 | no other provider type yields relationships |
| `Assets.AssetFields` | src/platform_backend/assets/repositories/resources.py:169-184 | the ten fields a policy reads of a stored resource, with their values |
| `Assets.InventorySourced` | src/platform_backend/assets/ingest/normalizer.py:148-495 | every relationship the files yield starts at a resource they yield |
| `Assets.AssetWriter.InsertResources` | src/platform_backend/assets/ingest/writer.py:33-72 | first insert wins, and the returned count is the number of rows added |
| `Assets.AssetWriter.InsertRelationships` | src/platform_backend/assets/ingest/writer.py:74-103 | the relationships become a set, and the returned count is the number of rows added |
| `Assets.InsertsKeepFirst` | src/platform_backend/assets/ingest/writer.py:53-71 | conflict-ignoring inserts into an empty table keep exactly the first occurrence of each identifier |
| `Json.OppositeNegates` | src/platform_backend/policy/engine/evaluator.py:34-41 | an ordering comparison and its opposite disagree exactly when no NaN decides them, and raise together |
| `Json.Trichotomy` | src/platform_backend/policy/engine/evaluator.py:30-41 | comparable values without a deciding NaN are in exactly one of less, equal and greater, and the weak orderings are the strict ones or equality |
| `Json.SubstringOccurs` | src/platform_backend/policy/engine/evaluator.py:42-45 | membership of a text in a text means that it begins at some position of it |
| `Operators.EqualityIsCanonical` | src/platform_backend/policy/engine/evaluator.py:30-33 | values are equal exactly when they are once True is read as 1 and False as 0 at every depth, and they are no NaN; inside containers the same NaN object is equal to itself |
| `Operators.NumbersCompare` | src/platform_backend/policy/engine/evaluator.py:34-41 | numbers and booleans are ordered by their values |
| `Operators.TextsCompare` | src/platform_backend/policy/engine/evaluator.py:34-41 | a text is less exactly when it is a proper prefix or has the smaller character where they first differ |
| `Operators.ListsCompare` | src/platform_backend/policy/engine/evaluator.py:34-41 | the first differing elements decide between two lists, and without any their lengths |
| `Operators.OthersCompare` | src/platform_backend/policy/engine/evaluator.py:34-41 | a NaN is in no order with a number, and every other pair raises |
| `Operators.MembershipMeaning` | src/platform_backend/policy/engine/evaluator.py:42-45 | membership in a list, a text, an object, or a false value, and when it raises |
| `Operators.FalseValues` | src/platform_backend/policy/engine/evaluator.py:46-49 | exactly null, False or zero, and the empty text, list and object are false |
| `Operators.PresentField` | src/platform_backend/policy/engine/evaluator.py:18-51 | on an asset with the path, what missing, exists, eq, ne, true, false and an unsupported operator answer |
| `Operators.AbsentField` | src/platform_backend/policy/engine/evaluator.py:23-28 | on an asset without the path only missing holds, and nothing raises |
| `Operators.NumberField` | src/platform_backend/policy/engine/evaluator.py:34-41 | a present number or boolean compared with another answers gt, gte, lt and lte by value |
| `Operators.TextField` | src/platform_backend/policy/engine/evaluator.py:34-41 | the same for texts |
| `Operators.ListedField` | src/platform_backend/policy/engine/evaluator.py:42-45 | in and not_in on a list |
| `Operators.ResolveFollowsKeys` | src/platform_backend/policy/engine/evaluator.py:6-12 | a path resolves to a value exactly when its dot-free keys, joined by dots, lead there from object to object |
| `Operators.LogicMeaning` | src/platform_backend/policy/engine/evaluator.py:65-83 | a policy's logic answers as its condition does, wrapped in fail_when or not, and raises when unsupported |
| `Evaluator.CheckRaises` | src/platform_backend/policy/engine/evaluator.py:18-51 | a field check raises if and only if the path is present and the operator is unsupported, or orders values that do not compare, or tests membership in what has none |
| `Evaluator.UnsupportedOperatorOnMissingPath` | src/platform_backend/policy/engine/evaluator.py:27-51 | the same unsupported check answers False on an asset without the path and raises on one with it |
| `Evaluator.CompoundMeaning` | src/platform_backend/policy/engine/evaluator.py:54-62 | a compound raises exactly when its connective is unknown or any child raises; otherwise "and" holds when all children hold and "or" when one does |
| `Evaluator.SplitRoundTrip` | src/platform_backend/policy/engine/evaluator.py:8 | splitting a path at dots and joining it again gives the path |
| `Evaluator.ResolvePath` | src/platform_backend/policy/engine/evaluator.py:6-12 | the loop finds the value at the path, or that it is missing |
| `Evaluator.BuildEvidence` | src/platform_backend/policy/engine/evaluator.py:86-92 | the evidence holds exactly the fields whose path is present, with their values |
| `Evaluator.CheckDuality` | src/platform_backend/policy/engine/evaluator.py:18-51 | for one field check the dual check gives the opposite verdict if and only if the check is regular; the two always raise together |
| `Evaluator.Duality` | src/platform_backend/policy/engine/evaluator.py:18-71 | on an asset where every check is regular, the dual tree raises when the tree raises and else gives the opposite verdict |
| `Evaluator.DualityIsExact` | src/platform_backend/policy/engine/evaluator.py:18-71 | no node of a tree breaks duality if and only if every field check of the tree is regular |
| `Evaluator.DualRaisesTogether` | src/platform_backend/policy/engine/evaluator.py:54-62 | on every asset a tree and its dual raise together, because compounds evaluate all their children |
| `Evaluator.DualInvolution` | src/platform_backend/policy/engine/evaluator.py:18-62 | the dual of the dual is the tree |
| `Evaluator.DualityNeedsPresence` | src/platform_backend/policy/engine/evaluator.py:27-28 | a concrete asset without the path on which a check and its dual both answer False |
| `Evaluator.Coincidence` | src/platform_backend/policy/engine/evaluator.py:65-71 | a verdict depends only on what the mentioned paths resolve to |
| `Evaluator.Locality` | src/platform_backend/policy/engine/evaluator.py:6-92 | replacing the value at an existing path incomparable with every mentioned path changes neither verdict, nor error, nor evidence |
| `Findings.FindingsRepository.UpsertFinding` | src/platform_backend/findings/repository.py:69-109 | the row of the (policy, resource) key, its identifier kept, its status open only for a failure |
| `Findings.FindingsRepository.EvaluateScan` | src/platform_backend/findings/repository.py:265-303 | the nested loops leave the table after upserting the draft of every matching pair in order, and return the counts of policies, drafts and failing drafts |
| `Findings.EvaluationIsComprehension` | src/platform_backend/findings/repository.py:265-303 | from an empty table with distinct ids a row exists exactly for the pairs where the policy matches the asset, and holds that pair's verdict |
| `Findings.EvaluationRecordsAnswers` | src/platform_backend/findings/repository.py:69-109 | each row reads fail, pass or error and open or resolved as the policy's logic answers on its asset, with that asset's evidence and the policy's texts; no other row exists |
| `Findings.IdsStayDistinct` | src/platform_backend/findings/repository.py:89-96 | upserting never gives two rows the same identifier |
| `Findings.MatchesMeaning` | src/platform_backend/policy/catalog/models.py:65-72 | which assets a policy is evaluated on, one without a provider counting as AWS |
| `Findings.CountersCountRows` | src/platform_backend/findings/repository.py:272-303 | then the returned counts are the numbers of rows and failing rows, and the open rows are the failing ones |
| `Findings.UpsertAllIdempotent` | src/platform_backend/findings/repository.py:89-96 | upserting the same drafts again changes nothing, identifiers included |
| `Assets.StoredAssetMatches` | src/platform_backend/policy/catalog/models.py:65-72 | a policy matches a stored resource exactly when provider and resource type agree and the policy names no other provider type |
| `Findings.DraftsAreMatches` | src/platform_backend/policy/catalog/models.py:65-72 | a draft is produced exactly for the matching pairs |
| `Compliance.GetFindingsByPolicy` | src/platform_backend/compliance/repository.py:94-122 | the loop groups the rows by policy |
| `Compliance.GroupsAreRows` | src/platform_backend/compliance/repository.py:108-122 | each group holds exactly the policy's rows in table order, and no group is empty |
| `Compliance.AggregateControl` | src/platform_backend/compliance/mapper.py:15-99 | status, counts, finding ids and evidence of a control in all its branches, said of the findings mapped to it |
| `ControlOutcomes.ControlStatusMeaning` | src/platform_backend/compliance/mapper.py:77-84 | each of the five statuses, said of the rows of the findings table whose policy is mapped to the control |
| `ControlOutcomes.ControlCountsRows` | src/platform_backend/compliance/mapper.py:55-75 | fail and pass counts are the numbers of pairs of a mapped policy and a failing or passing row of it, and the identifiers listed are those of the mapped failing rows; a manual control counts nothing |
| `ControlOutcomes.ControlTexts` | src/platform_backend/compliance/mapper.py:15-53 | the display title unless absent or empty, the control's own columns, and as evidence each mapped policy's rows and counts |
| `Compliance.FindingIdsMatchFailCount` | src/platform_backend/compliance/mapper.py:66-75 | a control lists exactly fail_count finding ids |
| `Compliance.PassingMeansAllPass` | src/platform_backend/compliance/mapper.py:77-84 | a control passes exactly when it is not manual, some finding is mapped to it, and every mapped finding passed |
| `Compliance.StatusCountsSumToTotal` | src/platform_backend/compliance/mapper.py:102-125 | the five status counts sum to the total |
| `ControlOutcomes.SummaryCountsControls` | src/platform_backend/compliance/mapper.py:102-108 | each count of the summary is the number of controls in its own status |
| `ControlOutcomes.FrameworkScore` | src/platform_backend/compliance/mapper.py:102-116 | the score is the share of passing controls among those that passed, failed or raised, as floor((20000p + a)/(2a)) hundredths, and 0 without such controls, for fewer than 10^23 passes |
| `ControlOutcomes.MappingScoresFrameworks` | src/platform_backend/compliance/mapper.py:132-152 | map_scan leaves a score for exactly the enabled ones of six named frameworks, next to the scores stored before |
| `ControlOutcomes.MappingStoresControls` | src/platform_backend/compliance/mapper.py:154-172 | it leaves a result for every enabled control of these frameworks |
| `Compliance.ScoreMonotonicity` | src/platform_backend/compliance/mapper.py:55-125 | turning findings from pass to fail or error, or between fail and error, never raises a framework's score and never changes its assessed count |
| `ComplianceMapping.ComplianceMapper.MapSingleFramework` | src/platform_backend/compliance/mapper.py:154-192 | one framework's control results and score row, or LookupError and nothing written |
| `ComplianceMapping.ComplianceMapper.MapScan` | src/platform_backend/compliance/mapper.py:132-152 | the tables after all enabled frameworks, and LookupError after them when the primary one is not enabled |
| `ComplianceMapping.MapTablesIdempotent` | src/platform_backend/compliance/repository.py:138-195 | mapping the same findings again writes nothing new |
| `ComplianceMapping.FailuresAreConserved` | scripts/build_policy_catalog.py:490-496 | when each evaluated policy is mapped to exactly one automated control, the controls' fail counts sum to evaluate_scan's fail_count |
| `DecimalScore.TimesHundredIsExact` | src/platform_backend/compliance/mapper.py:114 | whatever digits the multiplication by 100 drops, quantizing its result is one half-up rounding of the quotient to hundredths of a percent |
| `DecimalScore.ScoreIsSingleRounding` | src/platform_backend/compliance/mapper.py:110-116 | the twice-rounded decimal score is floor((20000*pass + assessed)/(2*assessed)) hundredths whenever fewer than 10^23 controls passed, so the double rounding is harmless |
| `DecimalScore.PerfectScore` | src/platform_backend/compliance/mapper.py:110-116 | the score is 100.00 exactly when 20000 times the controls that did not pass is at most the assessed count; below 20000 assessed controls, exactly when all passed |
| `DecimalScore.ScoreMonotone` | src/platform_backend/compliance/mapper.py:114-116 | more passes never lower the score, for any counts |
| `DecimalScore.ScoreRange` | src/platform_backend/compliance/mapper.py:110-116 | the score lies between 0 and 100, for any counts |
| `StableSort.SortIsSortedPermutation` | src/platform_backend/platform/repositories/admin.py:178 | the sort used by the model sorts and permutes |
| `StableSort.StableSortUnique` | src/platform_backend/platform/repositories/admin.py:178 | any sorted list that keeps tied elements in their original order is that sort |
| `StableSort.SortFilter` | src/platform_backend/findings/experience.py:418 | stable sorting commutes with filtering |
| `StableSort.SortsAgree` | src/platform_backend/findings/experience.py:463 | two total preorders sort a list of distinct elements alike if and only if they agree on every pair in list order |
| `AdminListing.ListScans` | src/platform_backend/platform/repositories/admin.py:136-179 | limiting each tenant, merging, sorting and limiting again is limiting the stable newest-first sort of all tenants' scans |
| `AdminListing.ListedScans` | src/platform_backend/platform/repositories/admin.py:150-177 | the list holds exactly the tenants' scans in the asked status, or all without a status or with an empty one, labelled with their tenant |
| `AdminListing.PageIsNewest` | src/platform_backend/platform/repositories/admin.py:178-179 | the page is its newest part, newest first |
| `AdminListing.TiesFollowTenants` | src/platform_backend/platform/repositories/admin.py:156-178 | scans of the same moment are listed by tenant and then in the tenant's own order |
| `RiskPriorities.BuildFixPriorities` | src/platform_backend/findings/experience.py:415-443 | ranks 1.. over the failures in customer order, sliced at the limit, a negative one counting from the end |
| `RiskPriorities.BuildResourceRisk` | src/platform_backend/findings/experience.py:446-483 | the resource's failures in raw order, and the level written out: healthy without failures, else the worst known severity, else medium |
| `RiskPriorities.TopRisks` | src/platform_backend/findings/experience.py:375-402 | the first failure per policy in customer order, top_n of them, and one of them even when top_n is below one |
| `RiskPriorities.TopRisksShape` | src/platform_backend/findings/experience.py:375-402 | distinct policies, as many as there are up to top_n, with non-increasing risk score |
| `RiskPriorities.FirstPerPolicyIsFirst` | src/platform_backend/findings/experience.py:378-383 | each policy is represented by its first failure in the order |
| `RiskPriorities.KeysAgree` | src/platform_backend/findings/experience.py:280-293 | hiding the CIS mappings changes a finding's key exactly when it has no other mapping |
| `RiskPriorities.HiddenMappingIsExact` | src/platform_backend/findings/experience.py:280-293 | the two orders differ on a pair if and only if the first four key components tie, exactly one of the two findings is mapped to CIS alone, and counting its mapping changes which comes first: against a mapped one as the minutes say, against an unmapped one the other way round |
| `RiskPriorities.ListsAgreeExactly` | src/platform_backend/findings/experience.py:415-463 | a resource's list is the customer list filtered to the resource if and only if no hidden mapping decides between two of its failures |
| `RiskPriorities.LimitedListsAgree` | src/platform_backend/findings/experience.py:415-463 | under the same condition, and only then, the customer list cut at any limit and filtered to the resource is a prefix of the resource's list |
| `RiskPriorities.OrdersAgree` | src/platform_backend/findings/experience.py:463 | in particular when no failing policy of the resource is mapped to CIS alone |
| `RiskPriorities.OnlyCisJumpsTheQueue` | src/platform_backend/findings/experience.py:286-293 | a family of pairs on which the two lists disagree because of a hidden mapping |
| `RiskPriorities.OrdersCanDisagree` | src/platform_backend/findings/experience.py:286-293 | a concrete such pair |
| `RiskPriorities.OrdersMeaning` | src/platform_backend/findings/experience.py:280-293 | both orders said of two findings: higher score, more severe, exposed, sensitive, mapped, quicker to fix, in this order; they differ in the mappings counted |
| `RiskPriorities.RiskScoreIsCappedSum` | src/platform_backend/findings/experience.py:199-213 | the score is the severity's base plus 12, 8, 6 and 5 for the signals, capped once at 100 although the code caps after every step |
| `RiskPriorities.SeverityOrders` | src/platform_backend/findings/experience.py:199-213 | with the same signals the more severe finding ranks first and scores higher unless both reach the cap |
| `RiskPriorities.ExposureMeaning` | src/platform_backend/findings/experience.py:133-158 | which findings are exposed to the internet |
| `RiskPriorities.SignalsMeaning` | src/platform_backend/findings/experience.py:161-183 | which findings are sensitive, touch an identity, or are on a public resource |
| `RiskPriorities.FailuresListed` | src/platform_backend/findings/experience.py:416-447 | the lists are about exactly the failing findings, each as often as given |
| `RiskPriorities.CisMeaning` | src/platform_backend/findings/experience.py:293 | which mappings are kept from customers, character by character |
| `RiskPriorities.RiskScoreRange` | src/platform_backend/findings/experience.py:199-213 | signals only raise the severity's base score, never past 100, and without a signal the score is the base |
| `Templates.RenderTemplate` | src/platform_backend/findings/presentation.py:44-50 | the loop is a fold of single-key replacements; None for an absent or empty template |
| `TemplateGaps.RenderIsExact` | src/platform_backend/findings/presentation.py:44-50 | for brace-free keys and values, one key at a time equals simultaneous substitution if and only if no literal opening brace stands before a gap that the values of earlier keys make read a later key |
| `TemplateGaps.TemplatesAreExact` | src/platform_backend/findings/presentation.py:44-50 | for all brace-free values at once: if and only if no literal opening brace stands before a gap, up to a closing brace, that some values make read a key later than all of its placeholders |
| `TemplateGaps.MisleadingGapHasHole` | src/platform_backend/findings/presentation.py:48-49 | such a gap holds at least one placeholder |
| `RemediationTemplates.RemediationsAreExact` | src/platform_backend/findings/presentation.py:33-50 | that equivalence for the seven keys every finding's context has, in their order, with the hypotheses on keys discharged |
| `RemediationTemplates.SeparatedRemediation` | src/platform_backend/findings/presentation.py:33-50 | over a finding's context a template whose literal braces are followed by a literal non-identifier character renders by substitution |
| `RemediationTemplates.OrderMattersAfterLiteralBrace` | src/platform_backend/findings/presentation.py:33-50 | {{region}} over any finding's context whose region reads account_id: the code's order loses the braces, another order keeps them, as substitution does |
| `RemediationTemplates.OrderMattersForBracedValue` | src/platform_backend/findings/presentation.py:33-50 | a resource named {region} is rendered as its region, in another order it stays: the condition on values is needed |
| `TemplateSafety.RenderIsSubstitution` | src/platform_backend/findings/presentation.py:48-49 | in particular when every literal brace is harmless, one key at a time equals simultaneous substitution |
| `TemplateSafety.RenderOrderIrrelevant` | src/platform_backend/findings/presentation.py:48-49 | then the order of the keys does not matter |
| `TemplateSafety.RenderLeavesNoPlaceholder` | src/platform_backend/findings/presentation.py:48-49 | then no known placeholder is left |
| `TemplateSafety.SeparatedIsSafe` | src/platform_backend/findings/presentation.py:33-49 | a literal brace followed by a literal non-identifier character is harmless for identifier keys |
| `RateLimiter.RateLimitMiddleware.Increment` | src/platform_backend/api/middleware/security.py:73-92 | the count and the new counters for every way Redis can answer, a lost reply counted twice included |
| `RateLimiter.RateLimitMiddleware.Dispatch` | src/platform_backend/api/middleware/security.py:51-71 | a request is let through exactly when its count is within the limit, and the remaining number is what the limit leaves |
| `RateLimiter.RedisRemaining` | src/platform_backend/api/middleware/security.py:69-81 | after any request sequence the remaining number is the limit less the requests sent to Redis for that IP and window, lost replies included, and this one |
| `RateLimiter.MemoryRemaining` | src/platform_backend/api/middleware/security.py:69-92 | the same for memory while the IP's requests stay in one window at a time |
| `RateLimiter.MemoryWindowBoundIsExact` | src/platform_backend/api/middleware/security.py:85-92 | for every request sequence memory keeps to the limit in a window if and only if the IP's requests never came back to that window after another one, or were no more than the limit |
| `RateLimiter.MemoryWindowBound` | src/platform_backend/api/middleware/security.py:85-92 | so while the clock does not go back to an earlier window for that IP, memory admits at most the limit per IP and window |
| `RateLimiter.RedisWindowBound` | src/platform_backend/api/middleware/security.py:74-81 | so does Redis, with any clock |
| `RateLimiter.SwitchingWindowBound` | src/platform_backend/api/middleware/security.py:73-92 | with arbitrary switching at most twice the limit per counted window |
| `RateLimiter.MemorySpanBound` | src/platform_backend/api/middleware/security.py:51-92 | without Redis at most twice the limit in any sixty seconds |
| `RateLimiter.SwitchingSpanBound` | src/platform_backend/api/middleware/security.py:51-92 | with switching at most four times the limit in any sixty seconds |
| `RateLimiter.SpanBoundIsTight` | src/platform_backend/api/middleware/security.py:56-60 | a burst across a window boundary meets the sixty-second bound |
| `RateLimiter.SwitchingWindowBoundIsTight` | src/platform_backend/api/middleware/security.py:73-92 | losing Redis in mid-window admits exactly twice the limit, for every limit |
| `RateLimiter.SwitchingSpanBoundIsTight` | src/platform_backend/api/middleware/security.py:51-92 | losing it in two neighbouring windows admits exactly four times the limit within sixty seconds |
| `RateLimiter.ClockStepBackBreaksBound` | src/platform_backend/api/middleware/security.py:85-89 | a concrete request sequence on which a clock stepping back breaks the window bound |
| `Slugs.SlugifyWorkspaceName` | src/platform_backend/identity/slug.py:31-38 | the steps yield the alphanumeric runs of the lowered name joined by hyphens, truncated and right-trimmed |
| `Slugs.SlugKeepsLetters` | src/platform_backend/identity/slug.py:31-38 | a slug has the letters and digits of the lowered name in order, all of them unless the joined words exceed 48 characters |
| `Slugs.LowerMeaning` | src/platform_backend/identity/slug.py:33 | ASCII capitals become the small letter with their place in the alphabet, other ASCII characters stay |
| `Slugs.SlugErrors` | src/platform_backend/identity/slug.py:50-59 | the five answers of validate_slug with lengths 3 and 48 and all reserved names written out |
| `Slugs.GoodSlugs` | src/platform_backend/identity/slug.py:50-59 | and every text of alphanumerics with single inner hyphens passes unless it is reserved or of the wrong length |
| `Slugs.SubRunsIsJoin` | src/platform_backend/identity/slug.py:34 | substituting separators leaves the runs joined by hyphens with one hyphen at each separated end |
| `Slugs.PatternIsClean` | src/platform_backend/identity/slug.py:57 | the validator's pattern matches exactly the non-empty texts of alphanumerics and single inner hyphens |
| `Slugs.SlugMatchesPattern` | src/platform_backend/identity/slug.py:31-57 | every slug is empty or matches the validator's pattern |
| `Slugs.SlugIsClean` | src/platform_backend/identity/slug.py:31-38 | every slug has at most 48 characters and no hyphen at an end or doubled |
| `Slugs.SlugifyIdempotent` | src/platform_backend/identity/slug.py:31-38 | every slug is its own slug |
| `Slugs.SlugCandidates` | src/platform_backend/identity/slug.py:62-66 | the base and the base with -2 to -5 appended, five in all |
| `Slugs.CandidatesValidate` | src/platform_backend/identity/slug.py:50-66 | all candidates validate if and only if the base does and has at most 46 characters |
| `Slugs.ResolveUniqueSlug` | src/platform_backend/platform/repositories/workspace.py:48-57 | the first candidate not in use, or none; the extra reserved-name test never skips a candidate |
| `Slugs.FirstFreeMeaning` | src/platform_backend/platform/repositories/workspace.py:52-57 | a resolved slug is unused and every earlier candidate is in use; none only when all are |
| `Slugs.ResolvedSlug` | src/platform_backend/platform/repositories/workspace.py:48-57 | a resolved slug validates if and only if the base is not in use or has at most 46 characters |
| `Slugs.LongBaseResolvesToInvalidSlug` | src/platform_backend/platform/repositories/workspace.py:48-57 | a base of 47 characters that is taken resolves to a slug that does not validate |

## Left out

- Redis, Postgres, asyncpg, row-level security, S3 and file URIs: tables are maps, lists are sequences, reads
  are inputs, and the order in which rows are listed is a parameter (`Setup`).
- The contents of the event log, the `error` column and the text of exceptions: a raised evaluation stores a
  fixed evidence.
- Time stamps other than started_at, completed_at, collected_at, ingested_at and the rate limiter's clock.
- The integration invalidated after an authentication failure: only that the call may raise.
- The per-provider collection queues (one queue is modelled) and the collector itself, which is not part of
  the repository.
- More than one ingest or policy worker.
- Workers.PolicyWorker.UpsertFindings: walks the list of drafts instead of the nested loops, which
  `Findings.FindingsRepository.EvaluateScan` has, because each upsert may raise here.
- Findings.EvaluationIsComprehension: asks for distinct policy ids and resource ids, as the catalog and the
  asset table have them.
- Assets.NormalizeBronze: an item's properties are taken as copied; a key that is null counts as absent, also
  where a default applies; the parsing of collected_at, which can raise, is left out.
- Slugs.SlugifyWorkspaceName: the lowering of non-ASCII characters is a parameter, one character at a time.
- RiskPriorities.BuildResourceRisk: titles, labels and badges of the lists, and the severity counts of the risk
  summary, are left out.
- AdminListing.ListScans: a negative limit, which the database refuses, is left out.
- TemplateGaps.RenderIsExact: for values without braces; that values with braces can break it is shown by
  `RemediationTemplates.OrderMattersForBracedValue` only.
- PipelineCompletion.StuckIffStranded: which exceptions leave a scan in a status other than EVALUATING is not
  characterised.
- DecimalScore.ScoreIsSingleRounding: for fewer than 10^23 passing controls.
- RateLimiter.RedisWindowBound: Redis keys neither expire early nor get lost.
- RateLimiter.RateLimitMiddleware.Dispatch: the client address is an input, and the three paths that are not
  limited are left out.
- RemediationTemplates.RemediationsAreExact: how the seven values come from a finding's evidence; they are arbitrary
  texts here.
- count_scans_by_status, float rounding in pass rates, JWT, encryption, routes, invitations and onboarding.
