# Dash0 operator: verified model of the synchronization core

The Dash0 operator keeps objects in the Dash0 backend in step with Kubernetes resources. This project models the parts of
it in which state, ordering and interleaving are hard to get right, and proves what they keep. One module per component:

- `RuleOrigins`, `RuleSync`, `RuleConvergence`, `RuleFates`: one PrometheusRule becomes many remote objects. Two passes give every rule
  an origin; a synchronization compares what the resource lists with what exists remotely, and sends upserts and deletions.
  The remote side is `Dash0Backend`, a map from (type, origin) to payload in which any call can fail, with or without
  having had its effect.
- `NamespaceResync`: resyncing a namespace with one shared listing instead of one listing per resource.
- `RetryClassification`, `RetryRunnable`: which failed synchronizations are selected for a retry, and which of the selected
  resources are synchronized again.
- `SyncQueue`: the coalescing job queue, as a transition system with any number of adders and workers over the client-go
  work queue (dirty set, processing set, FIFO).
- `QueueConvergence`, `ResyncRace`: queue and synchronization together, that is, what the backend holds when the queue has
  drained; and whether that is what the cluster holds, when events, resyncs and retries race for the queue. `StaleListing`
  is a run of all of that together.
- `WatchLifecycle`, `PersesWatch`, `ConversionWebhook`: starting and stopping the controllers that watch third-party
  resources, following the version of the Perses CRD, and patching its conversion webhook among other writers.
- `ApiClientPool`, `EnvVars`, `UniqueInScope`, `QuietPeriod`, `SamplingRates`: the LRU pool of API clients, the order of
  dependent environment variables, "the newest resource wins", the polling loop with a quiet period, and the recursive
  rewrite of sampling conditions (on a heap of mutable maps).
- `Text` and `Common` hold the string and collection functions that the others use.

Loops and objects that the operator updates in place are methods and classes, each verified against a specification
function; the theorems are about those functions, or about all runs of a transition system. The lemmas named in the table
below hold for all inputs, all failures and all interleavings unless the row says otherwise.

Time, randomness, the network, the Kubernetes API and conversions into payload types enter as parameters: a listing that
may have failed, a fault per object, a function from rules to optional payloads, a sequence of polls.

## Findings

Where the code does not have a property one would expect, the model keeps the code as it is, and a member of the project
exhibits the failing case. Where there is a condition under which the property holds, another one proves it to be exact.

- A rule without a record and an alert name gets an origin, so the object under that origin counts as listed, but no DELETE
  request is created for it. Deleting the resource is complete exactly if no object exists under such an origin
  (`DeletionIsCompleteIff`, `NamelessRuleSurvivesDeletion`).
- A resource whose spec cannot be converted lists no rules at all, so an upsert deletes everything that it has
  synchronized before, whereas invalid rules of a resource that can be converted keep their last state
  (`UnparsableSpecRemovesEverything`). For any spec, an upsert removes nothing exactly if all existing objects are listed by
  it (`UpsertRemovesNothingIff`). Whether the schema of the installed CRD admits such a spec is outside the model.
- The comment at internal/controller/api_sync_common.go:559-561 says that the errors of the mapping stage and of the calls
  are disjoint. They are, for all failures of calls, exactly if no request has the item name of a rule that cannot be
  converted (`ErrorMapsAreDisjointIff`, `RuleErrorsAreDisjointIff`); two rules of a group with the same name can be such a
  pair (`ErrorMapsOverlap`). Whether there are rules whose conversion fails after they have passed the validation depends
  on the client types that they are converted into, which are outside the model.
- Recorded errors are kept by item name, so a later failure can hide a retryable one of the same name
  (`SameItemNameHidesRetryableFailure`). Every retryable failure of a call to any destination leads to the selection of the
  resource exactly if the item names of the requests are pairwise distinct for each destination, or a listing has failed in
  a way that leads to it anyway (`RetryableFailuresAreSelectedIff`; `RetryableFailuresAreRecordedIff` for one destination).
- A resource that is selected is synchronized again exactly if its type is being watched and it can be fetched
  (`SynchronizedAgainIff`). A deletion whose calls fail is selected, but the resource is gone, so its objects are left over
  (`FailedDeletionIsNotRetried`). There are such calls whenever an object of the resource exists that is not the one of a
  rule without a name (`DeletionHasRequestsIff`).
- A resync and a retry enqueue the contents that they have read before. The job enqueued last carries the latest version of
  the resource exactly if no resync has enqueued, after everything else, what it had read before the last change
  (`LatestIsLastIff`). Otherwise the outdated contents are processed last: the objects of a deleted resource come back
  (`DeletedResourceComesBack`, `OvertakenResyncWins`).
- Jobs of a resync share one listing, which can be out of date when a job is processed. If no call fails, the objects of a
  resource end as the job stored last for it wants them exactly if this job removes all objects that it has found and does
  not want (`DrainedQueueConvergesIff`), which it does if no other job of the resource has been finished since the listing
  was fetched (`UpToDateListing`, `DrainedQueueConverges`). `LatestIsProcessedLastInVain` is a run in which an object is left
  over although all calls succeed and the latest version is processed last.
- Both together: if no call fails, the backend ends as the latest version of the resource wants it exactly if the job
  enqueued last, with its listing, leaves it so (`BackendFollowsResourceIff`). If all listings are up to date, the order
  alone decides (`OrderDecidesIff`).
- A create event for the Perses CRD while a watch is running keeps the watch in step exactly if the chosen version is still
  the watched one (`PersesDashboardCrdReconciler.Create`); `CreateWhileWatchingIsNotFollowed` is a run in which it is not. A
  create event for a CRD that was absent always does.
- Creation timestamps have a resolution of seconds and the sorting is not stable. If two resources share the latest
  timestamp, both can end up degraded; one resource stays in force through all runs exactly if the latest timestamp is not
  shared (`SomeStaysInForceIff`).
- The CRD restricts the rate of a top-level sampling condition, but not those of nested ones. A rate such as "NaN" is parsed,
  and the payload then cannot be serialized (`NestedNotANumberIsNotSerializable`, `SerializedIff`).

## Model

| member | source | states |
|---|---|---|
| RuleOrigins.Sanitize | internal/controller/prometheus_rules_controller.go:1013-1048 | Position by position, the characters that an origin must not contain become a vertical bar and all others stay |
| RuleOrigins.SkippingOneShrinks | internal/controller/prometheus_rules_controller.go:995-1004 | Each attempt of the unbounded suffix search leaves fewer taken origins that it can still run into, which is why it ends for every input |
| RuleOrigins.LeastFree | internal/controller/prometheus_rules_controller.go:995-1004 | The search finds the least suffix at or above its start that is not taken |
| RuleOrigins.TakeFreeSuffix | internal/controller/prometheus_rules_controller.go:994-1004 | The search that starts at the counter of an origin finds the least free suffix overall, takes exactly that origin, and keeps every suffix below every counter taken |
| RuleOrigins.DeriveOrigins | internal/controller/prometheus_rules_controller.go:974-992 | The first pass gives every rule the origin it asks for, records exactly the derived origins as produced, and remembers exactly the rules that ask for one again, in order |
| RuleOrigins.SettleDuplicates | internal/controller/prometheus_rules_controller.go:993-1006 | The second pass turns the derived origins into the settled ones, and the origins it records as produced are exactly those that it assigns |
| RuleOrigins.RenderRuleOrigins | internal/controller/prometheus_rules_controller.go:949-1007 | Both passes together compute the settled origins, which are defined rule by rule without counters |
| RuleOrigins.OriginsAreDistinct | internal/controller/prometheus_rules_controller.go:949-1007 | Any two rules of a resource, in whatever groups, have different origins |
| RuleOrigins.FirstKeepsDerivedOrigin | internal/controller/prometheus_rules_controller.go:949-1007 | A rule keeps the origin it asks for if and only if no earlier rule asks for it |
| RuleOrigins.OriginIsStable | internal/controller/prometheus_rules_controller.go:949-1007 | A rule that alone asks for its origin has exactly that origin, whatever the other rules of the resource are, however they are ordered, and even if one is named like a suffixed duplicate |
| RuleOrigins.OriginIsText | internal/controller/prometheus_rules_controller.go:1013-1048 | A rule that alone asks for its origin gets the prefix, the name of its group, an underscore and its record, else its alert, else a stand-in, both names character by character with "/", "%" and ":" replaced |
| RuleOrigins.SuffixOf | internal/controller/prometheus_rules_controller.go:993-1006 | Every other rule gets what it asks for, an underscore and the least positive decimal number that avoids all origins asked for and all given before |
| RuleOrigins.OriginsAreSanitized | internal/controller/prometheus_rules_controller.go:1020-1038 | For every spec and every rule, no character behind the prefix is "/", "%" or ":", suffixes included |
| Text.ItoaIsDecimal | internal/controller/prometheus_rules_controller.go:998-1000 | The number in a suffix has digits only, no leading zero, and stands for the number |
| RuleOrigins.OriginsCarryPrefix | internal/controller/prometheus_rules_controller.go:1013-1061 | Every settled origin starts with the prefix of its resource |
| RuleOrigins.PrefixesNeverOverlap | internal/controller/prometheus_rules_controller.go:651-657 | Within a dataset, an origin carries the prefixes of two (namespace, name) pairs only if they are the same pair |
| RuleOrigins.ClustersNeverOverlap | internal/controller/prometheus_rules_controller.go:1050-1061 | No origin carries the prefixes of resources in clusters with different UIDs, whatever datasets, namespaces and names are |
| Dash0Backend.Dash0Api.Execute | internal/controller/api_sync_common.go:1246-1267 | A call has its effect unless it fails without effect, and deleting an absent object answers 404 |
| Dash0Backend.ExecuteAllApiCalls | internal/controller/api_sync_common.go:1201-1242 | All requests are served in order whatever fails; the error map and the status code map always have the same keys; a later failure replaces the code of an earlier one with the same item name; deleting an absent object counts as success |
| Dash0Backend.UntargetedObjectsStay | internal/controller/api_sync_common.go:1201-1242 | Objects that no request targets are as before |
| Dash0Backend.TargetedObjectsChange | internal/controller/api_sync_common.go:1201-1242 | If targets are distinct, a targeted object ends as if its request had been served alone |
| RuleSync.ResourceToRequestsResult.RemoveDeleteRequestsForObjectsThatDoNotExist | internal/controller/api_sync_common.go:1169-1180 | Exactly the DELETE requests for objects that do not exist are dropped, the order is kept |
| RuleSync.ResourceToRequestsResult.AddDeleteRequestsForOrphans | internal/controller/api_sync_common.go:1144-1164 | One DELETE request per existing object that the resource does not list is appended, and their number is recorded |
| RuleSync.CreateDeleteRequests | internal/controller/prometheus_rules_controller.go:1357-1386 | The DELETE requests are those for the existing objects that are not listed, in the order of the listing |
| RuleSync.MapRule | internal/controller/prometheus_rules_controller.go:690-786 | Each rule adds its origin in any case and is counted by its kind, and adds a request, a validation issue or a 400 error depending on its kind, validity and convertibility and on the action |
| RuleSync.MapGroup | internal/controller/prometheus_rules_controller.go:688-788 | Each rule of a group, at its index, is mapped with the origin rendered for that position |
| RuleSync.MapResourceToApiCalls | internal/controller/prometheus_rules_controller.go:659-803 | The requests, listed origins, issues, errors and totals of a resource are those of its rules in order; a spec that cannot be converted results in one precondition error and no rules |
| RuleSync.ExecuteRequests | internal/controller/api_sync_common.go:548-567 | Failures are merged into the recorded errors, and errors and status codes keep the same keys |
| RuleSync.SynchronizeViaApi | internal/controller/api_sync_common.go:460-609 | One synchronization leaves the backend as its requests leave it, and reports exactly the specified requests, successes, status codes, validation issues and totals, with or without a listing, for both actions |
| RuleSync.SynchronizeViaAllApis | internal/controller/api_sync_common.go:447-609 | Every API configuration ends as if it had been synchronized alone, whatever happens with the others; a resource excluded by its label is deleted from all of them |
| RuleConvergence.ItemsAreProper | internal/controller/prometheus_rules_controller.go:687-788 | The rules of a resource are synchronized to pairwise different objects, all under its prefix |
| RuleConvergence.SyncRequestsAre | internal/controller/api_sync_common.go:493-523 | No two requests of a synchronization have the same target, and there is a request for an object if and only if a rule sends one or the object is an orphan |
| RuleConvergence.SyncChanges | internal/controller/api_sync_common.go:448-583 | For every object, what a synchronization does to it, whatever fails |
| RuleConvergence.UpsertConverges | internal/controller/api_sync_common.go:493-523 | After an upsert without failures, the objects under the prefix are the upserted rules with their new payloads and the previous objects of listed but invalid rules; nothing outside the prefix has changed |
| RuleConvergence.UpsertForgetsHistory | internal/controller/api_sync_common.go:493-523 | If all rules are valid, what is under the prefix afterwards does not depend on what was there before |
| RuleConvergence.UpsertIsIdempotent | internal/controller/api_sync_common.go:493-523 | Repeating the upsert changes nothing and sends no DELETE request |
| RuleConvergence.UpsertWithoutListingRemovesNothing | internal/controller/api_sync_common.go:470-523 | If listing the existing objects fails, an upsert removes no object, whatever else fails |
| RuleConvergence.UnparsableSpecRemovesEverything | internal/controller/prometheus_rules_controller.go:665-686 | Upserting a resource whose spec cannot be converted removes all objects under its prefix and nothing else |
| RuleConvergence.UpsertRemovesNothingIff | internal/controller/api_sync_common.go:493-523 | For any spec, an upsert without failures removes no object if and only if every existing object of the resource is listed by it |
| RuleConvergence.DeletionIsExact | internal/controller/api_sync_common.go:1144-1180 | With a listing, a deletion sends DELETE requests only, each target once, and the targets are exactly the existing objects of the resource except those of rules without a name |
| RuleConvergence.DeletionLeaves | internal/controller/api_sync_common.go:1269-1283 | After a deletion without failures, nothing is left under the prefix except objects of rules without a name, and nothing else has changed |
| RuleConvergence.DeletionIsCompleteIff | internal/controller/prometheus_rules_controller.go:701-788 | Nothing is left under the prefix if and only if no object existed under the origin of a rule without a name |
| RuleConvergence.NamelessRuleSurvivesDeletion | internal/controller/prometheus_rules_controller.go:701-788 | A resource, a listing and a backend for which a deletion leaves an object behind |
| RuleFates.InvalidAlertingRule | internal/controller/prometheus_rules_controller.go:729-760 | For every spec and every place in it: an alerting rule with validation issues gets no request, its object stays as it is whatever the listing is and whatever calls fail, and its issues are reported under the names of its group and itself |
| RuleFates.NamelessRule | internal/controller/prometheus_rules_controller.go:719-754 | A rule with neither a record nor an alert gets no request for either action, its object stays as it is, and this is reported under its group and its index in it |
| RuleFates.ValidAlertingRule | internal/controller/prometheus_rules_controller.go:729-783 | After an upsert without failures, the check rule under the origin of an alerting rule without issues has the payload that this rule is converted to |
| RuleFates.ConvertibleRecordingRule | internal/controller/prometheus_rules_controller.go:690-725 | After an upsert without failures, the recording rule under the origin of a rule with a record has the payload that this rule is converted to, without validation |
| RuleFates.UnconvertibleRule | internal/controller/prometheus_rules_controller.go:700-712 | A rule that cannot be converted gets no request, its object stays as it is, and an error is reported for it |
| RuleFates.NamedRuleIsDeleted | internal/controller/prometheus_rules_controller.go:690-788 | After a deletion without failures, the object of a rule with a name is gone, with a listing that has it or, for a resource that is gone, without a listing |
| RuleFates.RecordedCodeIs | internal/controller/api_sync_common.go:1269-1293 | What is recorded for a request: 401 for an invalid auth token, 0 without a response, otherwise the status, except 404 for a deletion |
| RuleFates.FailedOrphanDeletion | internal/controller/prometheus_rules_controller.go:1357-1386 | An existing object that no rule stands for gets a DELETE request under the name of its origin with a remark |
| RuleFates.UnparsableSpecIsReported | internal/controller/prometheus_rules_controller.go:665-686 | A spec that cannot be converted is reported as one error with status 400 and without rules |
| RuleFates.FailedListingIsReported | internal/controller/api_sync_common.go:470-512 | A failed listing is reported; a deletion of a resource that still exists reports nothing else |
| RuleFates.TotalsAreReported | internal/controller/api_sync_common.go:1201-1242 | The report counts exactly the rules with a record as recording rules, all others as alerting rules, and the listed objects that no rule stands for as orphans; the items reported as successful are those with a request that succeeded or deleted what did not exist anymore |
| NamespaceResync.ExistingOriginsInNamespace.Get | internal/controller/api_sync_common.go:1126-1142 | The first listing per API configuration is kept and returned by all later calls, also if it failed |
| NamespaceResync.ExistingOriginsInNamespace.OriginsOfResource | internal/controller/api_sync_common.go:1059-1079 | The listing of the namespace, filtered by the prefix of the resource |
| NamespaceResync.ResyncNamespace | internal/controller/prometheus_rules_controller.go:1471-1483 | A resync uses the first listing for all jobs, or its failure if it has failed, and leaves what the memoised run leaves |
| RuleConvergence.SynchronizedStaysUnderPrefix | internal/controller/api_sync_common.go:1059-1079 | A synchronization, with any listing of objects under its prefix or none, changes no object outside this prefix, whatever fails |
| NamespaceResync.JobsOfDifferentResourcesCommute | internal/controller/api_sync_common.go:1059-1079 | Two jobs for different resources of a namespace leave the same backend in either order, whether or not their listings succeed and whatever calls fail |
| NamespaceResync.ListingOrderIsIrrelevant | internal/controller/api_sync_common.go:513-523 | Two listings of the same objects in different order lead to the same backend |
| NamespaceResync.MemoisedRunRefinesRefetching | internal/controller/api_sync_common.go:1056-1142 | For jobs of different resources of a namespace, whatever calls fail, the run with one shared listing ends in the same backend as the run that lists the objects of each resource right before processing it |
| RetryClassification.HasRetryableError | internal/controller/synchronization_retry_runnable.go:292-306 | A resource is selected if and only if some recorded error of some endpoint has a code of 0, 429 or at least 500, where a missing code counts as 0 |
| RetryClassification.SynchronizeAndClassify | internal/controller/synchronization_retry_runnable.go:292-338 | Synchronizing with all endpoints and datasets and then scanning the recorded errors selects the resource if and only if a retryable status code is recorded for one of them |
| RetryClassification.RetryableCodeIff | internal/controller/api_sync_common.go:499-567 | For one destination, a retryable status code is recorded if and only if the last failing request of some item name, or a listing failure that counts, has one |
| RetryClassification.PermanentFailuresLeaveNoRetryableCode | internal/controller/synchronization_retry_runnable.go:292-338 | If all failures for a destination carry a 4xx code other than 429, no retryable status code is recorded for it |
| RetryClassification.RetryableFailureIsRecorded | internal/controller/synchronization_retry_runnable.go:292-338 | If item names are distinct, any request to a destination that fails with 0, 429 or at least 500 leads to a retryable status code being recorded |
| RetryClassification.RetryableFailuresAreRecordedIff | internal/controller/api_sync_common.go:1210-1237 | For one destination, every retryable failure of a request leads to a retryable status code being recorded, whatever else fails, if and only if the item names of the requests are pairwise distinct or the listing has failed in a way that leads to one anyway; both are known before any call |
| RetryClassification.RetryableFailuresAreSelectedIff | internal/controller/synchronization_retry_runnable.go:292-306 | For any number of endpoints and datasets, every retryable failure of a call to any of them leads to the selection of the resource, whatever else fails, if and only if the item names of the requests to each of them are pairwise distinct or a listing has failed in a way that leads to it anyway |
| RetryClassification.TransientFailureSelects | internal/controller/synchronization_retry_runnable.go:292-338 | From the call to the selection: with distinct item names, a call without a response, or with status 429 or at least 500, to any destination leads to the selection of the resource |
| RetryClassification.TransientListingFailureSelects | internal/controller/synchronization_retry_runnable.go:292-338 | The same for a listing, unless its failure does not count |
| RetryClassification.OtherFailuresDoNotSelect | internal/controller/synchronization_retry_runnable.go:292-338 | If listings succeed and calls fail only because of an invalid auth token or with a status below 500 other than 0 and 429, the resource is not selected |
| RetryClassification.PermanentFailuresAreNotSelected | internal/controller/synchronization_retry_runnable.go:292-338 | If all failures for all endpoints and datasets carry a 4xx code other than 429, the resource is not selected |
| RetryClassification.ErrorMapsAreDisjointIff | internal/controller/api_sync_common.go:548-567 | The errors of the mapping stage and those of the calls concern different items, whatever calls fail, if and only if no request has the item name of a rule that cannot be converted |
| RetryClassification.RuleErrorsAreDisjointIff | internal/controller/api_sync_common.go:548-567 | The same for the requests of the rules: if and only if no rule that cannot be converted has the item name of one that is sent |
| RetryClassification.ErrorMapsOverlap | internal/controller/api_sync_common.go:555-567 | A rule that cannot be converted and one of the same name that is sent: both maps hold that name, and after the merge only the error of the call is left |
| RetryClassification.SameItemNameHidesRetryableFailure | internal/controller/api_sync_common.go:1210-1237 | Two rules with the same name, of which one fails with 503 and the next with 400, leave no retryable status code |
| RetryRunnable.SplitInvertsQualifying | internal/controller/synchronization_retry_runnable.go:342-348 | Splitting a recorded name succeeds with a resource if and only if it is the qualified name of this resource, with a non-empty namespace without a slash and a non-empty name |
| RetryRunnable.RetryPrometheusRuleSynchronizations | internal/controller/synchronization_retry_runnable.go:172-206 | Visiting the recorded results in any order enqueues, each once, exactly the resources that have a retryable error recorded and can be fetched, if the type is being watched in a known version, and otherwise none |
| RetryRunnable.SynchronizedAgainIff | internal/controller/synchronization_retry_runnable.go:248-286 | A resource is enqueued again if and only if what was recorded for all its destinations selects it, its type is being watched, and it can be fetched |
| RetryRunnable.FailedDeletionIsNotRetried | internal/controller/synchronization_retry_runnable.go:263-278 | If all calls of the deletion of a resource fail with 503, all its objects stay, it is selected, and it is not enqueued again |
| RetryRunnable.DeletionHasRequestsIff | internal/controller/api_sync_common.go:1144-1180 | With a listing, the deletion of a resource sends requests if and only if an object of it exists that is not the one of a rule without a name |
| SyncQueue.ThirdPartyResourceSyncQueue.Store | internal/controller/third_party_crd_common.go:220-230 | The locked section of Add is the storing step of the transition system |
| SyncQueue.ThirdPartyResourceSyncQueue.Take | internal/controller/third_party_crd_common.go:235-254 | The locked section of Get is the taking step: with a pending job it is removed and counted as in flight, otherwise the worker marks the key as done and tries again |
| SyncQueue.ThirdPartyResourceSyncQueue.Finish | internal/controller/third_party_crd_common.go:258-263 | The locked section of Done is the counting step |
| SyncQueue.ThirdPartyResourceSyncQueue.Len | internal/controller/third_party_crd_common.go:267-271 | In every reachable state, Len is the number of pending jobs plus the number of workers that are processing one |
| SyncQueue.NextLosesNoJob | internal/controller/third_party_crd_common.go:220-263 | Every step keeps: the key of each pending job is dirty, or an adder is about to add it, or a worker is about to take the job |
| SyncQueue.NextKeepsInv | internal/controller/third_party_crd_common.go:220-272 | Every step of every adder and worker keeps the whole invariant of the queue |
| SyncQueue.RunKeepsInv | internal/controller/third_party_crd_common.go:220-272 | The invariant holds after any number of steps in any interleaving |
| SyncQueue.NoResourceIsProcessedTwice | internal/controller/third_party_crd_common.go:235-265 | In every reachable state, no two workers process jobs of the same resource |
| SyncQueue.WaitingKeyIsServed | internal/controller/third_party_crd_common.go:235-265 | First in, first out: in every run, a key that waits behind p others is got by the worker that gets a key after p others have been got, no matter what is added meanwhile |
| SyncQueue.LenCountsOutstandingJobs | internal/controller/third_party_crd_common.go:267-271 | In every reachable state, Len is 0 if and only if no job is pending and no worker has one |
| SyncQueue.EveryJobIsTakenOrReplaced | internal/controller/third_party_crd_common.go:220-263 | In every reachable state, exactly one of three things holds of each stored job: it has been taken, exactly once; or it was still pending when a later job for the same key overwrote it, and is never taken; or it is pending |
| SyncQueue.OverwrittenMeansNotTaken | internal/controller/third_party_crd_common.go:220-230 | A job that another one is stored after is never taken if and only if it was still pending at that moment |
| SyncQueue.JobsAreTakenInOrder | internal/controller/third_party_crd_common.go:220-263 | The jobs taken for a key are a subsequence of the stored ones, ending in the last one if none is pending |
| SyncQueue.DrainingEnds | internal/controller/third_party_crd_common.go:235-265 | If no further job is added, any interleaving ends within a number of steps that is bounded by the state |
| SyncQueue.DrainedQueueHasProcessedEverything | internal/controller/third_party_crd_common.go:220-272 | When no step but adding is left, nothing is pending or in flight, and for every resource the job stored last has been taken |
| QueueConvergence.OtherJobsDoNotInterfere | internal/controller/prometheus_rules_controller.go:651-657 | Whatever a job gets to see and whatever fails, it changes no object of another resource, in the same namespace or another one |
| QueueConvergence.LastStoredHasLastWord | internal/controller/third_party_crd_common.go:220-272 | In every run of adders and workers with any failing calls: when the queue has drained, the job stored last for a resource has been synchronized, and nothing has touched its objects since |
| QueueConvergence.JobLeaves | internal/controller/api_sync_common.go:460-583 | What a job leaves of each object of its resource if its calls succeed, for an upsert or a deletion with any rules, invalid ones included, and with a listing that is current, out of date or missing |
| QueueConvergence.DrainedQueueConvergesIff | internal/controller/third_party_crd_common.go:220-272 | When the queue has drained and no call has failed, whatever jobs were stored, replaced and taken in whatever order, with whatever rules and listings, the objects of a resource are those that the job stored last for it wants, if and only if this job removes every object that it has found and does not want |
| QueueConvergence.UpToDateListing | internal/controller/api_sync_common.go:1126-1142 | A listing that was fetched earlier, for the resource or for all jobs of a resync, still holds exactly the existing objects of a resource if no job of this resource has been finished since, whatever jobs of other resources have been |
| QueueConvergence.DrainedQueueConverges | internal/controller/third_party_crd_common.go:220-272 | When the queue has drained, no call has failed, and no job of a resource was finished between the fetching of a listing and its use for this resource, the objects of a resource are exactly those that the job stored last for it wants, whatever was there before, provided that all its rules are valid, or, for a deletion, named |
| QueueConvergence.OtherObjectsStay | internal/controller/third_party_crd_common.go:220-272 | In every run, objects that belong to no resource with a stored job stay as they are |
| ResyncRace.LatestIsLastIff | internal/controller/prometheus_rules_controller.go:1471-1483 | For every interleaving of changes of a resource, their events and any number of resyncs that comes to rest, the job enqueued last carries the latest version if and only if no resync enqueued, after everything else, what it had read before the last change |
| ResyncRace.OvertakenResyncWins | internal/controller/prometheus_rules_controller.go:511-530 | If there is such a resync, and the queue has drained without failed calls, the objects of the resource are left behind by the job for the outdated version that it had read, whatever the listings were |
| ResyncRace.BackendFollowsResourceIff | internal/controller/prometheus_rules_controller.go:1471-1483 | When events, resyncs and queue have come to rest without failed calls, whatever the listings were, the backend holds what the latest version of the resource wants if and only if the job enqueued last leaves it so with what it got to see; if no resync was overtaken, this is the job for the latest version, and it does so if and only if it removes every object that it has found and does not want |
| ResyncRace.OrderDecidesIff | internal/controller/prometheus_rules_controller.go:1471-1483 | If, moreover, all listings were up to date and all rules of the job enqueued last are valid (or named, for a deletion), the backend holds what the latest version wants if and only if no resync was overtaken, or what it had read wants the same objects |
| ResyncRace.DeletedResourceComesBack | internal/controller/prometheus_rules_controller.go:1471-1483 | A run in which a resource is created and deleted, and a resync that has read it in between enqueues it last |
| StaleListing.LatestIsProcessedLastInVain | internal/controller/api_sync_common.go:1126-1142 | A run of events, a resync and the queue in which all calls succeed and the latest version, which has no rules, is enqueued and processed last, but with the listing fetched for an earlier job of the resync, so that the object of an earlier version is left over |
| WatchLifecycle.ThirdPartyResourceReconciler.MaybeStartWatching | internal/controller/third_party_crd_common.go:407-562 | If the definition exists, a configuration is valid, the setup succeeds and nothing is watching, exactly one running controller is added and the stop function is its own; otherwise nothing changes |
| WatchLifecycle.ThirdPartyResourceReconciler.StopWatching | internal/controller/third_party_crd_common.go:565-595 | Cancels the controller that the stop function belongs to and clears the stop function |
| WatchLifecycle.ThirdPartyResourceReconciler.ControllerHasReturned | internal/controller/third_party_crd_common.go:540-562 | The clean-up after a controller clears the stop function only if it is its own |
| WatchLifecycle.RunKeepsInv | internal/controller/third_party_crd_common.go:407-595 | In every run of starts, stops and delayed exits, the controllers that are neither cancelled nor finished are exactly the one that the stop function belongs to |
| WatchLifecycle.AtMostOneLiveWatch | internal/controller/third_party_crd_common.go:540-595 | At most one controller runs uncancelled, and it is the one that the stop function belongs to |
| WatchLifecycle.ControllersHaveBeenStarted | internal/controller/third_party_crd_common.go:407-562 | In every run, each controller has been added by a start with all prerequisites met at a moment without a stop function |
| WatchLifecycle.CancelledByStop | internal/controller/third_party_crd_common.go:565-595 | In every run, each cancelled controller has been cancelled by a stop while the stop function was its own |
| WatchLifecycle.LateExitKeepsNewerWatch | internal/controller/third_party_crd_common.go:540-562 | The late exit of a stopped controller never clears a newer stop function |
| WatchLifecycle.OwnExitAllowsRestart | internal/controller/third_party_crd_common.go:540-562 | After a controller has returned on its own, the watch can be started again |
| PersesWatch.ChooseVersionFromCrd | internal/controller/perses_dashboards_controller.go:195-217 | v1alpha2 if the definition serves it, otherwise v1alpha1 if it serves that, otherwise none |
| PersesWatch.FilterValidApiConfigs | internal/controller/third_party_crd_common.go:597-619 | Exactly the configurations with an endpoint and a token remain, in their order |
| PersesWatch.ValidConfigsKeepOrder | internal/controller/third_party_crd_common.go:597-619 | What the first configurations contribute to the valid ones comes first |
| PersesWatch.PersesDashboardCrdReconciler.OnCrdChange | internal/controller/perses_dashboards_controller.go:171-193 | Records the chosen version, or that there is none |
| PersesWatch.PersesDashboardCrdReconciler.Create | internal/controller/perses_dashboards_controller.go:305-319 | The watch is in step with the definition afterwards if and only if there was no watch or its version is still the chosen one |
| PersesWatch.CreateWhileWatchingIsNotFollowed | internal/controller/perses_dashboards_controller.go:305-319 | A run in which a create event during a watch is not followed: the old version goes on being watched, and stopping the watch leaves its informer behind |
| PersesWatch.PersesDashboardCrdReconciler.Update | internal/controller/perses_dashboards_controller.go:322-399 | An update in any version situation keeps the watch in step |
| PersesWatch.PersesDashboardCrdReconciler.Delete | internal/controller/perses_dashboards_controller.go:401-414 | A deletion stops the watch and removes the informer that was started |
| PersesWatch.PersesDashboardCrdReconciler.SetDefaultApiConfigs | internal/controller/perses_dashboards_controller.go:456-467 | The watch runs afterwards if and only if a supported version is served and a configuration is valid |
| PersesWatch.PersesDashboardCrdReconciler.RemoveDefaultApiConfigs | internal/controller/perses_dashboards_controller.go:469-472 | The watch is stopped and no informer is left over |
| PersesWatch.HandleEvents | internal/controller/perses_dashboards_controller.go:171-472 | After every possible run of events, a watch runs if and only if the definition serves a supported version and a valid configuration is set; its version is the first preferred served one, and there is no other informer |
| PersesWatch.LastCrdEventDecides | internal/controller/perses_dashboards_controller.go:305-414 | The definition that is in the cluster after a run of events is the one of the last event for it |
| PersesWatch.LastConfigEventDecides | internal/controller/perses_dashboards_controller.go:456-472 | The configurations that are set after a run of events are those of the last event for them |
| ConversionWebhook.PatchIsStable | internal/controller/perses_dashboards_controller.go:1228-1289 | A patched definition satisfies both match predicates, so the next attempt with the same CA bundle does nothing, and a foreign webhook is never up for replacement |
| ConversionWebhook.PatchesIff | internal/controller/perses_dashboards_controller.go:1124-1188 | On the fields: an attempt patches if and only if the version it has read calls nobody, or the service of the operator at its port and path, there is a CA bundle that is not blank, and the version does not call the operator with this bundle yet |
| ConversionWebhook.RetriesAfterConflict | internal/controller/perses_dashboards_controller.go:1044-1073 | After a conflict, the definition is read again and the next attempt is based on its latest version, up to five attempts |
| ConversionWebhook.AttemptsAreBounded | internal/controller/perses_dashboards_controller.go:1044-1073 | In every run, no event leads to more than five attempts of a replica |
| ConversionWebhook.ApiServer.Patch | internal/controller/perses_dashboards_controller.go:1160-1165 | A patch with an outdated resource version is refused, any other one creates the next version |
| ConversionWebhook.PatchConversionWebhookIfNecessary | internal/controller/perses_dashboards_controller.go:1124-1188 | What one attempt writes, if anything, and whether it runs into a conflict |
| ConversionWebhook.NextKeepsInv | internal/controller/perses_dashboards_controller.go:1044-1073 | Attempts, conflicts, re-reads and writes of others keep: whatever the operator wrote replaced a version that was not foreign, with a usable CA bundle |
| ConversionWebhook.ForeignWebhookIsNeverReplaced | internal/controller/perses_dashboards_controller.go:1044-1073 | On the fields: in every run with any number of replicas and other writers, whatever the operator has written replaced a version with no conversion webhook, with one that has neither a service nor a URL, or with one that calls its own service at its port and path; and what it wrote calls this service, with a CA bundle that is not blank |
| ConversionWebhook.ReplicasDoNotOverwriteEachOther | internal/controller/perses_dashboards_controller.go:1044-1073 | Replicas with the same CA bundle never patch one directly after the other |
| ApiClientPool.Pool.Get | internal/controller/api_client_pool.go:66-99 | A hit returns the client built for that key and moves it to the front; a miss validates the token, creates a client, evicts the oldest at the limit; failures change nothing; map and list stay in bijection |
| ApiClientPool.Pool.MoveToFront | internal/controller/api_client_pool.go:70-73 | The element moves to the front, the others keep their order |
| ApiClientPool.Pool.Evict | internal/controller/api_client_pool.go:92-96 | Exactly the least recently used client leaves both the list and the map |
| ApiClientPool.CutCommutes | internal/controller/api_client_pool.go:66-99 | Using a key and then cutting to the capacity is the same whether or not the list had been cut before |
| ApiClientPool.PoolKeepsMostRecentlyUsed | internal/controller/api_client_pool.go:66-99 | After any sequence of calls, the keys in the list are the distinct successfully requested keys in order of most recent use, cut to 50 |
| ApiClientPool.MostRecentIsByLastUse | internal/controller/api_client_pool.go:66-99 | Of two keys in the list, the first one has been used when the second one was not used anymore |
| ApiClientPool.SucceedsIff | internal/controller/api_client_pool.go:66-99 | A call succeeds if and only if there is a client for its key, or its token is accepted and a client can be created |
| EnvVars.SecretNameInjective | internal/util/exporters/exporter_headers.go:19-23 | Headers at different positions get differently named variables |
| EnvVars.ConvertHeadersToEnvVarValue | internal/selfmonitoringapiaccess/self_monitoring_and_api_access.go:647-668 | The rendered headers and the variables behind them; headers with an incomplete secret reference are skipped in both |
| EnvVars.RenderedReferences | internal/selfmonitoringapiaccess/self_monitoring_and_api_access.go:647-668 | Whatever the rendered headers refer to is the auth token or one of the returned variables |
| EnvVars.Container.AddAuthToken | internal/selfmonitoringapiaccess/self_monitoring_and_api_access.go:622-639 | The auth token ends up as the first variable, wherever it was before |
| EnvVars.WithAuthTokenSets | internal/selfmonitoringapiaccess/self_monitoring_and_api_access.go:622-639 | Adding the token keeps names unique and referenced variables before referring ones, changes no other variable, and does nothing if the token is already in front |
| EnvVars.Container.PrependOrUpdate | internal/selfmonitoringapiaccess/self_monitoring_and_api_access.go:685-692 | Update in place or insertion at the front |
| EnvVars.PrependedOrUpdatedSets | internal/selfmonitoringapiaccess/self_monitoring_and_api_access.go:685-692 | The list defines the variable, otherwise what it defined before, and stays in order |
| EnvVars.Container.UpdateOrAppend | internal/selfmonitoringapiaccess/self_monitoring_and_api_access.go:694-710 | Update in place or insertion at the end |
| EnvVars.UpdatedOrAppendedSets | internal/selfmonitoringapiaccess/self_monitoring_and_api_access.go:694-710 | The list defines the variable, otherwise what it defined before, and stays in order |
| EnvVars.WithHeadersSets | internal/selfmonitoringapiaccess/self_monitoring_and_api_access.go:605-619 | Setting the headers variable, in place or right after the endpoint, keeps everything it refers to in front of it |
| EnvVars.Container.EnableInOTelSdkContainer | internal/selfmonitoringapiaccess/self_monitoring_and_api_access.go:554-620 | The in-place edits of a container with an OpenTelemetry SDK compute the specified list |
| EnvVars.EnableSelfMonitoringInContainers | internal/selfmonitoringapiaccess/self_monitoring_and_api_access.go:494-539 | Without an authorization for a Dash0 export no container changes; otherwise the collector container gets the auth token only, and every other one the full configuration under its service name |
| EnvVars.EnabledConfigures | internal/selfmonitoringapiaccess/self_monitoring_and_api_access.go:554-620 | For any ordered list and any export, afterwards all variables of the export are defined with their values, stale headers are gone, and the list is in order |
| EnvVars.EnabledContents | internal/selfmonitoringapiaccess/self_monitoring_and_api_access.go:554-620 | Afterwards the list defines exactly what the call sets, and what it defined before under other names; everything else a container defines is kept |
| EnvVars.EnabledValues | internal/selfmonitoringapiaccess/self_monitoring_and_api_access.go:554-603 | Endpoint and protocol of the export that takes precedence (Dash0, gRPC, HTTP), the resource attributes, the log level in development mode, and the auth token in front |
| EnvVars.EnabledDash0Headers | internal/selfmonitoringapiaccess/self_monitoring_and_api_access.go:554-620 | The headers of a Dash0 export refer to the auth token, and hold the dataset if there is one |
| EnvVars.EnabledUserHeaders | internal/selfmonitoringapiaccess/self_monitoring_and_api_access.go:647-668 | The headers of another export, one after the other: literal ones as they are, those from a secret as references to a variable of their own that is defined from the secret, incomplete ones not at all |
| EnvVars.HeadersFollowEndpoint | internal/selfmonitoringapiaccess/self_monitoring_and_api_access.go:605-619 | New headers are inserted right after the endpoint, and all other variables stay where they are |
| EnvVars.EnabledInContainer | internal/selfmonitoringapiaccess/self_monitoring_and_api_access.go:494-539 | The collector container gets the auth token and nothing else; other containers get the configuration, under the name of the collector service in its pod and under their own name elsewhere |
| EnvVars.EnabledIsIdempotent | internal/selfmonitoringapiaccess/self_monitoring_and_api_access.go:554-620 | A second call with the same export changes nothing |
| EnvVars.ReferencesStayResolved | internal/selfmonitoringapiaccess/self_monitoring_and_api_access.go:494-620 | Starting from a list with unique names and none of the managed ones, after any sequence of calls with any exports, for a collector container or any other, names are unique and everything the headers refer to is a managed variable defined earlier in the list |
| UniqueInScope.Cluster.VerifyThatResourceIsUniqueInScope | internal/resources/resources_util.go:162-273 | The verdict and the new state of all resources, for a listing that fails or comes in any order, any choice among equal timestamps and any failing status updates |
| UniqueInScope.DistinctTimestampsSuffice | internal/resources/resources_util.go:363-375 | Distinct creation timestamps make the newest resource unique, which is what the other statements about the newest one require |
| UniqueInScope.DegradedIff | internal/resources/resources_util.go:206-273 | Which resources a check degrades, and its verdict, in terms of timestamps, deletion marks and failing updates: resources that are being deleted neither count nor are degraded by the checks of others |
| UniqueInScope.NewestIff | internal/resources/resources_util.go:363-375 | The newest resource is one that is not being deleted, and no other such one has been created later |
| UniqueInScope.NewestIsNeverDegraded | internal/resources/resources_util.go:206-273 | With one newest resource, no run of checks on any resources, with any failures, changes it |
| UniqueInScope.FaultlessCheckSettles | internal/resources/resources_util.go:206-273 | A check that sees several resources and can update all of them degrades all but the newest, and continues if and only if it is for the newest |
| UniqueInScope.ChecksConverge | internal/resources/resources_util.go:206-273 | Any run of checks with at least one without failures ends in the same state, in which exactly the newest was not degraded by them |
| UniqueInScope.TiedResourcesDegradeEachOther | internal/resources/resources_util.go:363-375 | Two resources with the same latest timestamp can degrade each other |
| UniqueInScope.SomeStaysInForceIff | internal/resources/resources_util.go:363-375 | Some resource stays in force through all runs of checks if and only if the latest timestamp is not shared |
| QuietPeriod.RequestDeletionOfAllowlistsNotBeingDeletedYet | internal/postdelete/operator_post_delete_handler.go:311-327 | Deletion is requested of exactly the listed items that are not being deleted, in order |
| QuietPeriod.WaitUntilNoAllowlistsAreLeft | internal/postdelete/operator_post_delete_handler.go:251-309 | The loop ends at the first poll that sees the type gone or that is quiet, and otherwise with a timeout; what it reports; and which deletions it requests |
| QuietPeriod.QuietIff | internal/postdelete/operator_post_delete_handler.go:277-284 | The remembered time decides correctly whether some empty listing lies the quiet period back with no allowlist seen since |
| QuietPeriod.QuietMeansNothingSeen | internal/postdelete/operator_post_delete_handler.go:277-284 | When the loop ends quietly, no successful listing within the quiet period saw an allowlist |
| QuietPeriod.StayingEmptyEndsTheLoop | internal/postdelete/operator_post_delete_handler.go:264-284 | Seeing nothing for the quiet period ends the loop, even if listings fail in between |
| QuietPeriod.DeletionRequestsAre | internal/postdelete/operator_post_delete_handler.go:284-293 | Over all polls, deletion is requested of exactly the allowlists that some poll has seen not being deleted, recreated ones included |
| QuietPeriod.NoneLeftAfterTimeout | internal/postdelete/operator_post_delete_handler.go:296-308 | After a timeout, "none left" is reported if and only if some listing succeeded and the last successful one was empty |
| QuietPeriod.LeftAfterTimeout | internal/postdelete/operator_post_delete_handler.go:296-308 | After a timeout, the names of the last successful listing are reported if it was not empty, and an unknown number if no listing succeeded |
| QuietPeriod.DeletionsKeepOrder | internal/postdelete/operator_post_delete_handler.go:311-327 | Deletions are requested in the order of the listing |
| SamplingRates.ConversionChangesExactlyRates | internal/controller/sampling_rule_controller.go:488-517 | For trees of any depth and width and every path: at the path of a rate the value becomes its number if it is a text that can be parsed, everywhere else value, keys and lengths are as before |
| SamplingRates.RatesBecomeNumbers | internal/controller/sampling_rule_controller.go:500-517 | At every rate path, a text becomes the very number that it is parsed to, and stays if it cannot be parsed; any other value stays |
| SamplingRates.NoParsableRateIsLeft | internal/controller/sampling_rule_controller.go:500-517 | No reachable rate is left as a text that can be parsed |
| SamplingRates.ConversionIsIdempotent | internal/controller/sampling_rule_controller.go:488-517 | Converting twice is converting once |
| SamplingRates.ConvertRateInCondition | internal/controller/sampling_rule_controller.go:500-517 | Rewriting the maps of a condition in place terminates, keeps them a tree and means the conversion of the value |
| SamplingRates.ConvertConditionRates | internal/controller/sampling_rule_controller.go:488-498 | The same for the conditions of a resource |
| SamplingRates.DeepCopy | internal/controller/sampling_rule_controller.go:475-485 | There is a copy if and only if the value can be serialized; it has the same value and shares no map with the original or anything else |
| SamplingRates.TransformToSamplingApiPayload | internal/controller/sampling_rule_controller.go:450-473 | The payload holds the converted spec under the fixed envelope and consists of fresh maps; the caller's resource is unchanged; there is none without a spec, or with one that cannot be copied |
| SamplingRates.PayloadParts | internal/controller/sampling_rule_controller.go:450-473 | The payload has a kind, the name and the dataset of the resource in its metadata, and at every path of its spec what the spec of the resource has, with rates converted |
| SamplingRates.SerializeSamplingDefinition | internal/controller/sampling_rule_controller.go:419-432 | The payload is serialized if it can be, and the resource is unchanged |
| SamplingRates.SerializedIff | internal/controller/sampling_rule_controller.go:419-432 | A resource that can be serialized itself results in a serialized payload if and only if it has a spec and none of its rates, at any depth, is a text for an infinity or for a value that is not a number |
| SamplingRates.NestedNotANumberIsNotSerializable | internal/controller/sampling_rule_controller.go:500-517 | A resource with a nested rate "NaN" that can be serialized before the conversion but not after it |

## Left out

- HTTP, the Dash0 API client, the Kubernetes client and cache, logging, metrics and events: their outcomes are parameters.
- YAML, JSON and payload types, validation of expressions and thresholds, float parsing: functions that the model takes as
  parameters. That a serialized payload is read into a typed definition afterwards is left out.
- RuleSync.SynchronizeViaApi: the preconditions and the writing of statuses, and labels and ids of successful calls.
- RuleSync.MapRule: annotations and URLs are left out.
- RuleSync.CreateDeleteRequests: only the two object types that a PrometheusRule lists; the branch for unknown types adds no request and cannot be reached from a listing.
- RuleOrigins.RenderRuleOrigins: that group names are unique is not assumed, and neither is that the dataset has no separator in it.
- NamespaceResync.ResyncNamespace: one API configuration, and jobs that run one after the other; see RuleSync.SynchronizeViaAllApis, JobsOfDifferentResourcesCommute, and QueueConvergence and ResyncRace for resync jobs among other jobs.
- Dashboards, views, synthetic checks, spam filters and the other owned resources: one object per resource, so their synchronization would only add easy members.
- SyncQueue: the work queue after ShutDown. A job stored between the test for shutdown and the shutdown has no queued key.
- QueueConvergence: a job has its effect on the backend at one moment, when it is finished, with one API configuration; with several workers, calls of jobs of different resources could interleave, which commute (NamespaceResync.JobsOfDifferentResourcesCommute). Where the listing of a job comes from is a parameter, so shared listings are included.
- QueueConvergence.DrainedQueueConverges: requires listings without other jobs of the resource in between, and valid or named rules; QueueConvergence.DrainedQueueConvergesIff does without both.
- ResyncRace.OrderDecidesIff: requires the same; ResyncRace.BackendFollowsResourceIff does without both.
- ResyncRace: every change leads to one event, and events are handled in order; changes that an interrupted watch merges into one event are left out.
- RetryRunnable: dashboards and the owned resources, whose results hold one status code each; the listing of the monitoring resources; changes of the results while they are visited.
- WatchLifecycle: managers and informers are not modelled; a controller that fails while being set up counts as not started.
- PersesWatch.HandleEvents: each event is handled as one step, starting a watch does not fail, and controllers do not return on their own; the last two are covered by WatchLifecycle.
- ConversionWebhook: a webhook without a client config, which the API server does not accept, and which the code would dereference; reading the CA bundle file; the pause between attempts.
- ApiClientPool.Pool.Get: accepted token prefixes and the creation of a client are parameters. Calls are serialized by the lock of the pool.
- EnvVars.ConvertHeadersToEnvVarValue: header values are kept as parts instead of one string, and a header that is a literal "$(...)" is not a reference.
- EnvVars.EnableSelfMonitoringInContainers: the normalisation of endpoints and their gRPC targets.
- UniqueInScope.Cluster.VerifyThatResourceIsUniqueInScope: one check is one step on the current state, and reasons and messages of conditions are reduced to whether a resource is degraded.
- QuietPeriod.WaitUntilNoAllowlistsAreLeft: the polls that happen before the timeout are given; failed deletions are only logged and therefore not modelled.
- SamplingRates.DeepCopy: precision of numbers that pass through JSON.
- findMostRecentResource (internal/resources/resources_util.go:348-361): relies on accessors of list types that are not part of this model.
- Workload instrumentation, component settings and startup code.
