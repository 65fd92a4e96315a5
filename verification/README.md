# Verified model of the pipeline controller

This project models the logic of the pipeline controller in Dafny and proves properties of it. A `Pipeline` lists
environments; each has targets, and a target is one application object on the local or on a remote cluster. The
controller publishes one status per target, and moves a revision from environment to environment. The model covers:

- the level-triggered reconciler: `Reconciler` (one reconciliation), `Publication` (what its status says), `Decision`
  (which promotion it issues), `Outcome` (both in terms of the objects it read, and how it ends), `Rollout` and
  `Convergence` (whole runs);
- the indexes and the target caches: `Keys`, `Indexing`, `Wakeups` (which changes wake a pipeline), `Caches` (calls of
  `watchTargetAndGetReader` interleaved with the GC loop), `CacheCode` (both as code that follows those steps),
  `Collection` (what the GC removes), `Incarnations` (which incarnation it cancels), `CacheFaults` (what errors leave
  behind), `CacheUse`;
- the manual approval gate: `Handlers` (each request on its own), `Gate` (requests and status write-backs
  interleaved), `Serving` (what the answers mean; requests served one by one are runs of the gate), `Consumption` and
  `DoubleApprovals` (when approvals are consumed), `MergePatch` and `StatusCodec` (the write-back as a merge patch),
  `EdgeReconciler`, `ApprovalMap` (the status entries on the heap);
- the small algorithms: `Conditions`, `RateLimiter`, `Retry`, `Commits`.

## How to read it

Calls into Kubernetes, clocks and strategies are parameters. `Reconciler.World` answers the reads of a reconciliation
(cluster objects, sync state of readers, application objects) and `Reconciler.Io` the writes. A nil dereference or an
index out of range in the source is the outcome `Panic`, not a precondition.

Granularity. `Caches` takes one step per critical section, queue operation or call out; `isCacheUsed` and
`removeCache` are separate steps, and the theorems that need them as one say so (`CollectsAtomically`). In `CacheCode`
a call or a turn of the GC loop lets the others take any steps between its critical sections (`OthersRun`, `CallsRun`,
of which callers know only that). `Rollout` reads one target per step, and the world may change between two reads. In
`Gate` a read may return any version ever stored, an update stores only on top of the latest version, and a merge patch
(section 2 of RFC 7396) is computed from two stale reads and applied to the current version.

Findings, each proved with its exact condition or a witness:

- A change can be missed exactly when a cluster reference is not indexed as a `GitopsCluster` or a target names no
  namespace: the index fills in the namespace, the read does not (`Wakeups.NeverMissesIffCovered`). The CRD enforces
  the kind, but it admits an empty namespace.
- The GC removes a cache in use exactly when the pipelines stored last between its check and its removal use it
  (`Collection.RemovesUsedCacheIff`, with a run in `Collection.RaceLosesUsedCache`).
- The GC may cancel an incarnation made after it took the key, and even after its check: exactly when it took a key
  that had no entry (`Incarnations.CancelsNewerIff`, with a run in `Incarnations.GcCancelsNewerIncarnation`). That is
  when the cache was removed and not made since, although the key was queued again
  (`Incarnations.TakesAbsentKeyIff`, `Incarnations.AbsentKeyWasQueuedAgain`). It needs a call that registers a cache it
  found at its locked re-check; if only the maker registered, it could not happen
  (`Incarnations.CancelsNewerOnlyAfterFound`).
- A key is stuck in the processing set, and its cache is never collected, exactly when `isCacheUsed` has failed on it
  (`CacheFaults.StuckIffCheckFailed`, `CacheFaults.StuckForever`).
- A cache never gets an event handler exactly when the call that made it has failed
  (`CacheFaults.DeafIffMakerFailed`, `CacheFaults.DeafForever`).
- A recorded approval can succeed twice in three ways: two requests overlap; one request is served after the other, but
  reads a status from before the reset; or a write-back that was read before the reset is sent after it
  (`DoubleApprovals`). In every interleaving the recordings balance the successes, what waits and what was dropped, up
  to resets that find nothing waiting and write-backs that restore a revision (`Consumption.EveryRunBalances`); without
  those two, approvals are consumed, and as long as nothing is dropped only then (`Consumption.ConsumedUnlessUnbacked`).
- Nothing remembers a promotion that was issued but has not landed: in every run and world in which a reconciliation
  promotes, the next one may issue the same promotion again (`Rollout.PromotionIsRepeated`), although each issues it
  only after it has read no target of the environment at that revision (`Rollout.EveryDecisionIsWarranted`).
- The limiter keeps its limit in every interval of the configured duration exactly for limits up to one
  (`RateLimiter.LimitPerIntervalHoldsUpToOne`); `RateLimiter.FixedWindowBound` is what holds for any limit.
- The level-triggered reconciler dereferences nil exactly for a pipeline without environments, and for a promotion to
  an environment that has its own while the pipeline has no default (`Decision.PanicsIff`).
- The rewritten GitLab commits are accepted exactly when each path is acceptable on its own; a file that exists must
  not be written twice (`Commits.RewrittenIsAcceptedIff`). If the deletions are made and the next commit is refused,
  the branch has lost every file that was to be written (`Commits.OnlyDeletionsAreMadeIff`).

## Model

| member | source | states |
|---|---|---|
| `Caches.EveryRunKeepsInv` | controllers/leveltriggered/caching.go:132-205 | in every interleaving of any calls with the GC loop: each mapped key is queued, delayed, processing, held by the GC or by its maker before `register`; live contexts are exactly the map entries; one event handler per incarnation at most |
| `Caches.NothingGetsLost` | controllers/leveltriggered/caching.go:362-392 | each step of a call or of the GC loop keeps every mapped key where the GC will find it |
| `Caches.HandlersStaySingle` | controllers/leveltriggered/caching.go:181-252 | because the re-check reassigns `cacheFound`, each incarnation has one maker at most and one handler at most |
| `Caches.EntriesStayOrAreCancelled` | controllers/leveltriggered/caching.go:329-336 | no entry is overwritten; an entry that goes is cancelled with it; if the GC saw an incarnation when it took the key, that one and no other is cancelled |
| `Incarnations.CancelsNewerIff` | controllers/leveltriggered/caching.go:367-392 | every cancelled cache has a step that took its key; its incarnation was made after that exactly when the key had no entry then, and after any later point of the turn exactly when it had none at that point |
| `Incarnations.TakesAbsentKeyIff` | controllers/leveltriggered/caching.go:329-392 | a key is taken without an entry exactly when its cache was removed before and none has been made since |
| `Incarnations.AbsentKeyWasQueuedAgain` | controllers/leveltriggered/caching.go:202-205 | such a key was queued again, by a registration or a delay that ended, since the turn that removed it took it |
| `Incarnations.CancelsNewerOnlyAfterFound` | controllers/leveltriggered/caching.go:181-205 | a newer incarnation is cancelled only if a call has registered a cache that it found at the re-check and did not make |
| `Incarnations.GcCancelsNewerIncarnation` | controllers/leveltriggered/caching.go:181-205 | for every key there is a run in which the GC cancels an incarnation made after its check |
| `CacheFaults.StuckIffCheckFailed` | controllers/leveltriggered/caching.go:379-381 | in every run a key is in the processing set without being handled exactly when a check of that key has failed |
| `CacheFaults.StuckForever` | controllers/leveltriggered/caching.go:379-381 | from that error on, the entry of the key never changes or goes |
| `CacheFaults.CheckedUnlessCheckFailed` | controllers/leveltriggered/caching.go:367-392 | without an error on the key, its cache is queued, delayed, or held by the GC or its maker |
| `CacheFaults.DeafIffMakerFailed` | controllers/leveltriggered/caching.go:211-216 | an incarnation has no handler, and no call to install one, exactly when the call that made it has failed |
| `CacheFaults.DeafForever` | controllers/leveltriggered/caching.go:211-216 | from that failure on it never has one |
| `Collection.RemovedOnlyAfterSeenUnused` | controllers/leveltriggered/caching.go:379-389 | a cache is removed only after a check that found no stored pipeline under its key |
| `Collection.RemovesUsedCacheIff` | controllers/leveltriggered/caching.go:379-389 | a removed cache is in use when it goes exactly when the pipelines stored last between its check and its removal use it |
| `Collection.AtomicGcRemovesOnlyUnused` | controllers/leveltriggered/caching.go:379-389 | with nothing stored between check and removal, a removed cache is used by no stored pipeline |
| `Collection.RaceLosesUsedCache` | controllers/leveltriggered/caching.go:379-389 | every pipeline can lose a cache it uses that way |
| `Collection.HeldIsLiveUnlessRemoved` | controllers/leveltriggered/caching.go:329-336 | the incarnation a call holds is live exactly while its entry is there, and cancelled exactly by a removal of its key |
| `Collection.ReaderOfUsedCacheIsLive` | controllers/leveltriggered/caching.go:132-205 | with check and removal as one, the cache a call found or made stays live while stored pipelines use its key |
| `CacheCode.Shared.WatchTarget` | controllers/leveltriggered/caching.go:132-260 | a call, with any steps of the others between its critical sections, follows the state machine; it succeeds exactly when it gets an informer, a client configuration if its lookup found no entry, and a handler if it made the cache; its reader was the entry of the key during the call; a cache it made has exactly one handler on success, and never one on failure |
| `CacheCode.Shared.Recheck` | controllers/leveltriggered/caching.go:181-202 | the locked re-check returns the entry of the key, found or newly made, and says which |
| `CacheCode.Shared.Collect` | controllers/leveltriggered/caching.go:367-392 | a turn of the GC loop follows the state machine: the key is requeued if it was in use when it was checked, its cache is removed if not, and it is stuck if the check failed |
| `CacheCode.Shared.RemoveCache` | controllers/leveltriggered/caching.go:329-336 | removes the entry, if any, and cancels its context and no other |
| `CacheUse.CacheIsUsedIffResolved` | controllers/leveltriggered/caching.go:304-326 | with valid names, `isCacheUsed` is true exactly when a stored pipeline has a target that resolves to the key |
| `CacheUse.StoredPipelinesKeepTheirCaches` | controllers/leveltriggered/caching.go:316-336 | with check and removal as one, no stored pipeline loses a cache it reads a target from |
| `CacheUse.StoredPipelinesReadLiveCaches` | controllers/leveltriggered/caching.go:132-205 | with check and removal as one, a call for a target of a stored pipeline holds a live cache |
| `Keys.CacheKeyReadsBack` | controllers/leveltriggered/caching.go:99-101 | a rendered cache key parses back to its cluster and type |
| `Keys.TargetIndexKeyReadsBack` | controllers/leveltriggered/caching.go:263-266 | a rendered target key parses back to its cluster, type and object |
| `Keys.CacheKeyInjective` | controllers/leveltriggered/caching.go:304-309 | different caches have different keys |
| `Keys.TargetIndexKeyInjective` | controllers/leveltriggered/caching.go:263-266 | different targets have different keys |
| `Keys.LocalNeverCollidesWithRemote` | controllers/leveltriggered/caching.go:115-119 | a key of the local cluster is never a key of a remote one |
| `Keys.ColonsCollide` | controllers/leveltriggered/caching.go:263-266 | without valid names two different targets can share a key |
| `Indexing.IndexTargets` | controllers/leveltriggered/indexing.go:73-114 | the loops produce one key for each target, in order, with the defaulted namespaces |
| `Indexing.IndexClusterKind` | controllers/leveltriggered/indexing.go:18-39 | the loops produce exactly the keys of the references of that kind |
| `Indexing.RequestsForCluster` | controllers/leveltriggered/indexing.go:43-65 | one request per listed pipeline, none when the listing fails |
| `Wakeups.IndexedViewDeterminesOutcome` | controllers/leveltriggered/controller.go:88-257 | worlds that agree on everything a pipeline is indexed under give the same statuses, conditions and promotion |
| `Wakeups.ChangedOutcomeWakes` | controllers/leveltriggered/caching.go:217-293 | any change that alters the outcome is to an object whose event enqueues the pipeline, or to a sync state |
| `Wakeups.ClusterEventEnqueuesIff` | controllers/leveltriggered/indexing.go:18-65 | an event on a cluster enqueues exactly the pipelines with a GitopsCluster reference that resolves to it |
| `Wakeups.ApplicationEventEnqueuesIff` | controllers/leveltriggered/caching.go:268-293 | an event on an application enqueues exactly the pipelines with a target that is that object, with the defaulted namespace |
| `Wakeups.NeverMissesIffCovered` | controllers/leveltriggered/indexing.go:18-114 | a well-formed pipeline misses no change exactly when its cluster references are indexed and its targets name their namespace |
| `Wakeups.SchemaImpliesCovered` | api/v1alpha1/reference_types.go:24-41 | references of kind GitopsCluster, as the schema enforces, and named namespaces, which it does not, are enough |
| `Wakeups.ReaderKeyIsIndexed` | controllers/leveltriggered/caching.go:311-314 | the key a reader is asked under is among the indexed cache keys of the pipeline |
| `Reconciler.Reconcile` | controllers/leveltriggered/controller.go:66-260 | the stored status, the way the call ends and the issued promotion are those of the specification, on every path |
| `Reconciler.RecordTarget` | controllers/leveltriggered/controller.go:95-168 | one target: the status recorded in place, whether it was unreadable, or that the call aborts |
| `Reconciler.SetTargetStatus` | controllers/leveltriggered/controller.go:375-405 | readiness and revision of the object recorded in place |
| `Reconciler.PromoteFirstLagging` | controllers/leveltriggered/controller.go:240-257 | the walk skips complete environments, and stops at the first other one |
| `Publication.PublishedStatusIsFaithful` | controllers/leveltriggered/controller.go:85-195 | one status per target in order; Ready exactly when the object's first Ready condition is True and it has a revision; the revision is the applied one of an object with a conditions list, ready or not; the error is that of the first step that failed; the pipeline's Ready condition is False exactly when an object was not read |
| `Publication.AbortsIff` | controllers/leveltriggered/controller.go:97-150 | a target aborts the call exactly when its cluster look-up fails other than by absence, or its cluster is readable and no reader can be got |
| `Publication.ReferenceDefaults` | controllers/leveltriggered/controller.go:407-416 | a reference without a namespace means that of the pipeline |
| `Publication.ReconcileDropsWaitingApprovals` | controllers/leveltriggered/controller.go:195 | publishing forgets what waited for approval |
| `Decision.PromotesTheLeastIncompleteEnvironment` | controllers/leveltriggered/controller.go:213-347 | at most one promotion, to the least environment not complete at the settled revision, exactly when no target there has it and the strategy can be called; the pending condition is stored exactly when env 0 is not settled |
| `Decision.PanicsIff` | controllers/leveltriggered/controller.go:213-300 | the call dereferences nil exactly when it publishes the status of a pipeline without environments, or is to promote an environment that has its own registered promotion while the pipeline has none |
| `Outcome.PromotesExactlyTheNext` | controllers/leveltriggered/controller.go:213-300 | in terms of objects: a promotion is issued exactly when the status can be stored, every object of the environments before is ready at the revision, no object of this one with a conditions list runs it, and the strategy can be called |
| `Outcome.StoresWhatObjectsShow` | controllers/leveltriggered/controller.go:170-233 | generation, Ready and pending conditions with reason and message are determined by the objects, other conditions stay; nothing is stored if the call does not publish |
| `Outcome.PublishedUnlessAborted` | controllers/leveltriggered/controller.go:91-168 | nothing is published exactly when some target aborts |
| `Outcome.FailsIff` | controllers/leveltriggered/controller.go:66-260 | the call fails exactly when it aborts, a status cannot be written, or the promotion of the next environment fails |
| `Rollout.RevisionsArriveInOrder` | controllers/leveltriggered/controller.go:213-257 | in every run, a non-initial revision in environment k was read before by one reconciliation on all targets, ready, of environments 0 to k-1, and was there when it was read |
| `Rollout.EveryDecisionIsWarranted` | controllers/leveltriggered/controller.go:236-257 | each decision that issues a revision for environment k read all targets of environments 0 to k-1 as ready at it, and no target of k at it |
| `Rollout.ReconciliationIsARun` | controllers/leveltriggered/controller.go:88-260 | any run can go on with a reconciliation that sees one world, read by read, and it issues what the reconciler issues there |
| `Rollout.PromotionIsRepeated` | controllers/leveltriggered/controller.go:276-297 | any run whose next reconciliation issues a promotion can go on with two that issue it, in an unchanged world |
| `Convergence.RoundCompletesOne` | controllers/leveltriggered/controller.go:236-259 | a reconciliation promotes exactly when an environment is incomplete, and completes one |
| `Convergence.RolloutConverges` | controllers/leveltriggered/controller.go:236-259 | with c incomplete environments, exactly the first c reconciliations promote, c is at most n-1, and everything is complete from then on and not before |
| `Gate.ManualEnvironmentsNeedRecordedRevision` | server/approval_handler.go:70-109 | in every interleaving with stale reads and write-backs, manual environments are promoted only by approval, of a non-empty revision recorded before for a matching event from the preceding environment |
| `Gate.StepKeepsInv` | server/promotion_handler.go:94-133 | each step of a request or write-back keeps every waiting revision, stored or in flight, a recorded one |
| `Consumption.EveryRunBalances` | server/approval_handler.go:70-156 | in every interleaving and prefix, for all revisions of an environment or one: recordings plus unbacked steps equal successes plus what waits plus dropping steps |
| `Consumption.ConsumedUnlessUnbacked` | server/approval_handler.go:70-156 | successes plus what waits never exceed recordings if each stored reset finds its revision waiting and no write-back makes one wait again; while nothing is dropped, only then |
| `Consumption.ExclusiveApprovalsAreConsumed` | server/approval_handler.go:70-156 | approvals that read the latest status and exclude other writes are consumed, if no write-back restores |
| `DoubleApprovals.OverlappingApprovalsBothSucceed` | server/approval_handler.go:70-114 | two overlapping approvals of one recording can both promote and succeed |
| `DoubleApprovals.StaleReadApprovesTwice` | server/approval_handler.go:70-114 | so can two that are served one after the other, if the second reads an old status |
| `DoubleApprovals.WriteBackApprovesTwice` | controllers/pipeline_controller.go:174-183 | so can two that read the latest status and find the revision waiting, with a stale write-back in between |
| `MergePatch.PatchReachesNext` | controllers/pipeline_controller.go:174-183 | without concurrent changes a patch stores what was sent |
| `MergePatch.PatchedLeafComesFrom` | controllers/pipeline_controller.go:174-183 | each leaf after a patch is the server's or the sender's |
| `MergePatch.PatchedLeaf` | controllers/pipeline_controller.go:174-183 | the server's leaf survives exactly where the sender's base and new status agree |
| `StatusCodec.StatusReadsBack` | api/v1alpha1/pipeline_types.go:131-200 | an encoded status decodes to itself |
| `StatusCodec.PatchedWaitingComesFrom` | controllers/pipeline_controller.go:159-183 | a waiting revision after a write-back was waiting on the server or in the stale status |
| `StatusCodec.PatchedWaiting` | controllers/pipeline_controller.go:159-183 | for any three statuses: the server's waiting revision survives exactly where the write-back has the same one before and after, or lacks the environment in both |
| `StatusCodec.PatchStoresNext` | controllers/pipeline_controller.go:174-183 | with nothing in between, the status that was sent is stored |
| `EdgeReconciler.Reconcile` | controllers/pipeline_controller.go:54-172 | the loops find the first problem in order, and the new status is the one specified |
| `EdgeReconciler.ReadyWhenAllClustersUsable` | controllers/pipeline_controller.go:68-136 | the written Ready condition is True exactly when every referenced cluster exists and is ready |
| `EdgeReconciler.ReportsFirstProblem` | controllers/pipeline_controller.go:68-128 | the first target whose cluster cannot be used decides: reason and message name its cause and cluster, and nothing is written if the look-up failed otherwise |
| `EdgeReconciler.ReportsSuccess` | controllers/pipeline_controller.go:130-138 | without a problem success is written; only generation and Ready condition change |
| `EdgeReconciler.WritesNothingIff` | controllers/pipeline_controller.go:54-118 | nothing is written exactly for a pipeline that is being deleted, or if the look-up of the first problem failed other than by absence |
| `EdgeReconciler.ReconcilersKeepOrDrop` | controllers/pipeline_controller.go:130-172 | both reconcilers write statuses that keep or drop waiting revisions |
| `Handlers.LookupNextEnvironment` | server/promotion_handler.go:193-220 | the scan returns the specified environment, or refuses |
| `Handlers.LookupNextIsNext` | server/promotion_handler.go:193-220 | it is the environment right after the first of that name, and the object belongs to the pipeline |
| `Serving.AcceptedIffApplication` | server/promotion_handler.go:193-220 | an event is accepted exactly when its object is the application the reconciler reads for a target of that environment, and the next one has targets |
| `Handlers.NamespaceInTargets` | server/promotion_server.go:216-223 | true exactly when a target names the namespace |
| `Handlers.Server.ServePromotion` | server/promotion_handler.go:85-158 | status and response of a promotion request |
| `Handlers.Server.ServeApproval` | server/approval_handler.go:70-156 | status and response of an approval request |
| `Serving.PromotionIsGated` | server/promotion_handler.go:112-148 | a manual environment is left waiting for the revision and no strategy is called; another one is promoted at once, and the status stays |
| `Serving.RefusedPromotion` | server/promotion_handler.go:94-117 | a request that cannot be carried out changes nothing, and is unprocessable exactly when its event is to blame |
| `Serving.ApprovalSucceedsIff` | server/approval_handler.go:70-156 | an approval succeeds exactly when the revision waits, the environment and its promotion exist, and all calls succeed; it resets that environment only, and without a success nothing changes |
| `Serving.CreatedIffLocated` | server/approval_handler.go:116-121 | a success is Created exactly when the strategy names a location |
| `Serving.ServingIsAPath` | server/approval_handler.go:70-156 | each request, with any outcome, takes the gate along a path to the status and with the log entries of its answer |
| `Serving.SerialRunIsAGateRun` | server/promotion_handler.go:94-148 | every serial run of requests is a run of the gate whose log counts its recordings and successes |
| `Handlers.SuccessfulApprovalWasRecorded` | server/approval_handler.go:70-114 | in every serial run, a successful approval is of the revision recorded last, no other approval has succeeded since, and nothing is left waiting |
| `Handlers.ApprovalsAreConsumed` | server/approval_handler.go:70-114 | in every serial run, successful approvals never exceed recordings, for each environment |
| `Api.GetPromotionIsOwnElseDefault` | api/v1alpha1/pipeline_types.go:60-68 | the environment's own promotion if it has one, otherwise the default |
| `Api.GroupVersionReads` | controllers/leveltriggered/controller.go:363-367 | group and version are read from both sides of one slash, a version alone has no group, and a second slash is an error |
| `Api.DescriptionReadsBack` | api/v1alpha1/reference_types.go:43-48 | a reference is rendered as its kind, its namespace if it has one, and its name |
| `ApprovalMap.Status.SetWaiting` | api/v1alpha1/pipeline_types.go:169-184 | on the heap: the waiting revision of one entry changes, its targets and every other entry stay |
| `ApprovalMap.Status.GetWaitingApproval` | api/v1alpha1/pipeline_types.go:146-153 | agrees with the map as values |
| `ApprovalMap.Status.RunCalls` | api/v1alpha1/pipeline_types.go:156-184 | any sequence of set and reset calls acts as on a plain map |
| `ApprovalMap.LastCallWins` | api/v1alpha1/pipeline_types.go:146-184 | what waits is what the last call for the environment set |
| `ApprovalMap.TargetsStay` | api/v1alpha1/pipeline_types.go:169-184 | no call changes a target list |
| `ApprovalMap.OtherEnvironmentsStay` | api/v1alpha1/pipeline_types.go:169-184 | calls for other environments leave the entry of an environment as it is |
| `Conditions.UntypedScanMatchesTyped` | pkg/conditions/util.go:13-39 | both scans agree on every encoded list, with junk entries anywhere |
| `Conditions.JunkAnywhereIsIgnored` | pkg/conditions/util.go:23-39 | an entry without a string type may be inserted anywhere |
| `Conditions.IsReadyMeansFirstReadyIsTrue` | pkg/conditions/util.go:13-21 | true exactly when the first Ready entry is True |
| `Conditions.SetKeepsOrder` | controllers/leveltriggered/controller.go:262-270 | setting a condition replaces it in its place, or puts a new kind at the end |
| `RateLimiter.Limiter.Hit` | pkg/ratelimiter/limiter.go:46-65 | counts the hit in the window of its key, opened if there is none, and accepts it up to the limit |
| `RateLimiter.Limiter.Sweep` | pkg/ratelimiter/limiter.go:70-79 | drops exactly the windows opened before the clock reading less the duration |
| `RateLimiter.WindowsOpenApart` | pkg/ratelimiter/limiter.go:70-79 | successive windows of a key are opened more than the duration apart |
| `RateLimiter.FixedWindowBound` | pkg/ratelimiter/limiter.go:46-81 | accepted hits of a key in any interval of width W are at most limit * (W / (duration + 1) + 2) |
| `RateLimiter.FewHitsAreAccepted` | pkg/ratelimiter/limiter.go:46-65 | up to the limit, every hit of a key is accepted |
| `RateLimiter.KeysAreIndependent` | pkg/ratelimiter/limiter.go:46-81 | hits of other keys change neither the window of a key nor what it is allowed |
| `RateLimiter.LimitPerIntervalHoldsUpToOne` | pkg/ratelimiter/limiter.go:11-21 | no interval of the configured duration exceeds the limit, exactly for limits up to one |
| `Retry.Exponential` | pkg/retry/exponential.go:27-71 | stops at the first success, acceptance or used-up retry, returns the last error, and sleeps as specified between calls |
| `Retry.CallsAreBounded` | pkg/retry/exponential.go:47-68 | the number of calls is determined, and at most max(1, retries) |
| `Retry.CallsUpToFirstSettled` | pkg/retry/exponential.go:47-68 | the calls end with the first that settles, or with max(1, retries) if none does |
| `Retry.SleepsArePowers` | pkg/retry/exponential.go:50-67 | the sleeps are the successive powers of the base, each cut off at the cap and truncated |
| `Retry.TruncatesTowardZero` | pkg/retry/exponential.go:68 | the number of seconds is truncated toward zero |
| `Retry.DefaultSleeps` | pkg/retry/exponential.go:28-32 | with base 2 and cap 30 the sleeps are 2, 4, 8, 16 and 30 seconds |
| `Retry.SleepsGrowUpToCap` | pkg/retry/exponential.go:50-53 | sleeps never get shorter and never exceed the cap |
| `Retry.TotalSleepBound` | pkg/retry/exponential.go:47-68 | n sleeps total at most n times the cap |
| `Commits.RewriteCommits` | internal/git/gitlab.go:82-108 | the loops send the deletions in front of the given commits; nothing is sent if a listing fails |
| `Commits.GetUpdatedFiles` | internal/git/gitprovider.go:85-118 | one deletion for each listed entry of a written path; an error exactly if a listing it needs fails |
| `Commits.DirIsDirectory` | internal/git/gitprovider.go:100 | the directory that is listed is the path up to its last slash |
| `Commits.WriteFilesToBranch` | internal/git/gitprovider.go:47-73 | succeeds exactly when every operation lands; otherwise the tree is the result of the commits before the first refused one |
| `Commits.RewritingKeepsFinalTree` | internal/git/gitlab.go:82-117 | the deletion commit never changes the final tree |
| `Commits.RewrittenIsAcceptedIff` | internal/git/gitlab.go:82-117 | accepted exactly when the operations on every path are acceptable |
| `Commits.UniquePathsAreAccepted` | internal/git/gitlab.go:82-117 | with each path in one entry at most, every write lands on an absent path |
| `Commits.OnlyDeletionsAreMadeIff` | internal/git/gitlab.go:82-117 | exactly when the deletions are made and the first given commit is refused, and that the written files are then gone |

## Left out

- Kubernetes client, informers, REST configuration and kubeconfig secrets: reads are answered by `World`; a failing
  secret or configuration is a `Fail` step of a call in `Caches`, and `ReaderFailed` in `World`.
- A list with a field selector is the index function applied to the stored pipelines; that the informer behind it may
  lag is not modelled.
- The work queue is modelled by its sets (dirty, queued, processing, delayed) after client-go; back-off times and
  shutdown are not, and a delayed key may fire at any time.
- Status conditions carry no transition times and no observed generation; setting and removing them follows
  apimachinery.
- The status patches of the level-triggered reconciler store the whole status in `Reconciler`; that they are merge
  patches too is modelled in `Gate`.
- `EdgeReconciler.Reconcile`: messages are not trimmed to their maximal length, because no property depends on it.
- HTTP plumbing, rate-limit middleware, signatures, JSON bodies and path matching: requests arrive parsed, with
  non-empty path segments.
- Pull-request and notification strategies, provider clients and URL parsing: a strategy is a call that succeeds or
  fails; a registry is a predicate.
- `Encode`: a status without environments has a nil map; an empty map that is not nil is not told apart from it.
- A nil entry in the status map makes `GetWaitingApproval` panic in the source; decoded maps have none.
- `Retry.Exponential`: powers are exact reals, so floating-point rounding and the range of durations are not modelled.
- `Commits.Branch.Create`: that GitLab refuses to create an existing file, to delete a missing one, and applies a
  commit as a whole is an assumption about the service, as is that a listing of a directory names each file below it
  once.
- Wall-clock times are integers (nanoseconds), read in the order in which the lock is taken.
