# Release store and build tooling, modelled

This project models the parts of the repository's `bootstrap` tooling whose
correctness spans several functions or whole runs, and proves what they keep.

- **Release store** (`StoreTypes`, `History`, `ReleaseStore`, `Reachability`,
  `GarbageCollector`, `PruneMeaning`, `StoreRuns`, `ReflogRuns`,
  `NeededHypotheses`): immutable generations linked by parent
  hashes, each with a per-server history merged from its parent's; channel heads
  with reflogs; snapshots, blobs and suppressions; the garbage collector. `Store`
  and `GarbageCollector` are classes over maps; `State` is the abstract value of
  a store, with a `lineage` that remembers every generation ever created.
- **Promotion and verification** (`Promotion`, `PromotionProperties`,
  `PromotionRuns`, `SnapshotOwners`, `Verifier`, `VerifierMeaning`, `VerifiedRuns`).
- **Publishing** (`ResourceManager`, `Publish`, `UploadEffects`,
  `PublishSafety`, `PublishRuns`, `PublishProgress`, `PublishOutcome`): the worker
  pool as interleaved atomic actions, the upload order, crash safety, runs of store
  operations and interrupted publishes, and when a publish succeeds.
- **CI graphs** (`NameOrder`, `Graphs`, `StepGraph`, `Affected`, `AffectedMeaning`): the code
  generation step graph and change resolution over arbitrary graphs.
- **Announcements** (`Announcements`, `AnnouncementProperties`,
  `AnnouncementRotation`, `AnnouncementBuilds`, `AnnouncementPages`,
  `AnnouncementPreflight`):
  overlay, rotation, summaries, structural preflight, and runs of publishes.
- **Resource rules** (`ResourceRules`, `ResourceCodegen`): the rule list, the
  Dart code compiled from it, and the stamp derived from it.
- **Versions** (`Text`, `Versions`, `Releases`, `ReleaseParsing`,
  `ReleaseIntent`): parsing, rendering, precedence, and the release-intent rules over runs of merges.
- **Build state** (`BuildState`, `BuildMeaning`): the memo of converted models.

`dafny verify dfyconfig.toml` checks everything.

## Hypotheses

Where a theorem needs something the code does not establish, it is a
precondition; where a lemma shows that it is needed, the lemma is named:

- A new generation's hash was never used. After a collision the old resources
  stay while the history is replaced; `VerifiedRuns.CollisionConsistentIff` says
  when the two still agree.
- A generation lists each server once, and only stored snapshots; it is created
  on the head of its channel. A child of a generation whose history was stripped
  starts from nothing; `VerifiedRuns.DescribesIffParentHistory` is the exact
  condition, and `NeededHypotheses.ForgetfulRun` a run that fails it.
- A push goes to a registered channel (`push` registers nothing), and pushed or
  reverted-to generations still have their history. An unregistered head dangles
  as `NeededHypotheses.UnregisteredHeadDanglesIff` says; what a head without a
  history loses is exactly what `NeededHypotheses.StrippedHeadKeepsIff` says.
  The documentation of `revert` says that the target must exist; the code does
  not check it, and the model follows the code.
- Commits list snapshots of the servers they are listed for; then promotions
  admit such snapshots only (`SnapshotOwners.OwnedAlways`). Otherwise an index
  entry takes the name of the snapshot's own server
  (`PromotionProperties.OverlaidPlaces`).
- Commits point at stored releases, for heads never to miss one.
- Timestamps do not decrease along a chain (eligibility), and `parse` stands for
  reading a timestamp.
- The publish diff is against the local parent, and a generation whose history
  was stripped uploads none. `UploadEffects.SkippedComplete` is the exact
  condition for a complete head, a remote parent with its history implies it,
  and `PublishRuns.NoHeadEverDangles` asks that generations be created on
  published parents. `PublishProgress` assumes that requests do not err when it
  says that a publish succeeds.
- Uuids of new announcement pages are unused, catalog uuids are distinct, and a
  page is filed under its uuid. Edited archived pages keep twenty ids; this is
  the exact condition of `AnnouncementBuilds.BuildWellFormedIff`. The
  documentation calls what rotation leaves active the remainder; in the
  newest-first list that is the oldest part.
- No rule that has a pattern has a static resolution, and ids start with the
  scheme, for the stamp to look at the rule that the client applies;
  `ResourceRules.SameRuleIff` is exact, `ResourceRules.StaticPatternDisagrees`
  is a counterexample.
- Step and package graphs declare every name they mention; package ids and task
  kind ids are distinct.
- Configurations keep I1 before and after each merge of a run.

## Model

| member | source | states |
|---|---|---|
| History.ServerIndexLookup | bootstrap/remote/models.py:311-318 | the loop over the server index yields, for every server, the build and version of its last entry, empty when unlisted |
| History.IndexHistory | bootstrap/remote/models.py:339-341 | the dictionary built from a history maps each server to its last entry, in order of first appearance |
| History.MergeEntry | bootstrap/remote/models.py:347-374 | one resources entry: a copy when the newest snapshot is the same, else a snapshot stamped with the new generation in front of the old ones |
| History.CarryForward | bootstrap/remote/models.py:376-382 | servers the generation does not list keep their snapshots, in dictionary order |
| History.MergeGenerationIntoHistory | bootstrap/remote/models.py:321-384 | the whole merge method computes the merged history, for histories and resources of any shape |
| History.MergedLookup | bootstrap/remote/models.py:347-382 | server by server, the merge keeps, prepends or carries forward |
| History.MergeDescribes | bootstrap/remote/models.py:321-384 | the incremental merge refines the whole-chain reading: if a history describes a chain of generations, the merged one describes the chain with the new generation in front |
| History.MergeStamps | bootstrap/remote/models.py:347-382 | a listed server whose newest snapshot is another one gets the listed one in front, with hash and time of the generation and the build and version of its last index entry, or empty without one; every other server keeps its snapshots |
| History.RunsStamped | bootstrap/remote/models.py:357-370 | every entry of a history was opened by a generation of the chain that lists its snapshot, and carries the hash, time, build and version of that generation |
| History.LookupIsLast | bootstrap/remote/models.py:339-341 | when a history repeats a server its last entry counts |
| History.MergedOrder | bootstrap/remote/models.py:345-382 | a merged history has the servers of the resources in their order, then all other old servers in order of first appearance |
| History.OpenersAlternate | bootstrap/remote/models.py:357-374 | consecutive entries of a history never have the same snapshot |
| History.OpenersKeepHashes | bootstrap/remote/models.py:357-374 | collapsing equal consecutive snapshots loses none of them |
| History.NewestOpensCurrentRun | bootstrap/remote/models.py:357-370 | the newest entry of a server is the oldest carrier of its current uninterrupted run |
| History.RunsHashes | bootstrap/remote/generation.py:77-87 | a history records a snapshot for a server exactly when some generation of the chain listed it |
| ReleaseStore.Store.EnsureChannel | bootstrap/remote/head.py:53-86 | registers a channel with an empty head and reflog, and leaves an existing one alone |
| ReleaseStore.Store.AppendReflog | bootstrap/remote/models.py:474-486 | one entry is added at the end of the channel reflog |
| ReleaseStore.Store.Push | bootstrap/remote/head.py:104-115 | the reflog gains an entry from the old head to the target, then the head is the target; no registration |
| ReleaseStore.Store.Revert | bootstrap/remote/head.py:117-129 | fails without head metadata, otherwise moves the head like a push; the target is not checked |
| ReleaseStore.Store.CreateGeneration | bootstrap/remote/generation.py:51-99 | a new hash gets a directory and the history merged from its parent; an existing one keeps its files but gets the new history |
| ReleaseStore.Store.Commit | bootstrap/cli/remote/session.py:1425-1531 | register, create on the current head, push: the store afterwards, or nothing when the head generation is missing |
| ReleaseStore.Store.SaveSuppressions | bootstrap/remote/head.py:152-155 | replaces the suppression list of one channel |
| ReleaseStore.Store.CreateResourceSnapshot | bootstrap/remote/snapshot.py:108-147 | a snapshot that already exists is left as it is |
| GarbageCollection.GarbageCollector.WalkParentChain | bootstrap/remote/generation.py:119-130 | the walk, cut off by a repetition or a generation that cannot be loaded, terminates and yields the chain |
| Reachability.WalkDistinct | bootstrap/remote/generation.py:119-130 | the walk yields each loadable generation at most once, starting with the given one |
| GarbageCollection.GarbageCollector.CollectResourceBlobs | bootstrap/remote/gc.py:136-148 | adds exactly the blobs of a stored snapshot index |
| GarbageCollection.GarbageCollector.CollectRetainedGenerations | bootstrap/remote/gc.py:87-97 | adds the newest depth + 1 generations of the chain and their release snapshots |
| GarbageCollection.GarbageCollector.CollectFullChain | bootstrap/remote/gc.py:99-114 | adds everything the whole parent chain refers to |
| GarbageCollection.GarbageCollector.CollectForHead | bootstrap/remote/gc.py:66-85 | adds the reach of a head: by its history when it has one, else by the whole chain |
| GarbageCollection.GarbageCollector.CollectReachable | bootstrap/remote/gc.py:51-64 | the collected set is the union of the reaches of the registered heads |
| GarbageCollection.GarbageCollector.HeadHashes | bootstrap/remote/gc.py:124-134 | the generations that registered channels point at |
| GarbageCollection.GarbageCollector.PruneGenerations | bootstrap/remote/gc.py:187-208 | deletes, with their histories, the generations outside the set, or only names them |
| GarbageCollection.GarbageCollector.PruneResourceSnapshots | bootstrap/remote/gc.py:187-208 | deletes the resource snapshots outside the set, or only names them |
| GarbageCollection.GarbageCollector.PruneReleaseSnapshots | bootstrap/remote/gc.py:187-208 | deletes the release snapshots outside the set, or only names them |
| GarbageCollection.GarbageCollector.PruneBlobs | bootstrap/remote/gc.py:210-252 | deletes the blobs outside the set, or only names them |
| GarbageCollection.GarbageCollector.StripNonheadHistory | bootstrap/remote/gc.py:168-185 | deletes the histories of retained generations that are no head, and names those that had one |
| GarbageCollection.GarbageCollector.Prune | bootstrap/remote/gc.py:150-166 | a prune changes the store to the pruned one and names what it deleted; a dry run names the same and changes nothing |
| Reachability.PruneIsExact | bootstrap/remote/gc.py:150-252 | what remains is the store intersected with the reachable set, and of the histories exactly those of live heads |
| Reachability.ReachableUnchanged | bootstrap/remote/gc.py:51-114 | pruning and stripping change neither the live heads nor what they reach |
| Reachability.PruneIdempotent | bootstrap/remote/gc.py:150-185 | a second prune deletes nothing |
| Reachability.RetentionBound | bootstrap/remote/gc.py:87-97 | a head with a history retains itself and at most depth ancestors |
| PruneMeaning.ChainFollows | bootstrap/remote/generation.py:119-130 | the parent chain starts at the head, goes on with parents, repeats nothing, and ends only where the parent is missing, not loadable or met before |
| PruneMeaning.KeptGenerations | bootstrap/remote/gc.py:87-114 | a generation stays exactly when it is in the parent chain of the head of a registered channel, within depth ancestors when the head has a history |
| PruneMeaning.KeptReleases | bootstrap/remote/gc.py:87-106 | a stored release stays exactly when such a retained generation points at it |
| PruneMeaning.KeptSnapshots | bootstrap/remote/gc.py:66-114 | a stored snapshot stays exactly when the history of a head records it, or a generation in the chain of a head without a history lists it |
| PruneMeaning.KeptBlobs | bootstrap/remote/gc.py:136-148 | a stored blob stays exactly when the index of a snapshot that stays names it |
| PruneMeaning.KeptHistories | bootstrap/remote/gc.py:168-185 | a stored history stays exactly when its generation is a head; channels, heads, reflogs and suppressions stay as they are |
| StoreRuns.StepKeeps | bootstrap/remote/generation.py:51-99 | every operation keeps the invariant: generations as created, histories complete over all ancestors ever created, their snapshots stored, heads with a history, reflogs connected |
| StoreRuns.RunKeeps | bootstrap/remote/head.py:104-129 | the invariant holds after every run of operations |
| StoreRuns.WholeRun | bootstrap/remote/gc.py:66-97 | after any run from an empty store each registered head is loadable and as created, its history lists exactly the runs along the full ancestor chain ever created, pruned or not, and all its snapshots are stored |
| StoreRuns.LineageStable | bootstrap/remote/generation.py:91-97 | along a run nothing that was created ever changes |
| StoreRuns.BlobsStay | bootstrap/remote/gc.py:73-80 | while some head records a snapshot, the snapshot and every stored blob of its index stay stored, whatever is pruned |
| PruneMeaning.ReleasesStay | bootstrap/remote/gc.py:87-97 | as long as some head points at a stored release, it stays stored as it is, whatever is pruned |
| PruneMeaning.HeadReleasesStored | bootstrap/remote/gc.py:87-97 | along every run whose commits point at stored releases, no head points at a missing one |
| ReflogRuns.StepLogs | bootstrap/remote/head.py:104-129 | which entry a step adds to the reflog of a channel, with old head, new head, operation and time, and that no head moves without one |
| ReflogRuns.ReflogsGrow | bootstrap/remote/models.py:474-486 | along a run reflogs are append-only, and a head that moved has new entries |
| ReflogRuns.RegistryGrows | bootstrap/remote/head.py:53-86 | along a run no channel is unregistered, listed twice or moved in the registry |
| VerifiedRuns.HistoryRootIsFullChain | bootstrap/remote/gc.py:66-114 | rooting in the head history reaches exactly the snapshots and blobs that the full parent walk reaches, when the chain is loadable |
| VerifiedRuns.DescribesIffParentHistory | bootstrap/remote/generation.py:152-160 | a new generation describes its whole chain exactly when its parent still has its history, or no ancestor listed anything |
| VerifiedRuns.CollisionConsistentIff | bootstrap/remote/generation.py:91-97 | after a hash collision the verifier finds stored resources and new history consistent exactly when every server the stored version lists has the same snapshot in the new one, or is omitted there and has it as the newest in the history of the parent |
| Verification.VerifyHeadIntegrity | bootstrap/remote/verify.py:157-236 | the loop reports exactly the head issues: no metadata, uninitialized, missing generation, reflog that ends elsewhere |
| Verification.VerifyHistoryConsistency | bootstrap/remote/verify.py:410-482 | the loop reports exactly the disagreements between histories and resources |
| Verification.VerifyHistoryReachability | bootstrap/remote/verify.py:486-558 | the loop reports exactly the unloadable heads, missing histories and lost snapshots |
| VerifiedRuns.HeadErrorsMean | bootstrap/remote/verify.py:157-236 | no head error exactly when every registered channel has metadata, and its head points nowhere or at a stored generation that ends its reflog if there is one |
| VerifiedRuns.VerifierFindsNothing | bootstrap/remote/verify.py:157-236 | on every run the verifier finds no error and no history warning, only channels without a head, and every reflog is a connected path from the empty hash to the head |
| VerifierMeaning.HeadIssuesAre | bootstrap/remote/verify.py:157-236 | exactly which head issues are reported, for any store |
| VerifierMeaning.HistoryIssuesAre | bootstrap/remote/verify.py:410-482 | exactly which disagreements between histories and resources are reported |
| VerifierMeaning.ReachIssuesAre | bootstrap/remote/verify.py:486-558 | exactly which missing heads, missing histories and lost snapshots are reported |
| VerifierMeaning.ReachErrorsMean | bootstrap/remote/verify.py:486-558 | the reachability check has an error exactly when a registered channel has no metadata, or a snapshot that the history of a head records is not stored; heads without a history are warnings |
| Promotion.ValidSourceCheckouts | bootstrap/remote/promote.py:240-254 | the pairs a source generation vouches for: its resources and its history |
| Promotion.SortCandidates | bootstrap/remote/promote.py:163-170 | each candidate is idempotent, suppressed or admitted, in that order of tests |
| Promotion.OverlayResources | bootstrap/remote/promote.py:299-319 | parent entries in place with their admitted checkouts, then the new servers |
| Promotion.OverlayServerIndex | bootstrap/remote/promote.py:257-296 | fails when an admitted snapshot is missing, else rebuilds the admitted servers entries from the snapshot metadata |
| Promotion.Promote | bootstrap/remote/promote.py:97-201 | the outcome, every refusal in order, and the whole new store of a promotion |
| PromotionProperties.AdmittedExactly | bootstrap/remote/promote.py:159-170 | a candidate is admitted exactly when it changes the target and is not suppressed, unless suppressions are overridden |
| PromotionProperties.OverlayIsOverride | bootstrap/remote/promote.py:299-319 | the new resources are the map override of the parent by the admitted pairs |
| PromotionProperties.OverlaidIndexLookup | bootstrap/remote/promote.py:257-277 | the overlaid index describes admitted servers by their snapshot and all others as before |
| PromotionProperties.OverlaidPlaces | bootstrap/remote/promote.py:257-277 | the entries of the parent index keep their place: the last one of an admitted server is rebuilt from the snapshot, the others stay |
| PromotionProperties.PromotedIndex | bootstrap/remote/promote.py:257-296 | in the index of the generation that a promotion creates, the last entry of an admitted server has every field of its snapshot metadata, that of every other server is the one of the parent, and no other server is in it |
| SnapshotOwners.OwnedAlways | bootstrap/remote/promote.py:240-296 | along every run whose commits list snapshots of the server they are listed for, so does every history, and every promotion admits such snapshots only |
| PromotionProperties.RefusedUnless | bootstrap/remote/promote.py:114-150 | a promotion is refused unless the source head is stored and its resources or history have every candidate, the target head is stored, or missing and allowed to be, and the admitted snapshots are stored; unknown candidates are named exactly |
| PromotionProperties.RefusalMeans | bootstrap/remote/promote.py:114-150 | why a promotion is refused: the first condition that fails |
| PromotionProperties.ReportKeepsOrder | bootstrap/remote/promote.py:163-170 | the reported pairs come in the order in which the candidates were given |
| PromotionProperties.ReportSorts | bootstrap/remote/promote.py:163-170 | the reported pairs: those the target has, those vetoed, and the rest |
| PromotionProperties.PromotionOverrides | bootstrap/remote/promote.py:176-197 | after a promotion the target head overrides its parent by the admitted pairs, inherits the release pointer and has the metadata of the promotion |
| PromotionProperties.PromoteTwice | bootstrap/remote/promote.py:163-174 | repeating a promotion admits nothing and changes nothing |
| PromotionProperties.ComputePromotionEligibility | bootstrap/remote/promote.py:70-94 | the method selects exactly the servers whose newest history entry is the head snapshot and old enough |
| PromotionProperties.NewestRunOpener | bootstrap/remote/models.py:357-370 | the newest history entry was opened by the oldest generation since which the snapshot was carried without interruption |
| PromotionProperties.EligibleIffSoaked | bootstrap/remote/promote.py:78-93 | with ordered timestamps a server is eligible exactly when its head snapshot was carried without interruption since a generation no younger than the cutoff |
| PromotionProperties.ClockRule | bootstrap/remote/models.py:357-370 | republishing the same snapshot keeps the clock, changing away and back restarts it |
| PromotionRuns.StableWithinTesting | bootstrap/remote/promote.py:125-135 | along any run that fills stable by promotion from testing and moves testing, by commits, promotions, pushes or reverts, to descendants only, every checkout of the history of stable is in the history of testing |
| ResourceManagement.ResourceManager.Register | bootstrap/remote/resource_manager.py:81-91 | first locked section: count the call, and tell the first caller of a path |
| ResourceManagement.ResourceManager.CountHandled | bootstrap/remote/resource_manager.py:93-107 | second locked section: existing counts twice, uploaded once |
| ResourceManagement.InterleaveKeeps | bootstrap/remote/resource_manager.py:81-107 | every interleaving of workers keeps: one owner per path, checked before uploaded, counters equal to the tasks that passed them |
| ResourceManagement.EachPathOnce | bootstrap/remote/resource_manager.py:81-107 | under any interleaving processing a path sends at most one existence request and one upload, none if it was there; all other requests are for tasks that require a blob missing locally, one each |
| ResourceManagement.ChecksAtQuiescence | bootstrap/remote/publish.py:340-356 | when all tasks came to an end, failed or not, the existence requests for a path are exactly one for its processing and one for each task that requires it |
| ResourceManagement.AtQuiescence | bootstrap/remote/resource_manager.py:81-136 | when all tasks succeeded every blob is remote, the requests for each path are as many as they must be, the uploaded counter and the unique count equal the distinct processed paths, the registered count equals the calls, and existing counts those found |
| ResourceManagement.SucceedsIff | bootstrap/remote/resource_manager.py:81-107 | when no request errs and every task ends, the workers succeed exactly when every blob missing locally is on the remote, whatever the interleaving |
| ResourceManagement.CanFinish | bootstrap/remote/resource_manager.py:81-107 | no interleaving blocks: as long as no task failed, all tasks can still succeed |
| Publishing.EnumerateIndex | bootstrap/remote/publish.py:334-356 | one task per index entry: process a local blob, require a missing one remotely |
| Publishing.EnumerateResourceBlobs | bootstrap/remote/publish.py:296-357 | each changed listed snapshot once, with its tasks, failing at the first that is not stored |
| Publishing.EnumerateReleaseBlobs | bootstrap/remote/publish.py:359-422 | the release tasks, failing when its snapshot is not stored |
| Publishing.CountUniqueBlobs | bootstrap/remote/publish.py:424-480 | the precomputed total equals the number of distinct paths the plan processes |
| Publishing.Bucket.UploadDirectories | bootstrap/remote/publish.py:210-219 | snapshot directories, release directory, generation directory, head directory, registry, in this order and by file name within each |
| Publishing.Bucket.PublishAllForHead | bootstrap/remote/publish.py:171-219 | the whole publish: blobs under any schedule, then the directories; nothing after a failed task or a missing snapshot |
| PublishSafety.BlobPhaseSafe | bootstrap/remote/publish.py:186-207 | wherever the workers stop, no remote head dangles |
| PublishSafety.CrashSafe | bootstrap/remote/publish.py:171-219 | after every prefix of the upload sequence, under any interleaving of the blob uploads, every remote head points at a generation whose four client files and metadata, listed and recorded snapshots, indexes and blobs are all there, if what the publish skips was complete |
| PublishSafety.CompleteIffSkippedComplete | bootstrap/remote/publish.py:243-277 | a finished publish leaves its generation complete exactly when its history is stored locally or already remote, and every listed or recorded snapshot and the release that it skipped were complete |
| PublishSafety.PlanRequests | bootstrap/remote/publish.py:340-356 | in a publish a local blob is checked and uploaded at most once; a blob missing locally is never uploaded and is asked for once by each entry that names it |
| PublishRuns.RecordedOrListed | bootstrap/remote/models.py:347-382 | a history that describes a chain records only what its newest generation lists and what the history of the parent records |
| PublishRuns.MirroredParentSuffices | bootstrap/remote/publish.py:243-277 | a parent that the remote mirrors, pruned locally or not, covers all listed and recorded snapshots and the release that are skipped |
| PublishRuns.StopKeeps | bootstrap/remote/publish.py:171-219 | wherever a publish of a head with a mirrored parent stops, no head dangles and the remote mirrors all it mirrored |
| PublishRuns.PublishMirrors | bootstrap/remote/publish.py:171-219 | a publish without error makes the remote mirror its head: same resources and release, and a history that describes the full ancestor chain |
| PublishRuns.FinishedPublishMirrors | bootstrap/remote/publish.py:171-219 | in a safe deployment a publish without error makes its head one that generations may be created on |
| PublishRuns.PublishRunKeeps | bootstrap/remote/publish.py:171-219 | the invariant of runs of store operations and of publishes that stop anywhere and are retried, when new generations are created on published parents |
| PublishRuns.NoHeadEverDangles | bootstrap/remote/publish.py:171-219 | in every state of such a run from an empty store and remote, no remote head dangles |
| PublishOutcome.PublishedFiles | bootstrap/remote/publish.py:139-219 | after a publish without error every file of the remote is what the store has for it, if it is of a new snapshot or release, of the generation, of the head of the channel or the registry, and otherwise as it was |
| PublishOutcome.PublishedBlobs | bootstrap/remote/publish.py:296-422 | its blobs are those that were there and those that the indexes of new snapshots and of a new release name |
| PublishOutcome.PlanListsOnce | bootstrap/remote/publish.py:296-340 | a plan has each of its snapshots once, in the order in which the resources first list them |
| PublishOutcome.NothingPublished | bootstrap/remote/publish.py:171-207 | a publish that reports an error, or has no head, leaves every file as it was |
| PublishProgress.PublishSucceedsIff | bootstrap/remote/publish.py:171-219 | when no request errs and the workers end, a publish of a head succeeds, under every interleaving, exactly when each blob of the changed snapshots is stored locally or remote, and so with a changed release, which must be stored |
| PublishProgress.PublishCanSucceedIff | bootstrap/remote/publish.py:171-219 | some publish of a head succeeds exactly under that condition |
| PublishProgress.RetriesCanSucceed | bootstrap/remote/publish.py:171-219 | after any number of publishes, of this and other heads, interrupted anywhere, a retry can still succeed and makes the head one to build on, if the first try could |
| NeededHypotheses.UnregisteredHeadProtectsNothing | bootstrap/remote/gc.py:51-64 | a push to an unregistered channel changes nothing about what a prune deletes |
| NeededHypotheses.UnregisteredHeadDanglesIff | bootstrap/remote/head.py:104-115 | after such a push and a prune the head dangles exactly when no registered head keeps the generation |
| NeededHypotheses.StrippedHeadKeepsIff | bootstrap/remote/gc.py:66-114 | after a revert to a stored generation without a history, a prune keeps a snapshot exactly when the loadable chain lists it or another head reaches it |
| NeededHypotheses.CommitOnStripped | bootstrap/remote/head.py:117-129 | after prune, revert to the parent of the head and commit, the new history describes its chain exactly when no ancestor listed anything |
| NeededHypotheses.ForgetfulRun | bootstrap/remote/gc.py:168-185 | a concrete run of two commits, a prune, a revert and a commit whose head has a history that forgot its ancestors |
| Graphs.Close | bootstrap/ci/codegen.py:433-440 | the worklist returns exactly the names reached from the requested ones, over any declared graph with cycles |
| Graphs.ClosureIsReached | bootstrap/ci/resolve.py:96-104 | the least set closed under edges is the set reached by paths |
| Graphs.ReachesBackwards | bootstrap/ci/resolve.py:70-77 | a reaches b along edges exactly when b reaches a against them |
| Graphs.ClosureAdditive | bootstrap/ci/resolve.py:96-104 | closing a union is closing each part |
| StepGraph.Resolver.Visit | bootstrap/ci/codegen.py:446-456 | the recursive visit with its visiting and visited sets and ordered list computes the depth-first order or reports a cycle |
| StepGraph.ResolveSteps | bootstrap/ci/codegen.py:426-460 | the method returns a list that depends on the set of requested steps only, whatever their order or repetition |
| StepGraph.ResolveMeets | bootstrap/ci/codegen.py:426-460 | the result holds each step of the transitive closure once and every requirement before its dependents; it is circular exactly when the closure has a cycle, unknown exactly for undeclared names |
| StepGraph.ResolveStable | bootstrap/ci/codegen.py:426-460 | any request between the original and its result gives the same list; resolving a result changes nothing |
| StepGraph.BlocksByName | bootstrap/ci/codegen.py:442-460 | of the possible orders, the one in which whatever the first needed names, in name order, require comes before everything else |
| StepGraph.StepsForPackages | bootstrap/ci/codegen.py:468-494 | the steps for packages are the resolved union over their dependency closure |
| StepGraph.PackagesMeet | bootstrap/ci/codegen.py:468-494 | packages resolve to exactly the steps that they or their transitive dependencies ask for, with all that those require, each once and after its requirements; undeclared names are refused |
| StepGraph.PackagesAdditive | bootstrap/ci/codegen.py:482-494 | packages together need the steps they need apart |
| Affected.MatchPackageLoop | bootstrap/ci/resolve.py:83-91 | the loop keeps the deepest containing package, the first of equals |
| Affected.MatchPackageDeepest | bootstrap/ci/resolve.py:83-91 | no package that contains the file lies deeper than the match |
| Affected.DependentsMap | bootstrap/ci/resolve.py:70-77 | fails on an undeclared dependency, else is the reversed dependency graph |
| Affected.HitBy | bootstrap/ci/resolve.py:145-154 | the blast-radius entries of one file, or escalation |
| Affected.CloseOverDependents | bootstrap/ci/resolve.py:165-172 | the worklist returns exactly what the changed packages reach against dependencies |
| Affected.ResolveFiles | bootstrap/ci/resolve.py:138-180 | the whole resolution of a change set |
| Affected.AffectedIffDependsOnChanged | bootstrap/ci/resolve.py:163-172 | a package is affected exactly when its dependency closure meets the directly changed set |
| AffectedMeaning.EscalatesIff | bootstrap/ci/resolve.py:145-152 | a resolution escalates exactly when some trimmed file matches a pattern and no exception of an entry that stands for everything |
| AffectedMeaning.AffectedIff | bootstrap/ci/resolve.py:145-172 | else a package is affected exactly when something it transitively depends on, or it itself, is the deepest package that holds a file, or is named, or its ecosystem is, by an entry the file matches |
| AffectedMeaning.StandaloneIff | bootstrap/ci/resolve.py:159-161 | a standalone kind is selected exactly when a file matches one of its triggers |
| AffectedMeaning.NormalizedMeans | bootstrap/ci/resolve.py:140-140 | the files are the trimmed names, none empty, each once, in order of first appearance |
| AffectedMeaning.ResolutionMeans | bootstrap/ci/resolve.py:121-135 | an escalation selects every package and standalone kind; the instances are those of what is selected |
| AffectedMeaning.InstancesAre | bootstrap/ci/catalog.py:307-324 | an instance is a dedicated task for each large package a kind applies to, one batch of all its small ones in name order, or a selected standalone kind, and all of them are there |
| AffectedMeaning.InstancesInOrder | bootstrap/ci/catalog.py:307-324 | kind by kind, the dedicated tasks of a kind by package name before its batch, and the standalone tasks last, by name |
| Affected.SameFilesSameWork | bootstrap/ci/resolve.py:140-180 | order and repetition of the files do not matter |
| Affected.ResolveAdditive | bootstrap/ci/resolve.py:138-180 | two change sets together affect what either affects, and escalate exactly when one does |
| Affected.Instantiate | bootstrap/ci/catalog.py:307-324 | the instances: dedicated, batched and standalone |
| Affected.CoveredExactlyOnce | bootstrap/ci/catalog.py:307-324 | each affected package is covered by exactly one instance of each applicable kind, and no other package by any |
| Announcements.AnnouncementWorkspace.OverlayUpsertEntry | bootstrap/docs/announcements_remote.py:194-202 | on an overlay with one change per page and entry, the page entry afterwards is the new one, every other entry and page stays, and the overlay keeps one change each |
| Announcements.UpsertMeans | bootstrap/docs/announcements_remote.py:194-202 | as a map override: with the edit the page maps the entry id to the new entry and everything else as before |
| Announcements.RemoveMeans | bootstrap/docs/announcements_remote.py:204-217 | as a map override: an entry edited this session is again what the remote has, any other is gone, all else as before |
| Announcements.AnnouncementWorkspace.OverlayRemoveEntry | bootstrap/docs/announcements_remote.py:204-217 | an edit of this session is undone, anything else leaves the page; every other entry and page stays |
| Announcements.AnnouncementWorkspace.GetEffectiveEntryIds | bootstrap/docs/announcements_remote.py:219-246 | the ids of the remote page with the overlay applied |
| Announcements.ApplyToArchived | bootstrap/docs/announcements_remote.py:348-374 | edited archived pages and their catalog summaries, in any order of the overlay |
| Announcements.Rotate | bootstrap/docs/announcements_remote.py:389-435 | chunking, archiving and the new active page |
| Announcements.AnnouncementWorkspace.BuildPublishWorkspace | bootstrap/docs/announcements_remote.py:326-448 | the whole construction, with its two failures |
| AnnouncementProperties.OverlaidLists | bootstrap/docs/announcements_remote.py:356-364 | applying changes to a page is overriding its entries by id, newest first, each id once |
| AnnouncementProperties.NewestFirstSorts | bootstrap/docs/announcements_remote.py:387-387 | the order is descending by time and stable, and a permutation |
| AnnouncementProperties.OverlaidIds | bootstrap/docs/announcements_remote.py:238-246 | the effective ids are those of the overlaid page, and their number is its size |
| AnnouncementProperties.EditsStayOk | bootstrap/docs/announcements_remote.py:194-217 | every overlay that edits and removals reach has one change per page and entry |
| AnnouncementProperties.UpsertTakesEffect | bootstrap/docs/announcements_remote.py:194-202 | after any edits and removals, one more edit adds its id to the effective ids of its page and changes no other page |
| AnnouncementProperties.RemoveTakesEffectIff | bootstrap/docs/announcements_remote.py:204-217 | after any edits and removals, a removal takes effect unless the entry is remote and was edited this session; then only the edit is undone |
| AnnouncementBuilds.EffectiveIdsHold | bootstrap/docs/announcements_remote.py:219-246 | the effective ids match the page before rotation, active or archived |
| AnnouncementBuilds.BuildWellFormedIff | bootstrap/docs/announcements_remote.py:326-448 | from a well-formed remote the built workspace has one active page below twenty entries, archived pages of exactly twenty, correct counts and distinct ids, exactly when every edited archived page keeps twenty ids |
| AnnouncementBuilds.EditsKeepTwenty | bootstrap/docs/announcements_remote.py:349-364 | an overlay that only edits existing archived ids meets that condition |
| AnnouncementBuilds.BuildConserves | bootstrap/docs/announcements_remote.py:326-448 | all pages together hold exactly the overlaid entries, wherever rotation put them |
| AnnouncementPages.BuiltPages | bootstrap/docs/announcements_remote.py:348-435 | a build shows every archived page with its changes, newest first; below twenty entries the active page likewise, in place; from twenty on in new archived pages of twenty from the newest and a new active page, after the other pages in the catalog |
| AnnouncementPages.BuildFailsIff | bootstrap/docs/announcements_remote.py:340-346 | a build fails exactly when the catalog has no active page or there is no file for it |
| AnnouncementPages.TiesKeepOrder | bootstrap/docs/announcements_remote.py:356-385 | entries that end up with the same time keep the order they had on the page |
| AnnouncementPages.AddedFollow | bootstrap/docs/announcements_remote.py:356-385 | an entry added in the session follows those of its time that the page had |
| AnnouncementBuilds.RotationLeavesOldest | bootstrap/docs/announcements_remote.py:387-435 | what stays active is the last, oldest, part of the newest-first list |
| AnnouncementPreflight.SummaryBounds | bootstrap/docs/announcements_remote.py:547-562 | a summary has exactly the channels of its entries, in order, and the first of their least minimum versions or 0.0.0 |
| AnnouncementPreflight.VersionKeyIsPrecedence | bootstrap/docs/announcements_remote.py:530-544 | the version key of the announcements is an order as the summaries need |
| AnnouncementPreflight.BuildSummarises | bootstrap/docs/announcements_remote.py:368-475 | from any well-formed remote every page a build rewrites, edited, rotated or active, is summarised by its catalog entry and every other page is as it was |
| AnnouncementPreflight.RewrittenAreBounded | bootstrap/docs/announcements_remote.py:450-475 | the catalog entry of every rewritten page has exactly the channels of the entries it holds, and the least of their minimum versions or 0.0.0 |
| AnnouncementPreflight.PublishesSummarise | bootstrap/docs/announcements_remote.py:450-475 | each publish of a run summarises what it rewrites, and a remote without stale summaries never gets one |
| AnnouncementPreflight.RunPreflight | bootstrap/docs/announcements_remote.py:602-670 | the structural checks in order |
| AnnouncementPreflight.PreflightPassesIff | bootstrap/docs/announcements_remote.py:602-670 | the structural checks pass exactly one active page of at most twenty entries, full archived pages and no id twice in a page |
| AnnouncementPreflight.StructuralIssuesAre | bootstrap/docs/announcements_remote.py:602-670 | exactly what the structural checks report, for any workspace: the number of active pages unless one, missing or wrongly sized archived pages, a missing or oversized active file, unreadable pages, repeated ids |
| AnnouncementPreflight.PublishesKeep | bootstrap/docs/announcements_remote.py:326-475 | however often workspaces are published, the remote stays well-formed |
| AnnouncementPreflight.PublishesPass | bootstrap/docs/announcements_remote.py:602-670 | and every one of them passes the structural checks |
| AnnouncementPreflight.PublishesConserve | bootstrap/docs/announcements_remote.py:326-475 | each publish of a run holds exactly the entries its overlay makes of the remote before it |
| ResourceRules.SplitsBack | bootstrap/resolution.py:237-241 | a pattern is its head, placeholder and tail, split at the first placeholder |
| ResourceRules.OnePlaceholderIff | bootstrap/resolution.py:206-216 | a pattern has exactly one placeholder exactly when braces with text between them stand in one place only |
| ResourceRules.SameRuleIff | bootstrap/resolution.py:244-285 | the stamp looks at the rule the client applies exactly when the id is in the scheme and that rule is no static pattern for another id |
| ResourceRules.StampIff | bootstrap/resolution.py:259-285 | what can be excluded is stamped FORCE; what can be lazy and never excluded is stamped NON_FORCE; the converse with its one exception |
| ResourceRules.StaticPatternDisagrees | bootstrap/resolution.py:244-256 | a valid specification with a static pattern whose stamp and client disagree |
| ResourceCodegen.EscapeReadsBack | bootstrap/data/codegen/resource_resolution.py:92-94 | an escaped literal reads back as itself exactly when it has no line break |
| ResourceCodegen.PatternReads | bootstrap/data/codegen/resource_resolution.py:136-140 | the literal compiled from a pattern reads as the substituted id |
| ResourceCodegen.ResolveFunction | bootstrap/data/codegen/resource_resolution.py:174-205 | the loop appends the statements of every rule in order |
| ResourceCodegen.CompiledMeansRules | bootstrap/data/codegen/resource_resolution.py:128-205 | running the compiled if-chain gives the first-match meaning of the rules, for every id, index and context |
| ResourceCodegen.CompilesIffOneLine | bootstrap/data/codegen/resource_resolution.py:92-94 | the generated function compiles exactly when no literal has a line break |
| Versions.KeysAgree | bootstrap/config.py:150-174 | the two precedence keys order all versions with three numbers and no empty prerelease alike |
| Versions.RanksBySection11 | bootstrap/config.py:150-174 | the precedence of section 11 of SemVer 2.0.0: the core by its first difference, a prerelease below its release, then the first differing identifier, numbers below words, a prefix below its extension |
| Versions.VersionBeforeIsPrecedence | bootstrap/docs/announcements_remote.py:530-544 | the announcements key is a strict order with transitive incomparability |
| Releases.ParseInvertsRender | bootstrap/config.py:229-271 | parsing a full rendering gives back the release on both tracks, for every triplet, counter and build |
| ReleaseParsing.ParsesIff | bootstrap/config.py:229-271 | a string parses exactly when it is three numbers with dots, then nothing, a lone dash or a beta with or without a counter, then nothing or a build; and then as that release, the first beta when there is no counter, with the given build when there is none |
| Releases.ParseNormalizes | bootstrap/config.py:229-271 | whatever parses is a release whose own rendering parses to itself |
| Releases.TestingExample | bootstrap/config.py:229-271 | what the rendering of a testing version looks like, with its tag and build |
| ReleaseParsing.KeyReads | bootstrap/config.py:150-174 | the key of three numbers with or without a prerelease; what follows a plus sign does not count |
| Releases.RankingMeans | bootstrap/config.py:353-357 | rendered versions rank as their numbers do, track against track |
| ReleaseIntent.AcceptedExactly | bootstrap/ci/release.py:42-131 | exactly which configuration diffs the intent rules accept |
| ReleaseIntent.RuleMeans | bootstrap/ci/release.py:42-131 | which rule an accepted diff falls under, and the version it publishes |
| ReleaseIntent.RefusedBecause | bootstrap/ci/release.py:62-125 | why a diff is refused |
| ReleaseIntent.MergeRaises | bootstrap/ci/release.py:67-131 | with stable below the triplet under test, which is what I1 says, an accepted merge keeps or raises stable, and lowers testing only by a rebase |
| ReleaseIntent.PublishedStablesAscend | bootstrap/ci/release.py:42-131 | over an accepted run every stable version that the classification publishes ranks above those it published before, and above the one the run started with |
| ReleaseIntent.TestingAboveStables | bootstrap/ci/release.py:583-588 | every testing version of such a run ranks above every stable version published so far |
| ReleaseIntent.PublishedTestingAboveStables | bootstrap/ci/release.py:42-131 | every testing version that the classification publishes ranks above every stable version it published before |
| ReleaseIntent.ShipsTheTestedLine | bootstrap/ci/release.py:67-85 | a stable version that the classification publishes on the mainline is the triplet under test just before it, and ranks above the version it was tested as |
| ReleaseIntent.TestingRisesBetweenRebases | bootstrap/ci/release.py:87-107 | between rebases testing never falls |
| ReleaseIntent.RebaseMayLower | bootstrap/ci/release.py:88-94 | a bare rebase may lower testing to any line above stable |
| BuildState.PartitionEntries | bootstrap/data/buildstate/models.py:152-174 | hits are the desired entries with matching inputs and an existing output, misses all others |
| BuildState.ModelsCacheContext.Partition | bootstrap/data/buildstate/models.py:233-273 | the pre-filter and the probes, in any order, give the same split, with the probed sizes |
| BuildState.ModelsCacheContext.Load | bootstrap/data/buildstate/models.py:226-231 | a rebuild, or a missing, unreadable or foreign map, loads as empty |
| BuildState.ModelsCacheContext.RecordConversion | bootstrap/data/buildstate/models.py:288-301 | the entry of a fresh conversion, and the upload of its output when asked for and not there |
| BuildState.ModelsCacheContext.RecordHit | bootstrap/data/buildstate/models.py:303-307 | a hit is carried over |
| BuildState.GatherDesired | bootstrap/data/workspace/generate/models.py:326-335 | the inputs wanted for every ship in both variants, for DNAs whose sources all have hashes |
| BuildState.DnaHits | bootstrap/data/workspace/generate/models.py:337-341 | a DNA hits only when every ship that has it hits |
| BuildState.RunBuild | bootstrap/data/workspace/generate/models.py:321-514 | a whole build with its choice of what to convert: the saved map, the index and the store |
| BuildMeaning.HitIff | bootstrap/data/workspace/generate/models.py:326-341 | a model is taken from the memo exactly when its sources have hashes and, for every ship with its DNA, a usable map has the present inputs and the output is in the store |
| BuildMeaning.IndexMeans | bootstrap/data/workspace/generate/models.py:436-514 | the index lists exactly the models that hit or whose conversion did not fail, with their content and its size |
| BuildMeaning.MapMeans | bootstrap/data/buildstate/models.py:288-319 | an uploaded map has exactly the hits and the whole conversions of sources with hashes, with their inputs and outputs |
| BuildMeaning.StoreMeans | bootstrap/data/buildstate/models.py:288-294 | the store gains exactly the recorded outputs, when they are uploaded |
| BuildMeaning.ForeignMapIgnored | bootstrap/data/buildstate/models.py:226-231 | with a missing, foreign or outdated map a build is a rebuild |
| BuildState.IndexIsCold | bootstrap/data/workspace/generate/models.py:336-341 | from a sound map the index equals that of a rebuild exactly when the conversions that were skipped would have given the whole output |
| BuildState.IndexIsComplete | bootstrap/data/workspace/generate/models.py:477-514 | from a sound map, when no conversion fails or lacks textures, the index has every model of every ship with what converting it gives |
| BuildState.AliasesAgree | bootstrap/data/workspace/generate/models.py:481-486 | ships that share a DNA share their models, cached or converted |
| BuildState.SecondBuildHits | bootstrap/data/workspace/generate/models.py:336-341 | after a build that uploads, a build of the same ships and sources converts no hashed DNA whose conversion was whole |
| BuildState.MapStaysSound | bootstrap/data/buildstate/models.py:226-319 | over every sequence of builds, rebuilds, store deletions and map losses each entry records what converting its inputs gives |

## Left out

- S3, threads, progress bars, click commands, subprocesses, git and file formats: only the order of uploads and the locked sections are kept.
- SHA-256 and canonical JSON: identifiers are hashed by an injective constructor, and a generation hash is a function of its metadata.
- Timestamps, the clock, promotion subjects, labels and default channels: parameters, or absent.
- Unreadable files and partly written snapshot directories, and with them the verifier's messages about them.
- Temporary files and empty directories in garbage collection, and the sorted order of deletion lists: deletions are sets.
- GarbageCollection.GarbageCollector.PruneBlobs: says nothing about release-artifact blobs surviving, because the collector does not keep them.
- Verifier checks of hashes, snapshots, blobs and suppressions, and repair.
- ReleaseStore.Store.EnsureChannel: channel labels and their repair are not modelled.
- GarbageCollection.GarbageCollector.Prune: what it deletes is named as sets, without the emptied directories.
- ReleaseStore.Store.Commit: the session's staging, release checks and skips before a generation is built are not modelled.
- Origin-directory uploads, which never overwrite an existing head; publishing a single generation, suppressions or the registry alone.
- ResourceManagement.ResourceManager.CountHandled: the remote request and upload between the two locked sections are steps of the pool model, not of the class.
- The literal step, package, blast-radius and rule tables: everything is proved over arbitrary ones.
- Glob patterns and trimming of file names in change resolution: parameters of the registry.
- Affected.Instantiate: how an instance renders into a job, including batched setups, is not modelled.
- Announcement bodies, localizations, document hashes, schema versions and the check against the remote: only the structural checks are modelled.
- Versions.VersionBeforeIsPrecedence: where the original cannot compare a number with a tagged identifier, the model's order puts the number first.
- AnnouncementPreflight.VersionKeyIsPrecedence: is about that order of the model's too, where the original cannot compare.
- Version strings with non-ASCII digits, and the migration of legacy configurations.
- ResourceCodegen.EscapeReadsBack: reads only the Dart escapes and interpolations that the generator writes.
- Documentation comments, the context class and the vocabulary file among the generated Dart code.
- BuildState.RunBuild: staging and sharding are not modelled; whether a conversion gives the whole output, one with textures missing, or none is a parameter, and files left by earlier builds are not considered.
