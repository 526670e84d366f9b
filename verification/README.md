# LedgerLens: a verified model of its stateful core

LedgerLens scores wallets and asset pairs for wash trading, keeps an audit trail of its scores and serves them to
tenants. This project models the parts of it whose correctness is a matter of logic and arithmetic rather than of
trained models, in Dafny, and proves what those parts promise.

| file | what it models |
|---|---|
| `CertifiedRobustness.dfy`, `NetworkMeaning.dfy` | interval bound propagation through linear, ReLU and batch-norm layers, and the bisection for a certified radius |
| `AuditTrail.dfy`, `MerkleTree.dfy` | the Merkle root, the append-only audit chain with its durable root table, restarts and chain verification |
| `ReservoirSampler.dfy`, `EvictionChances.dfy` | Algorithm R with its draws as inputs, the drift mode, flushing and reloading |
| `Lineage.dfy`, `LineageOrder.dfy` | the lineage graph of datasets and model inputs, and its ancestor and descendant searches |
| `CacheInvalidation.dfy`, `EvictionAudit.dfy` | the dependency graph of derived cache keys, and cascading eviction with failing evictors |
| `ArtifactLifecycle.dfy`, `LifecycleCalls.dfy` | the registry of model artifacts: registration, validation, promotion, deprecation, rollback, its manifest |
| `Deduplicator.dfy`, `EmittedAlerts.dfy`, `YieldOrder.dfy` | the online grouping of correlated alerts, and the order of what it yields |
| `TokenBucket.dfy`, `TenantLimits.dfy` | the per-tenant token bucket, and its bound for each of many tenants |
| `Quotas.dfy`, `TenantBudgets.dfy` | the two per-tenant cost budgets, and their bounds for each of many tenants that charge and read |
| `BenfordDrift.dfy`, `DriftNumbers.dfy`, `PairDrift.dfy` | Welford baselines per asset pair and the drift state machine on top of them, alone and among many pairs |
| `BatchTuner.dfy` | the adaptive batch-size tuner |
| `ShardNames.dfy`, `PartitionPaths.dfy`, `Partitioning.dfy` | the partitioned dataset store: shard numbering, the order of paths, writer and reader |
| `Tenancy.dfy` | what it means that keyed state is isolated per tenant or pair |
| `Common.dfy`, `Ordering.dfy` | option and result types, and sorting |

Objects that update their fields are classes with those fields; each method is proved equal to a function of the old
state, and the lemmas are about that function over whole runs. What such a function computes is told once more without
it, from the inputs alone: the tree of a root, the average of latencies, the records a call touches, the order of paths.
Floats are exact reals, with the square root taken as a given function or value; clock readings, random draws, set
iteration orders, fingerprints, generated ids and the answers of callbacks (evictors, the trust verifier) are inputs.
SHA-256 is ideal: digests are free terms, and canonical JSON is injective. A locked call is one atomic step.

## Where the code and its documentation differ

The model follows the code. The lemmas named here state the difference and, where there is one, the exact condition
under which the documented behaviour holds.

- The budgets are called rolling windows. They are fixed windows that begin with a charge: a span shorter than the
  window can admit twice the budget (`TwiceIsReached`) and never more (`TwiceTheBudget`). The exact condition is told
  from the clock alone: a span keeps the budget, whatever its charges cost, if and only if no window opens inside it
  (`RollingIff`). A tenant that also reads what remains opens windows with its reads; then a span keeps the budget if
  and only if no two charges in it belong to different windows (`RollingIffWithReads`).
- `Retry-After` drops the fraction of a second, so retrying on time is early unless at most a second or a whole number
  of seconds is left (`RetryAfterSufficesIff`). Reading the remaining budget "without charging it" opens a new window
  when the old one has expired (`PeekIsZeroCharge`).
- `deduplicate` says that a late alert within the window joins its group. It does only if no alert, of any key, has
  already come a window after the group's latest member (`OpenUntilOvertaken`, `LateAlertStartsNewGroup`).
- Groups are to be yielded "in the order their groups went silent". Those that one alert closes come out in the order
  in which they were opened (`YieldedInOrderOfOpening`): with a window of 60, `a` at 0, `b` at 1 and `a` at 5 are closed
  together at 100, and `a` comes first (`SilenceOrderIsBroken`).
- `promote` says that a failure leaves the record's stage untouched. That holds of the record; but after the verifier
  has passed, the active version is demoted in memory before the transition can fail (`FailedPromotionDemotes`).
- A promotion "can never happen without" the trust verifier. A rollback re-activates its parent without asking it,
  which is safe with fresh version ids (`FreshRunsAreTrusted`) and not with a reused one (`ReusedIdDefeatsTrust`); with
  any ids it is safe exactly as long as no rollback re-activates a parent that was never promoted
  (`RunsShowTrustIff`).
- `verify_chain` ignores the stored previous root, and without an end index takes the length from the store, so it
  misses exactly the deletion of a tail (`DeletionDetectedUnlessTail`).
- An append that fails because another process has taken its index keeps its entry in memory
  (`FailedAppendUnchangedIff`). If the caller carries on, its appends fail until it has caught up, and then leave rows
  behind whose roots commit to the entries that were lost. Unless what was lost is what the other process wrote, from
  then on, after a restart and whatever is appended later, a window verifies if and only if it ends within the chain and
  contains none of those rows; one that contains some is reported as tampering (`CarryingOnPoisons`).
- The sampler's drift mode makes newer examples the likelier ones to be evicted (`NewerIsLikelierEvicted`), the opposite
  of its docstring, which holds only if all timestamps are equal (`DocumentedOrderIff`). A reload resets the count of
  examples seen to the number of rows in the file, which keeps the shares fair if and only if nothing was discarded
  before (`RestartShare`, `RestartShareOfEarlier`).
- A model's input node id comes from the model name alone; for every model name three registrations and a second one of
  its input close a cycle in the lineage "DAG" (`SecondModelInputRun`), on which the descendant search does not
  terminate (`DepthBoundedIffGrounded`).
- `invalidate_key` also cuts cascades: what a source reached only through that key is no longer invalidated with the
  source (`KeyInvalidationLeavesDependents`).
- Shard files are numbered with five digits and read in name order. Beyond a hundred thousand shards in a partition
  the rows come back in another order than written (`ReadInOrderIff`); none is lost (`ReadReturnsEverything`).
- A Benford baseline that never varied flags nothing, however far a value lies from it (`CheckDecides`).

## Model

| member | source | states |
|---|---|---|
| `CertifiedRobustness.Propagate` | detection/certified_robustness.py:91-118 | the loop computes the layer-by-layer box of the ball around the point, or names a layer type that is not supported |
| `CertifiedRobustness.FirstUnsupported` | detection/certified_robustness.py:115-116 | the error names the first unsupported layer, all layers before it being supported |
| `CertifiedRobustness.LayerSound` | detection/certified_robustness.py:52-88 | every point of a box is mapped into the box the layer computes |
| `CertifiedRobustness.LayerTight` | detection/certified_robustness.py:52-88 | each bound of a layer's box is attained at some point of the input box |
| `CertifiedRobustness.PropagationSound` | detection/certified_robustness.py:91-118 | every perturbation of at most epsilon per coordinate keeps the network's output inside the propagated box |
| `CertifiedRobustness.RadiusMonotone` | detection/certified_robustness.py:91-118 | a smaller radius gives a nested box |
| `CertifiedRobustness.PointBoxExact` | detection/certified_robustness.py:164-166 | at radius 0 the box is the network's output itself, so the clean score is the clean output's mean |
| `CertifiedRobustness.PassingIsRobust` | detection/certified_robustness.py:172-179 | a radius that passes the interval check keeps the class of every point within it |
| `CertifiedRobustness.PassingIsDownwardClosed` | detection/certified_robustness.py:172-179 | a radius below one that passes also passes, which is what makes bisection right |
| `CertifiedRobustness.CertifyIbp` | detection/certified_robustness.py:126-192 | the radius lies in [0, epsilon] and keeps the class of every point within it; if it is less than epsilon, no radius epsilon/2^steps above it passes; a misclassified point gets 0; an unsupported layer is an error |
| `CertifiedRobustness.Bisect` | detection/certified_robustness.py:181-190 | the loop ends at a passing radius within epsilon/2^steps of failing ones |
| `NetworkMeaning.LinearByCoordinate` | detection/certified_robustness.py:52-60 | an output of a linear layer is the sum of weight times input, plus the bias |
| `NetworkMeaning.BatchNormByCoordinate` | detection/certified_robustness.py:68-88 | an output of batch normalisation, less beta and times the deviation, is gamma times the input less the mean; the offset under the root is a hundred thousandth by default |
| `NetworkMeaning.EvalFeedsThrough` | detection/certified_robustness.py:98-118 | the network feeds its input through the layers in their order |
| `NetworkMeaning.BoxesFeedThrough` | detection/certified_robustness.py:98-118 | the bounds go through the layers in the same order |
| `NetworkMeaning.BallIsNear` | detection/certified_robustness.py:96-97 | the first box holds exactly the points within epsilon in every coordinate |
| `NetworkMeaning.ClassifiedIff` | detection/certified_robustness.py:164-170 | an input is fraud if and only if the outputs add up to at least the threshold times their number |
| `NetworkMeaning.PassesCheckIff` | detection/certified_robustness.py:172-179 | the check of a radius asks that of the lower bounds for fraud, and the opposite of the upper bounds for a benign input |
| `AuditTrail.MerkleRoot` | detection/audit_trail.py:285-294 | the in-place level loop terminates and computes the recursive root with odd last nodes doubled |
| `MerkleTree.RootIsTree` | detection/audit_trail.py:277-294 | the root is the perfect binary tree of the least height with room for all leaves; read from left to right it has each content under its index in its place, and behind them repetitions only |
| `MerkleTree.AppendedRootIsTree` | detection/audit_trail.py:418-426 | the root of an append has every entry under its stored index, and the new content under the number of entries |
| `AuditTrail.RootBinding` | detection/audit_trail.py:277-294 | two index-stamped lists of any lengths have one root if and only if they are equal |
| `AuditTrail.DuplicationAmbiguous` | detection/audit_trail.py:285-294 | without the stamp an odd list and the same list with its last node repeated have one root |
| `AuditTrail.AuditMerkleChain.constructor` | detection/audit_trail.py:325-366 | a new process holds the stored rows in index order |
| `AuditTrail.AuditMerkleChain.Append` | detection/audit_trail.py:391-446 | refuses an incomplete chain, else appends the entry with the root over all contents to memory and, unless its index is taken, to the table |
| `AuditTrail.AuditMerkleChain.VerifyChain` | detection/audit_trail.py:448-512 | succeeds if and only if every position passes; otherwise reports the first failing position with the first check that fails there |
| `AuditTrail.RunIsHonest` | detection/audit_trail.py:340-446 | after any run of appends and restarts, memory and table are exactly those of the appended contents |
| `AuditTrail.RunsVerify` | detection/audit_trail.py:448-512 | after any run, verification succeeds on a window if and only if the window ends within what was appended |
| `AuditTrail.WindowPinsHistory` | detection/audit_trail.py:448-512 | however the store was altered, if a nonempty window verifies and its last root is the honest one, all contents up to its end and all roots in it are honest |
| `AuditTrail.DeletionDetectedUnlessTail` | detection/audit_trail.py:448-470 | after a restart, default verification of an honest table with deleted rows succeeds if and only if the deleted rows were its tail |
| `AuditTrail.FailedAppendUnchangedIff` | detection/audit_trail.py:391-446 | an append that raises leaves process and table unchanged if and only if it was refused for an incomplete chain |
| `AuditTrail.StaleAppendDetected` | detection/audit_trail.py:391-512 | a process appends while another one has appended any contents unseen: its appends fail exactly until it has caught up, and it accepts exactly the windows that end before the first position where its contents differ from the other's, reporting a stored root mismatch there |
| `AuditTrail.CarryingOnPoisons` | detection/audit_trail.py:340-512 | after any such race, a restart and any later appends and restarts, all appends succeed, and a window verifies if and only if it ends within the chain and contains none of the rows the process added behind the other's, or what it lost is what the other wrote; else it is answered with an entry root mismatch at the first of them in the window |
| `AuditTrail.LegacyGap` | detection/audit_trail.py:391-512 | a store with rows that lack content, after any restarts and attempted appends: every append is refused, no window past the first such row verifies, and windows from there on, or all if it is the very first row, are answered with an incomplete entry there, not with tampering |
| `ReservoirSampler.DriftAwareReservoirSampler.Update` | data/reservoir_sampler.py:154-178 | fills up, then replaces the drawn slot or nothing; keeps buffer and timestamps of length min(seen, size), and flushes on schedule |
| `ReservoirSampler.DriftAwareReservoirSampler.StandardReplace` | data/reservoir_sampler.py:124-136 | overwrites the drawn slot in both lists if it lies in the reservoir, else changes nothing |
| `ReservoirSampler.UniformShare` | data/reservoir_sampler.py:124-136 | each of n items is in the final buffer for exactly a size/n share of all draw sequences |
| `ReservoirSampler.EverySubsetEquallyLikely` | data/reservoir_sampler.py:124-136 | every set of size items is the final sample for the same number of draw sequences, (n - size)! of them |
| `ReservoirSampler.SampleSelectsPicked` | data/reservoir_sampler.py:161-174 | buffer and timestamps are the same selection of arrivals, all different |
| `ReservoirSampler.Restart` | data/reservoir_sampler.py:101-111 | a flush and a reload keep buffer and timestamps, and the count of items seen becomes the number of rows, right if and only if nothing had been discarded |
| `ReservoirSampler.RestartShare` | data/reservoir_sampler.py:101-111 | after a reload that counts the loaded rows instead of the n items seen, later items have the fair share if and only if n is at most the size |
| `ReservoirSampler.RestartShareOfEarlier` | data/reservoir_sampler.py:101-136 | over all pairs of draw sequences, one before and one after the restart, an item seen before it survives both phases for the fair share if and only if nothing had been discarded |
| `ReservoirSampler.NewerIsLikelierEvicted` | data/reservoir_sampler.py:138-152 | in drift mode one slot is likelier to be evicted than another if and only if its timestamp is greater |
| `ReservoirSampler.DocumentedOrderIff` | data/reservoir_sampler.py:138-152 | the documented order, older examples at least as likely to be replaced, holds if and only if all timestamps are equal |
| `EvictionChances.ChanceRatio` | data/reservoir_sampler.py:143-149 | the chances of two slots are as the largest timestamp, or one if none is positive, plus their own |
| `EvictionChances.ChancesAddUp` | data/reservoir_sampler.py:148 | the chances of all slots add up to one |
| `Lineage.LineageTracker.RegisterDataset` | data/lineage.py:166-211 | succeeds if and only if the type and all parents exist, and then writes exactly that node; else changes nothing |
| `Lineage.LineageTracker.RegisterModelInput` | data/lineage.py:213-242 | writes a node whose id depends on the model name alone, with the dataset as its one parent |
| `Lineage.LineageTracker.GetAncestors` | data/lineage.py:272-289 | on any graph exactly the strict ancestors, none twice; on an acyclic one each after all of its own parents |
| `Lineage.LineageTracker.GetDescendants` | data/lineage.py:291-301 | terminates where no cycle can be reached, and lists the last node of every directed path from the node |
| `Lineage.RoutesAreThePaths` | data/lineage.py:291-301 | the paths it follows are all directed paths of at least one edge from the node, and nothing else |
| `Lineage.LastsReachAll` | data/lineage.py:291-301 | a node is listed if and only if the start is one of its ancestors |
| `Lineage.OncePerPath` | data/lineage.py:291-301 | a node is listed exactly once per directed path to it |
| `LineageOrder.RoutesInOrder` | data/lineage.py:291-301 | descendants are listed depth first: a route after those it continues, and at a fork the child registered first |
| `Lineage.DepthBoundedIffGrounded` | data/lineage.py:291-301 | the depth of the recursion is bounded if and only if no cycle can be reached from the node |
| `Lineage.RegisterAcyclicIff` | data/lineage.py:181-211 | writing a node keeps the graph acyclic if and only if no new parent is the node itself or has it as an ancestor |
| `Lineage.FreshBuildsAreDags` | data/lineage.py:166-242 | with fresh ids the graph is always acyclic and closed under parents |
| `Lineage.SecondModelInputRun` | data/lineage.py:213-242 | for every model name a run of fresh registrations after which registering the input again passes the parent check, takes the first input's id and closes a cycle |
| `LineageOrder.ModelInputsDiffer` | data/lineage.py:226-238 | two model inputs have one id if and only if their model names and digests are the same |
| `CacheInvalidation.ForwardDetermined` | detection/cache_invalidation.py:152-181 | the forward map is determined by the reverse one: converse relations without empty entries |
| `CacheInvalidation.DependencyGraph.SetDependencies` | detection/cache_invalidation.py:162-173 | replaces all edges of the key by the given ones and keeps every other key's, both maps staying converse without empty entries |
| `CacheInvalidation.DependencyGraph.RemoveKey` | detection/cache_invalidation.py:175-181 | drops the key's edges from both maps, and emptied entries with them |
| `CacheInvalidation.DependencyGraph.DependentsOf` | detection/cache_invalidation.py:183-201 | terminates on cyclic graphs and returns exactly the keys reachable by one or more edges |
| `CacheInvalidation.InvalidationRegistry.RecordDependency` | detection/cache_invalidation.py:249-289 | an unregistered cache is an error and changes nothing; else edges, cache and fingerprint are recorded |
| `CacheInvalidation.InvalidationRegistry.EvictKey` | detection/cache_invalidation.py:372-411 | calls the registered evictors of the key's caches in name order, records which succeeded, removes the key everywhere, and returns the failures |
| `CacheInvalidation.InvalidationRegistry.InvalidateSource` | detection/cache_invalidation.py:295-318 | calls each registered evictor of each dependent key exactly once even if some fail, removes exactly those keys, leaves the others' edges and trails alone, and raises if and only if a call failed |
| `CacheInvalidation.InvalidationRegistry.InvalidateKey` | detection/cache_invalidation.py:320-325 | evicts the one key without cascading and raises its first failure |
| `EvictionAudit.CallsTold` | detection/cache_invalidation.py:372-411 | an eviction calls exactly the registered evictors of the caches that hold the key, once each, in ascending order of names |
| `EvictionAudit.EventTold` | detection/cache_invalidation.py:372-411 | its event names the trigger and, in ascending order, exactly the caches whose evictor did not fail |
| `EvictionAudit.TrailTold` | detection/cache_invalidation.py:229-231 | after an eviction the new event ends the trail, and before it stands the end of the old trail, cut only for want of room |
| `EvictionAudit.TrailIsLatest` | detection/cache_invalidation.py:229-231 | however many events a key had, its trail is the last of them, as many as there is room for |
| `EvictionAudit.FirstFailure` | detection/cache_invalidation.py:313-325 | the failure raised is the first one in the order of the calls |
| `CacheInvalidation.ForgetIsNoOp` | detection/cache_invalidation.py:413-419 | after the cascade the source has no forward entry left |
| `CacheInvalidation.NoStaleDependency` | detection/cache_invalidation.py:249-318 | after any run, a recorded direct dependency goes back to the key's last recording, since when neither was the source invalidated or swept up in a cascade nor the key invalidated |
| `CacheInvalidation.RecordedIff` | detection/cache_invalidation.py:249-325 | after any run a direct dependency is on record if and only if it was once recorded and its key has been neither recorded anew nor evicted since |
| `CacheInvalidation.KeyInvalidationLeavesDependents` | detection/cache_invalidation.py:320-325 | invalidating one key keeps exactly the other keys' dependencies on it, and afterwards a source reaches exactly the keys it reached by chains not coming to that key |
| `ArtifactLifecycle.ModelArtifactRegistry.Register` | detection/artifact_lifecycle.py:231-262 | a missing file changes nothing; else a staged record is stored with the active version as parent, replacing one of the same id |
| `ArtifactLifecycle.ModelArtifactRegistry.Promote` | detection/artifact_lifecycle.py:285-317 | verifier first, then the demotions, then the transition that may still raise, in memory and in the manifest |
| `ArtifactLifecycle.ModelArtifactRegistry.Rollback` | detection/artifact_lifecycle.py:322-349 | the promoted target is rolled back and its parent, if deprecated or validated, made active |
| `ArtifactLifecycle.ModelArtifactRegistry.GetActive` | detection/artifact_lifecycle.py:363-370 | the first promoted record, or an error |
| `LifecycleCalls.RegisterByRecord` | detection/artifact_lifecycle.py:231-262 | a registration puts one staged record, its parent the version in use, in the place of its version or at the end, and changes no other |
| `LifecycleCalls.ValidateByStage` | detection/artifact_lifecycle.py:59-65 | a version is validated if and only if it is staged; else nothing changes and the error names its stage |
| `LifecycleCalls.DeprecateByStage` | detection/artifact_lifecycle.py:59-65 | a version is deprecated if and only if it is staged, validated or promoted; else nothing changes |
| `LifecycleCalls.PromoteByRecord` | detection/artifact_lifecycle.py:285-317 | the errors of a promotion in their order; else every other promoted record is superseded, and this one promoted if it is validated |
| `LifecycleCalls.RollbackOfVersion` | detection/artifact_lifecycle.py:322-349 | a rollback of a given version succeeds if and only if that version is promoted, and then acts on it and its parent alone; else nothing changes |
| `LifecycleCalls.RollbackOfActive` | detection/artifact_lifecycle.py:322-349 | without a version, or with an empty one, it acts on the version in use |
| `ArtifactLifecycle.RollbackShape` | detection/artifact_lifecycle.py:322-349 | a rollback fails and changes nothing, or changes exactly the promoted record and its parent |
| `ArtifactLifecycle.PromotionIsActive` | detection/artifact_lifecycle.py:285-317 | after a successful promotion the version is the one active version |
| `ArtifactLifecycle.FailedPromotionDemotes` | detection/artifact_lifecycle.py:302-317 | a promotion that raises leaves everything unchanged if and only if the verifier did not pass, the version is unknown, or no other version is active |
| `ArtifactLifecycle.CallKeepsOneActive` | detection/artifact_lifecycle.py:231-349 | no call, raising or not, makes two versions of a name active |
| `ArtifactLifecycle.RollbackTrustIff` | detection/artifact_lifecycle.py:337-347 | a rollback keeps every active record proven by its history if and only if it does not re-activate a parent that was never promoted |
| `ArtifactLifecycle.CallKeepsProvenIff` | detection/artifact_lifecycle.py:231-349 | any call, raising or not, keeps every active record proven if and only if it is not a rollback that re-activates an unproven parent |
| `ArtifactLifecycle.RunsShowTrustIff` | detection/artifact_lifecycle.py:202-349 | over any run with any ids, memory and manifest show a promotion for every active record at every moment if and only if no rollback in it re-activates an unproven parent |
| `ArtifactLifecycle.UnbrokenRunsAreTrusted` | detection/artifact_lifecycle.py:285-349 | without such a rollback every active record passed the verifier, with any ids |
| `ArtifactLifecycle.RunsAreSound` | detection/artifact_lifecycle.py:202-349 | after any run, also with raising calls and reloads, at most one version per name is active in memory and on disk, and a proven record passed the verifier |
| `ArtifactLifecycle.FreshRunsAreTrusted` | detection/artifact_lifecycle.py:231-349 | with fresh ids every active record, also a re-activated one, passed the verifier; the successful rollbacks are the rolled-back records, so at most the registrations |
| `ArtifactLifecycle.RolledBackForever` | detection/artifact_lifecycle.py:59-65 | with fresh ids a rolled-back record stays rolled back |
| `ArtifactLifecycle.ReusedIdDefeatsTrust` | detection/artifact_lifecycle.py:231-349 | a run that registers an id twice makes a version active that never passed the verifier |
| `Deduplicator.Deduplicate` | alerts/deduplicator.py:122-135 | the loop and the final flush yield what the state sequence says, in that order |
| `Deduplicator.DetectorsAreUnion` | alerts/deduplicator.py:40-66 | an emitted alert names exactly the detectors of its members |
| `Deduplicator.ExtremesOfMembers` | alerts/deduplicator.py:40-66 | its score is the largest, its time the earliest and the high-water mark the latest of its members |
| `Deduplicator.EvidenceOfLast` | alerts/deduplicator.py:45-53 | the evidence has exactly the fields of the members, and each comes from the last member that has it |
| `EmittedAlerts.EmittedTold` | alerts/deduplicator.py:40-66 | an emitted alert has its group's key, exactly its members' detectors in ascending order, their largest score and their earliest time |
| `EmittedAlerts.EmittedEvidence` | alerts/deduplicator.py:45-66 | and of each evidence field the value of the last member that has it |
| `Deduplicator.YieldsGroupsOfKey` | alerts/deduplicator.py:122-135 | the alerts yielded for a key are those of its own groups, which other keys affect only through their times |
| `Deduplicator.EveryAlertInOneGroup` | alerts/deduplicator.py:97-103 | on any stream the groups of a key, one after the other, are exactly the positions of its alerts in arrival order, each once |
| `Deduplicator.OrderedStreamsSplitIntoSessions` | alerts/deduplicator.py:122-135 | on a stream in time order each key's groups are its own subsequence split at gaps of at least the window |
| `Deduplicator.OpenUntilOvertaken` | alerts/deduplicator.py:82-88 | on any stream a group stays open exactly until some alert comes a window after its high-water mark |
| `Deduplicator.LateAlertStartsNewGroup` | alerts/deduplicator.py:82-88 | three alerts in which a late one within the window starts a new group |
| `YieldOrder.YieldedInOrderOfOpening` | alerts/deduplicator.py:122-132 | what one alert makes the loop yield is exactly the groups it closes, in the order in which they were opened |
| `YieldOrder.SilenceOrderIsBroken` | alerts/deduplicator.py:112-127 | four alerts after which a group is yielded before one that fell silent earlier |
| `EmittedAlerts.RestInKeyOrder` | alerts/deduplicator.py:134-135 | the groups still open at the end are yielded last, in the order of their keys |
| `TokenBucket.Bucket.Consume` | api/app.py:111-124 | refills for the elapsed time up to the capacity, then takes the amount if it is there |
| `TokenBucket.LevelInRange` | api/app.py:104-124 | over any run the stored level stays in [0, capacity] |
| `TokenBucket.LevelIsLeastSlack` | api/app.py:115-123 | what a call finds is the least, over all intervals ending there, of capacity plus refill minus grants |
| `TokenBucket.GrantedIffWithinEveryInterval` | api/app.py:104-124 | a call is granted if and only if in every interval ending with it the grants stay within capacity plus refill rate times length |
| `TokenBucket.IntervalBound` | api/app.py:104-124 | over any contiguous part of any run the grants are at most capacity plus refill rate times elapsed time |
| `TokenBucket.TenantRateLimiter.Check` | api/app.py:149-187 | one token from the tenant's own bucket, made full on first use; other tenants' buckets and counters are untouched |
| `TokenBucket.ServeAll` | api/app.py:93-187 | a limiter that serves a sequence of requests of many tenants gives each tenant the answers of its own requests alone |
| `TokenBucket.RateLimitsAreIsolated` | api/app.py:93-96 | each tenant gets the answers it would get alone |
| `TenantLimits.AnswersAreOfRun` | api/app.py:93-187 | among the requests of many tenants, each answer to one of them is that of the bucket's run on its own calls |
| `TenantLimits.EachTenantIsLimited` | api/app.py:93-187 | over any part of its own requests a tenant is let through at most its limit plus its rate times the elapsed time, whatever others do |
| `TenantLimits.LetThroughIff` | api/app.py:104-124 | a request is let through if and only if, counted from any earlier one, no more than the limit and a sixtieth of it per second since is used |
| `TenantLimits.ServedUnderOwnLimit` | api/app.py:149-187 | so each tenant of a limiter is served under its override, or under the default if it has none or it is zero |
| `Quotas.RequestCostAccountant.Charge` | api/app.py:273-291 | rolls the window, then rejects or adds the cost, counting either; a rejection keeps the rolled window |
| `Quotas.QuotaTracker.Charge` | api/__init__.py:130-153 | the same rule on records updated in place, answering what remains |
| `Quotas.QuotaTracker.Remaining` | api/__init__.py:155-163 | what remains, with an expired window renewed; an unknown tenant gets no record |
| `Quotas.TrackAll` | api/__init__.py:111-163 | a tracker that serves charges and reads of many tenants gives each the answers of its own requests alone |
| `Quotas.AccountAll` | api/app.py:240-291 | the same for the accountant, under each tenant's own budget |
| `Quotas.UsageIsSpentInWindow` | api/app.py:273-291 | the record holds exactly what was admitted since the window opened, never more than the budget |
| `Quotas.AdmittedIffWindowHasRoom` | api/app.py:273-290 | a charge is admitted if and only if it fits what its window, told from the clock alone, has left |
| `Quotas.RollingIff` | api/app.py:240-291 | a span keeps the budget for all costs on its clock if and only if no window opens inside it, or the budget is nothing |
| `Quotas.TwiceTheBudget` | api/__init__.py:130-153 | any span shorter than the window spends at most twice the budget |
| `Quotas.TwiceIsReached` | api/app.py:240-247 | for every budget and window, a run that spends twice the budget within any small span |
| `Quotas.RetryAfterSufficesIff` | api/app.py:231-233 | a retry at the advised time succeeds if and only if the time left is at most one second or whole |
| `Quotas.RemainingIsExact` | api/__init__.py:155-163 | what remains tells exactly which charges the same instant admits |
| `Quotas.PeekIsZeroCharge` | api/__init__.py:155-163 | a read of a known tenant is recorded like a charge of nothing, and changes the record if and only if the window has expired |
| `Quotas.ChargesAreIsolated` | api/app.py:240-257 | each tenant gets the answers it would get alone |
| `TenantBudgets.LeadingReads` | api/__init__.py:155-163 | reads of a tenant not charged yet are told the whole budget and change none of its later answers |
| `TenantBudgets.PaidIffAdmitted` | api/__init__.py:130-163 | a charge is paid if and only if it is admitted in the run of the tenant's own charges and reads |
| `TenantBudgets.EachTenantPaysAtMostTwice` | api/__init__.py:111-163 | among the charges and reads of many tenants, each pays at most twice its budget in any span shorter than the window |
| `TenantBudgets.RollingIffWithReads` | api/__init__.py:111-163 | a span of charges and reads keeps the budget whatever the charges cost if and only if no two charges in it belong to different windows, or the budget is nothing |
| `TenantBudgets.WindowsBegin` | api/app.py:266-271 | a window begins when the record is made, and with each charge a full window or more after the last beginning |
| `TenantBudgets.AnswerTellsWindow` | api/__init__.py:130-153 | an admitted charge is answered with what its window has left, a rejected one with the whole seconds until its end, at least one |
| `TenantBudgets.TrackedUnderBudget` | api/__init__.py:111-163 | each tenant of the tracker is served as if alone under the tracker's budget per window |
| `TenantBudgets.ServedUnderOwnBudget` | api/app.py:253-291 | each tenant of the accountant is served as if alone under its override, or under the default if it has none or it is zero |
| `Tenancy.TenantsAreIsolated` | api/app.py:93-96 | when each request touches only its tenant's entry, the answers to a tenant are those of its own requests alone |
| `BenfordDrift.BenfordBaseline.Absorb` | detection/benford_drift_detector.py:300-313 | one Welford update of both statistics in place |
| `BenfordDrift.WelfordIsTwoPass` | detection/benford_drift_detector.py:300-313 | after any samples the fields are their mean and their sum of squared deviations from it |
| `BenfordDrift.ZScoreExceedsIff` | detection/benford_drift_detector.py:368-378 | the z-score exceeds z if and only if the sum of squared deviations is positive and the squared deviation times n exceeds z squared times it |
| `BenfordDrift.BenfordDriftDetector.FitBaseline` | detection/benford_drift_detector.py:277-315 | an empty or invalid sample changes nothing; else only the pair's baseline absorbs it |
| `BenfordDrift.BenfordDriftDetector.Check` | detection/benford_drift_detector.py:350-399 | too little data and non-finite metrics change nothing; else the pair enters, stays in or leaves drift, entries alone being counted |
| `BenfordDrift.BenfordDriftDetector.ShouldTriggerRetrain` | detection/benford_drift_detector.py:443-452 | compares the number of drifted pairs with the trigger, zero meaning one |
| `BenfordDrift.OperateAll` | detection/benford_drift_detector.py:255-399 | a detector that serves fits and checks of many pairs gives each the answers of its own operations alone, and is left in the state they make of every pair |
| `BenfordDrift.BaselineIsTwoPass` | detection/benford_drift_detector.py:255-315 | after any run, whatever checks came between, a pair's baseline is the two-pass statistics of its accepted samples |
| `BenfordDrift.CheckDecides` | detection/benford_drift_detector.py:350-381 | the verdict of a check told from the accepted samples before it alone |
| `DriftNumbers.AnswerTold` | detection/benford_drift_detector.py:350-399 | what a check answers, from the samples before it: too little data, stable, or drifted for an outlier |
| `DriftNumbers.OutlierTold` | detection/benford_drift_detector.py:368-381 | an outlier is more than z standard deviations from the mean, and there is none if nothing varied |
| `DriftNumbers.StatisticsTold` | detection/benford_drift_detector.py:300-313 | the statistics are the average of the samples and the sum of their squared distances from it |
| `DriftNumbers.AbsorbedIff` | detection/benford_drift_detector.py:277-315 | a sample counts if and only if both its metrics are finite and not negative |
| `BenfordDrift.DriftCountsEntries` | detection/benford_drift_detector.py:380-399 | the drifted state counts the drifted verdicts since the last stable one, and the total counts the entries into drift |
| `DriftNumbers.TrailingTold` | detection/benford_drift_detector.py:380-399 | the streak is the number of drifted verdicts at the end |
| `DriftNumbers.EntriesTold` | detection/benford_drift_detector.py:380-399 | the total is the number of drifted verdicts that follow none or a stable one |
| `BenfordDrift.PairsAreIsolated` | detection/benford_drift_detector.py:255-399 | however pairs are interleaved, each gets the answers of its own operations |
| `PairDrift.EachPairHasItsRun` | detection/benford_drift_detector.py:255-399 | among the operations of many pairs, each pair's answers are those of a run of its own, and its streak, its entry count and its baseline in the end are those of its own verdicts and accepted samples |
| `BatchTuner.NewConfig` | benchmarks/runner.py:340-363 | a configuration is accepted if and only if its ranges are right; a default initial size is in range, a given one is kept |
| `BatchTuner.AdaptiveBatchTuner.Observe` | benchmarks/runner.py:403-442 | averages, waits out the cooldown, then steps and clamps |
| `BatchTuner.ObserveAll` | benchmarks/runner.py:381-442 | a fresh tuner fed with any observations goes through the states of a run and answers its sizes |
| `BatchTuner.SizeInRange` | benchmarks/runner.py:434-440 | the size is always in range, or still the untouched initial one |
| `BatchTuner.StepIsTheFraction` | benchmarks/runner.py:432-434 | a change away from the ends of the range is the configured fraction of the size to within a half, or one if that rounds to less |
| `BatchTuner.AdjustmentsCountChanges` | benchmarks/runner.py:436-440 | the adjustment counter is the number of changes |
| `BatchTuner.ChangesAreApart` | benchmarks/runner.py:425-440 | two changes, and the start and the first change, are at least max(1, cooldown) observations apart |
| `BatchTuner.SmoothedWithin` | benchmarks/runner.py:416-423 | the smoothed latency stays within the bounds of the latencies |
| `BatchTuner.SmoothedIsWeightedSum` | benchmarks/runner.py:416-423 | after n observations the smoothed latency is the sum of all latencies, the first weighing (1 - s)^(n-1) and each later one s times 1 - s per observation after it |
| `BatchTuner.SettlesWhenPulled` | benchmarks/runner.py:403-442 | while every decision points one way the size moves only that way, by at least one per max(1, cooldown) observations until the end of the range |
| `BatchTuner.PulledSizes` | benchmarks/runner.py:403-442 | while every decision points one way there is one configured step per max(1, cooldown) observations, until the end of the range |
| `BatchTuner.SettlesGeometrically` | benchmarks/runner.py:425-440 | meanwhile the size keeps to a geometric curve with the configured fraction as its rate, half a unit lost to rounding per step, and is at the end of the range once the curve, and from any point of it one unit per change, lead that far |
| `BatchTuner.SlowRunsShrinkToMin` | benchmarks/runner.py:403-476 | with every latency over the target the size never grows and is the minimum after (initial - min) * max(1, cooldown) observations |
| `BatchTuner.SaturatedRunsGrowToMax` | benchmarks/runner.py:403-476 | with latencies within the target and a saturated queue the size never shrinks and is the maximum after (max - initial) * max(1, cooldown) observations |
| `BatchTuner.StarvedRunsShrinkToMin` | benchmarks/runner.py:403-476 | with latencies under half the target and a starved queue that is not saturated too the size likewise shrinks to the minimum |
| `BatchTuner.DeadZoneHolds` | benchmarks/runner.py:444-476 | with latencies from half the target to the target and an unsaturated queue nothing ever changes |
| `BatchTuner.QuietQueueHolds` | benchmarks/runner.py:444-476 | with latencies within the target and the queue between the watermarks nothing ever changes |
| `ShardNames.ShardNamesDiffer` | data/partitioning.py:456-457 | different shard numbers have different file names |
| `ShardNames.NameByDigits` | data/partitioning.py:457 | the first hundred thousand file names have five decimal digits, the highest first |
| `ShardNames.ListedInOrderIff` | data/partitioning.py:457-458 | file names sort in number order if and only if there are at most a hundred thousand |
| `ShardNames.ListedIsNumbers` | data/partitioning.py:457-586 | the sorted listing of the shards is their number order if and only if there are at most a hundred thousand |
| `PartitionPaths.PathOrder` | data/partitioning.py:585 | comparing paths component by component is a total order on partition keys |
| `PartitionPaths.ListedByComponents` | data/partitioning.py:585 | a partition is listed before another if and only if, where their paths first differ, it has no component left or the lesser one |
| `PartitionPaths.ListPaths` | data/partitioning.py:585 | the partitions, each once, in that order |
| `Partitioning.PartitionedDatasetWriter.NextShardIndex` | data/partitioning.py:473-482 | one more than the largest number in use, which is the number of shards |
| `Partitioning.PartitionedDatasetWriter.WriteGroup` | data/partitioning.py:452-510 | one new shard, and the row count raised by its rows |
| `Partitioning.PartitionedDatasetWriter.Write` | data/partitioning.py:417-443 | an empty frame is refused; else every key of the frame gets its rows as one new shard, no other partition changes, and the answer counts the rows of each key |
| `Partitioning.CountsTold` | data/partitioning.py:417-443 | the answer of a write has an entry for exactly the keys of the frame, each with the number of its rows |
| `Partitioning.PartitionedDatasetReader.Read` | data/partitioning.py:575-596 | the loops concatenate the partitions in path order, and in each the shards by file name |
| `Partitioning.ReadInPathOrder` | data/partitioning.py:585-596 | all rows of a partition come before all rows of any whose path is later in that order |
| `Partitioning.PartitionsHoldTheirRows` | data/partitioning.py:417-510 | after any writes each partition holds exactly the rows of its key in the order written, with the right row count |
| `Partitioning.ShardsAreKept` | data/partitioning.py:456-466 | no later write replaces or removes a shard |
| `Partitioning.ReadReturnsContents` | data/partitioning.py:578-596 | reading a partition returns its rows, in their order too up to a hundred thousand shards |
| `Partitioning.ReadInOrderIff` | data/partitioning.py:578-596 | a partition of rows that are all different comes back in the order written if and only if it has at most a hundred thousand shards |
| `Partitioning.ReadReturnsEverything` | data/partitioning.py:575-596 | after any writes a read returns exactly the multiset of all rows written |

## Left out

- `layers_from_neural_process`: it puts a ReLU after every layer and stands in for a sigmoid, so it does not describe the real network.
- Floating-point rounding and NaN: all arithmetic is over exact reals; batch-norm layers come with a positive root of variance plus epsilon.
- The digit extraction, chi-square and mean-absolute-deviation statistics that `fit_baseline` computes its two samples with.
- Real files, databases, Parquet encoding, locks and threads; persistence is a map or sequence, and a failing write is not modelled.
- Schema hashes, timestamps, metrics, logging, tags and other fields that only travel along.
- `ReservoirSampler.Restart`: a flush writes the timestamps as a column over the rows, so reloaded rows carry a `timestamp` field, in place of one of their own if they had it; rows are opaque here and come back unchanged.
- The recency-biased mode of the sampler beyond the slot it overwrites and the order of its weights: nothing is claimed about the resulting sample.
- Partition read filters, and the strategies' own key functions: a strategy is any function from rows to keys, and distinct keys are taken to name distinct directories (keys are nonempty and neither `.` nor `..`).
- `ArtifactLifecycle.ModelArtifactRegistry.GetActive`: records are values, so a caller that keeps and mutates a returned record is not modelled; families are lists in dictionary order.
- `ArtifactLifecycle.ModelArtifactRegistry.constructor`: a reloaded family keeps the dictionary order it was saved in, while the manifest file is written with sorted keys, so after a restart the real dictionary is in version order.
- `CacheInvalidation.InvalidationRegistry.InvalidateSource`: evictors do not re-enter the registry.
- `BenfordDrift.BenfordDriftDetector.Check`: runs start from an empty detector; a restart, which forgets which pairs are drifted, is not modelled.
- `TokenBucket.TenantRateLimiter.Check`: the tenant overrides do not change while the limiter lives; the isolation lemma allows it.
- Per-window baselines and every component that mainly calls a learning library.
- Configuration layering, dry runs, report rendering and dataset generators: single-branch facts.
