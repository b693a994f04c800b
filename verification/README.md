# Enkit, verified

A Dafny model of the parts of enkit that are hard to get right, with proofs of
what they promise. `dafny verify dfyconfig.toml` checks everything.

## What is modelled

**Flextape, the licence server.** Each licence type has a map of holders, a queue
and a prioritizer with four counters; clients allocate, refresh and release, and a
janitor expires and promotes. `license_model.dfy` and `service_model.dfy` describe
licences and the whole server as values; `license_invariant.dfy`,
`even_owners.dfy`, `withdrawal.dfy`, `promote.dfy`, `service_invariant.dfy`,
`service_runs.dfy`, `life_cycle.dfy`, `keepalive.dfy`, `answers.dfy` and
`first_come.dfy` prove what holds of them, step by step and over runs; `invocation_queue.dfy`, `license.dfy` and `service.dfy` are the classes
that update objects in place and are proved to do what the value model says.
Arithmetic on counters and queue ids is modulo 2^64, positions are modulo 2^32; ghost
fields of the queue count its requests without bound and tell when ids are exact.

Three hypotheses are explicit. *Ordered*: each owner's queued positions are
consecutive. It is proved to be kept by everything except withdrawing or expiring
a request that stands behind an older one of the same owner, which is proved to
break it. *No adoption of a queued request*: during start-up `Refresh` looks only at
allocations. It is proved that this is the only refresh that breaks consistency.
*New ids*: a generated id is not in use. `unfair_runs.dfy` shows what goes wrong
without the first two. The bound on allocations needs none of them.

**Target hashing.** `target_graph.dfy` defines the hash of a target as that of the
tree its dependencies unfold to. `target.dfy` is the memoised search with its chain,
and `affected.dfy` compares two snapshots. The node hash is an arbitrary function of
the text written to it, in the notation of `decimal.dfy`; freedom from collisions is a
hypothesis where it is used.

**Allocation manager.** An invocation gets all units of a named topology at once, and
topologies may share units. `gang_model.dfy` is the running server as a value,
`gang_proofs.dfy`, `gang_promotion.dfy`, `gang_runs.dfy` and `gang_life.dfy` prove
that gangs stay whole, that the scan of the changing queue is greedy and maximal, and
who keeps a gang for how long, `gang.dfy` has the classes, in which all units of a gang point to one invocation.

**Tokens.** `multi_key.dfy` and `multi_key_proofs.dfy` treat messages for several
keyholders, `encoders.dfy`, `chained_encoder.dfy` and `encoder_chains.dfy` chains of
encoders with soft errors and associated data, `time_limits.dfy` issue and expiry
times, `varint.dfy` Go's variable-length integers. Ciphers are arbitrary functions;
their laws are hypotheses of the theorems.

**Mail.** `shared_sender_model.dfy` is a worker that owns one session, with its clients
and its shutdown, as a state machine over all interleavings; `shared_sender.dfy` is
the loop and its helpers, with the others moving at every point where the worker
blocks, `shared_provider.dfy` the provider. `bulk_sender.dfy` is the
retrying sender.

**Text.** `escape_writer.dfy` writes bytes as a Go string literal, which
`string_literal.dfy` reads as the Go specification (section "String literals") says and
`utf8.dfy` decodes as section 4 of RFC 3629 says. `key_codec.dfy` and `store_path.dfy`
encode keys of a configuration store and resolve paths in it. `wrappers.dfy`,
`integers.dfy` and `byte_strings.dfy` hold what several of these share.

## Where the code and its documentation differ

The model follows the code in each of these cases.

- The allocation manager's `Release` is said to unqueue an invocation; it only frees
  units (`GangRuns.ReleaseFreesGang`). Its janitor never expires queued requests.
- The allocation manager's `Refresh` updates units one by one and may fail after it
  has already kept the gang alive (`GangRuns.RefusedRefreshCounts`).
- The even-owners prioritizer is said to spread licences evenly. That is guaranteed
  while each owner's requests are in order; the order, and with it the guarantee, is
  lost exactly when an unserved request leaves before an older one of its owner
  (`Withdrawal.ForgetOrder`, `UnfairRuns.UnfairAfterWithdrawal`).
- The sort key is said to be a request's place among its owner's plus the owner's
  licences; it is unsigned and wraps around when the owner withdraws enough newer
  requests (`Withdrawal.KeyAfterDrop`,
  `UnfairRuns.KeyWrapsAround`).
- A target's hash is said to change with its direct dependencies; renaming a dependency
  with unchanged content does not change it (`Affected.RenamedDependencyUnnoticed`).
- `SupportsAssociatedData` is true for chains that can never encode such data
  (`EncoderChains.SupportsIsNotEnough`).
- `escapeWriter.Write` counts bytes whose write failed.
- The bulk sender ignores a request to pause or cancel that answers a failed opening
  (`BulkSenders.StopsRun`).

## Model

| member | source | states |
|---|---|---|
| EvenOwnersFairness.ServesFewest | flextape/service/license.go:99-112 | when every owner's positions run from dequeued+1, one iteration of Promote serves the oldest request of an owner that has the fewest licences among all owners that wait |
| EvenOwnersFairness.PromoteFair | flextape/service/license.go:99-112 | after Promote, an owner that gained a licence holds at most one more than any owner that still waits, and queues are still in order |
| EvenOwnersFairness.PromoteOneOrdered | flextape/service/license.go:106-111 | serving the head of the sorted queue keeps each owner's positions consecutive |
| EvenOwnersFairness.EnqueueOrdered | flextape/service/license.go:75-83 | queueing keeps each owner's positions consecutive, through the sort |
| EvenOwnersFairness.StableSortInOrder | flextape/service/prioritizer.go:118-162 | the even-owners sort never reorders the requests of one owner |
| EvenOwnersFairness.KeyInOrder | flextape/service/prioritizer.go:118-162 | the unsigned sort key equals the place among the owner's requests plus the owner's licences, without wrap-around |
| Withdrawal.DropKeepsOrder | flextape/service/prioritizer.go:95-103 | removing unserved requests keeps positions consecutive if and only if each owner's requests leave oldest first |
| Withdrawal.ForgetOrder | flextape/service/license.go:191-212 | a withdrawal or release keeps positions consecutive if and only if it takes no request from behind an older one of the same owner |
| Withdrawal.ExpireQueuedOrder | flextape/service/license.go:138-149 | queue expiry keeps positions consecutive if and only if within each owner the silent requests are the oldest |
| Withdrawal.KeyAfterDrop | flextape/service/prioritizer.go:95-160 | in order or not, every unserved request that an owner loses takes one, modulo 2^64, from the key of each request the owner keeps; so it wraps around if and only if more are lost than the key says |
| Withdrawal.KeyWrapsExactlyWhen | flextape/service/prioritizer.go:160 | from an orderly licence, a kept key is one plus the older requests and the licences of its owner less the requests dropped, and wraps around if and only if that is negative |
| Withdrawal.KeyAfterForget | flextape/service/license.go:191-212 | a single withdrawal or release from an orderly licence never wraps a key around |
| Withdrawal.ExpireAllocationsOrder | flextape/service/license.go:122-134 | losing licences never disturbs the order |
| Withdrawal.AllocateOrder | flextape/service/license.go:87-95 | adopting a licence never disturbs the order |
| UnfairRuns.UnfairAfterWithdrawal | flextape/service/prioritizer.go:118-162 | a run from an empty licence, orderly up to its first withdrawal, in which withdrawing a newer request first lets an owner end two licences ahead of an owner that waits |
| UnfairRuns.KeyWrapsAround | flextape/service/prioritizer.go:160 | a run from an empty licence in which two withdrawals of newer requests make the unsigned key of the older one wrap to 2^64 - 1 |
| UnfairRuns.AdoptionDrifts | flextape/service/service.go:338-350 | a concrete run in which adopting a queued request leaves the licence counter at one for an owner that holds and awaits nothing |
| LicenseModel.EnqueueIndexed | flextape/service/prioritizer.go:90-93 | OnEnqueue keeps the counters equal to what the queue and the allocations hold, and the keys of position equal to the queued ids |
| LicenseModel.DequeueIndexed | flextape/service/prioritizer.go:95-103 | OnDequeue keeps that agreement, deletion of exhausted counters included |
| LicenseModel.AllocateIndexed | flextape/service/prioritizer.go:105-107 | OnAllocate keeps that agreement |
| LicenseModel.ReleaseIndexed | flextape/service/prioritizer.go:109-116 | OnRelease keeps that agreement |
| LicenseModel.ReleaseAllStep | flextape/service/license.go:122-134 | the released allocations may be reported in any order of the map |
| LicenseInvariant.PromoteConsistent | flextape/service/license.go:99-112 | Promote keeps ids unique across queue and allocations, the counters right and the allocations within the total |
| LicenseInvariant.EnqueueConsistent | flextape/service/license.go:75-83 | so does Enqueue, for an id that is new to the licence |
| LicenseInvariant.AllocateConsistent | flextape/service/license.go:87-95 | so does Allocate, for an id that is new to the licence |
| LicenseInvariant.ExpireAllocationsConsistent | flextape/service/license.go:122-134 | so does expiry of allocations |
| LicenseInvariant.ExpireQueuedConsistent | flextape/service/license.go:138-149 | so does expiry of queued requests |
| LicenseInvariant.ForgetConsistent | flextape/service/license.go:191-212 | so does Forget |
| LicenseInvariant.FilterSplits | flextape/service/queue.go:77-91 | a filter splits the queue: every entry, counted with multiplicity, is kept or removed, by whether it matches |
| Promotion.PromoteConserves | flextape/service/license.go:99-112 | Promote moves requests from queue to allocations without loss or duplication and stops only when the queue is empty or every licence is taken |
| Promotion.PromoteFIFO | flextape/service/license.go:99-112 | under FIFO the promoted requests are exactly the front of the queue, in order |
| Promotion.PromoteOldestFirst | flextape/service/license.go:99-112 | among one owner's requests those served are the oldest, in order |
| Promotion.StableSortOwnerQueue | flextape/service/prioritizer.go:118-162 | sorting leaves the requests of each owner in their order |
| Promotion.EnqueueSorts | flextape/service/license.go:75-83 | a new request stands last under FIFO; with even owners the queue is the stable sort by counters that include it |
| StableSorting.StableSortIsStable | flextape/service/queue.go:153-158 | the modelled sort is sorted by key and keeps entries of equal key in order |
| StableSorting.AnyStableSort | flextape/service/queue.go:153-158 | any result that is sorted and stable is this one, so the library's algorithm does not matter |
| InvocationQueues.InvocationQueue.Enqueue | flextape/service/queue.go:22-32 | appends the invocation, returns the length before, and sets its queue id to the id of the head (or 1) plus that length; the other ids, and the place each of them tells, stay |
| InvocationQueues.InvocationQueue.Dequeue | flextape/service/queue.go:37-46 | removes and returns the head with its queue id reset; all others keep theirs |
| InvocationQueues.InvocationQueue.Swap | flextape/service/queue.go:54-57 | exchanges two entries and their queue ids, so that every place of the queue keeps its id |
| InvocationQueues.InvocationQueue.Filter | flextape/service/queue.go:77-91 | keeps exactly the entries that do not match, each with its queue id less the number of entries removed before it, and returns the others in order, their ids untouched |
| InvocationQueues.InvocationQueue.Forget | flextape/service/queue.go:113-124 | removes every entry with the id, resets the queue id of each, renumbers the rest and returns the last one removed |
| InvocationQueues.InvocationQueue.Get | flextape/service/queue.go:129-133 | finds the first entry with the id and its 1-based place, modulo 2^32 |
| InvocationQueues.InvocationQueue.SortBy | flextape/service/queue.go:153-158 | sorts by swapping only; the result is the stable sort, and every place keeps its queue id |
| InvocationQueues.InvocationQueue.PositionIsPlace | flextape/service/queue.go:163-169 | while fewer than 2^32 entries queue, the ids count up from the head's by one modulo 2^64; with fewer than 2^64 requests since the queue was last empty no id is zero and the cached position is the place; in any queue it is the place modulo 2^32 if and only if the id is not the reserved zero or the place reads zero |
| QueuePositions.CachedPositionIsRank | flextape/service/queue.go:163-169 | for an id that agrees modulo 2^32 with the head's id plus the rank, the cached position equals the 1-based rank modulo 2^32 if and only if the id is not the reserved zero (or the rank itself reads zero) |
| QueuePositions.ShortQueuePosition | flextape/service/queue.go:163-169 | in a queue of fewer than 2^32 entries the cached position is the 1-based rank if and only if the number of the request, counted since the queue was last empty, is no multiple of 2^64 |
| QueuePositions.CachedPositionWraps | flextape/service/queue.go:163-169 | a head numbered 2^64 - 1 followed by a request whose id wraps to zero and which counts as not queued |
| Licenses.ManagedLicense.Enqueue | flextape/service/license.go:75-83 | refines the queueing of the value model, through hook and sort, and returns the cached position; one request is counted |
| Licenses.ManagedLicense.Allocate | flextape/service/license.go:87-95 | refines direct allocation: refuses when all licences are taken |
| Licenses.ManagedLicense.Promote | flextape/service/license.go:99-112 | the loop with its hooks does what the value model of Promote does, on which fairness and conservation are proved |
| Licenses.ManagedLicense.ExpireAllocations | flextape/service/license.go:122-134 | for any order of the map, drops exactly the silent holders and reports each to the prioritizer |
| Licenses.ManagedLicense.ExpireQueued | flextape/service/license.go:138-149 | drops exactly the silent requests and reports each |
| Licenses.ManagedLicense.Forget | flextape/service/license.go:191-212 | removes the id from allocations and queue, reports it, and returns how often it was found |
| FlextapeService.Server.Allocate | flextape/service/service.go:225-315 | the call on shared licence objects changes the state as the value model says and gives the same answer; only after 2^64 requests without an empty queue, or 2^32 at a time, may the position of a requeued request read 0; at most one request is counted for any licence |
| FlextapeService.Server.Refresh | flextape/service/service.go:319-365 | keeps a licence alive or adopts it, with the model's answer; no request is counted |
| FlextapeService.Server.Release | flextape/service/service.go:370-388 | forgets the id in every licence, in any order, and fails if it was nowhere |
| FlextapeService.Server.Janitor | flextape/service/service.go:193-209 | expires and promotes every licence, in any order, once the server is running |
| FlextapeService.Server.constructor | flextape/service/service.go:90-131 | a new server is in the starting state with its licences unused |
| FlextapeService.Server.AdoptionEnds | flextape/service/service.go:118-124 | only the state changes when the adoption period ends |
| ServiceInvariant.RunLimit | flextape/service/service.go:193-388 | over every run, whatever clients send and ids reused or adopted, allocations never exceed the total |
| ServiceInvariant.RunConsistent | flextape/service/service.go:193-388 | over every run with new generated ids and no adoption of a queued request, ids stay unique per licence and the prioritizer agrees with reality |
| ServiceInvariant.RefreshConsistent | flextape/service/service.go:319-365 | a refresh breaks consistency if and only if it adopts an invocation whose request is still queued and a licence is free |
| ServiceInvariant.JanitorLeavesNoneIdle | flextape/service/service.go:193-209 | after a running janitor every licence has an empty queue or no free licence |
| ServiceRuns.ReleaseStepOrdered | flextape/service/service.go:370-388 | a release keeps all even-owners queues in order if and only if it takes nothing from behind an older request of the same owner |
| ServiceRuns.RunOrdered | flextape/service/service.go:193-388 | order holds over every run in which requests leave oldest first |
| ServiceRuns.RunFair | flextape/service/license.go:99-112 | in every such run, an owner that gains a licence from the janitor is at most one ahead of every owner it leaves waiting |
| ServiceRuns.RunFairOnRequest | flextape/service/service.go:225-315 | the same for an owner that gains a licence because a request arrives: a running server promotes before it answers |
| LifeCycles.LifeCycle | flextape/service/service.go:193-388 | for every call or tick, every licence and every id: exactly what becomes of an invocation that is absent, waiting or holding, with its owner, build tag and last check-in, promotion alone leaving open which of those who wait are served |
| Keepalive.SweepOfHolder | flextape/service/license.go:122-134 | a running janitor keeps a holder, unchanged, if and only if it was heard of less than the allocation refresh duration ago |
| Keepalive.SweepOfWaiting | flextape/service/license.go:138-149 | after a running janitor a queued request is still queued, or served, if and only if it was heard of less than the queue refresh duration ago; else it is neither |
| Keepalive.KeepsPlace | flextape/service/service.go:193-388 | whoever, waiting or holding, calls less than the refresh duration of its status before each sweep is never forgotten over a run until released, and its last check-in is the time of its last call |
| Keepalive.KeepsLicense | flextape/service/service.go:319-365 | in particular a holder keeps its licence |
| Keepalive.SilentIsDropped | flextape/service/service.go:193-209 | a silent invocation is dropped by a sweep if and only if the refresh duration of its status is over, whatever others do, and stays away while silent |
| ServiceAnswers.RefreshAnswer | flextape/service/service.go:319-365 | a refresh succeeds if and only if the id holds the named licence afterwards, heard of just now; each of the four refusals has its exact condition and changes nothing |
| ServiceAnswers.RefreshDeadline | flextape/service/service.go:353-365 | the deadline of a successful refresh is exactly the first time at which a running janitor takes the licence, after any run in which the id is silent and was not yet dropped |
| ServiceAnswers.AllocateAnswer | flextape/service/service.go:241-315 | a request for a known licence is told whether its invocation holds or waits, with its rank, heard of just now; it is refused exactly if the id is unknown to a running server or none could be generated |
| ServiceAnswers.AllocateRefusal | flextape/service/service.go:231-240 | requests that name no licence, several or an unknown one change nothing |
| ServiceAnswers.AllocateDeadline | flextape/service/service.go:265-292 | its deadline is the first time at which a janitor takes the licence, its next poll time the first at which one drops the request, if it is silent and still waits |
| ServiceAnswers.ReleaseAnswer | flextape/service/service.go:370-388 | release succeeds if and only if the id waited or held anywhere, and leaves it nowhere |
| FirstCome.FirstComeFirstServed | flextape/service/license.go:99-112 | over every run of a running server with a FIFO licence, while an invocation waits nobody is served who was neither served nor in front of it before |
| FirstCome.RequestLeavesNoneIdle | flextape/service/service.go:241-260 | after a first request to a running server the queue is empty or every licence is taken |
| Targets.GetHashInternal | lib/bazel/target.go:286-314 | for any memo filled by earlier searches, terminates and returns the hash of the unfolded dependency tree, or an error exactly if there is none; the memo stays right |
| Targets.GetHash | lib/bazel/target.go:326-329 | the same from an empty chain |
| Targets.Target.ResolveDeps | lib/bazel/target.go:211-220 | links every dependency by name, or fails if and only if one does not exist |
| Targets.FillDependencies | lib/bazel/query.go:39-46 | links every target, in any order and behind what it was linked to before, or fails if and only if some dependency does not exist |
| Targets.TargetHashes | lib/bazel/query.go:22-37 | the hash of every target's tree, for any order of the map; an error if and only if a dependency is missing or some target reaches a cycle |
| TargetGraphs.UnfoldFailsOnCycles | lib/bazel/target.go:291-295 | the recursive unfolding has no result if and only if a dependency path leads to a cycle |
| TargetGraphs.UnfoldStep | lib/bazel/target.go:299-313 | a target unfolds to its own shallow hash and the trees of its dependencies |
| TargetGraphs.UnfoldMonotone | lib/bazel/target.go:291-312 | a tree found with more targets on the chain is the tree found with fewer, which is why memoised hashes may be reused |
| Affected.CalculateAffected | lib/bazel/affected_targets.go:321-333 | returns, sorted, exactly the targets whose hash is new or differs; fails if either snapshot fails |
| Affected.Diff | lib/bazel/target.go:438-448 | for any order of the map, exactly the names that are new or whose hash differs |
| Affected.UnchangedIsNotAffected | lib/bazel/affected_targets.go:321-333 | a target whose whole closure of shallow hashes and dependency lists is as before is never reported |
| Affected.AffectedExactly | lib/bazel/affected_targets.go:321-333 | with a collision-free node hash a target is reported if and only if it is new or unfolds to a different tree |
| Affected.AffectedByText | lib/bazel/affected_targets.go:321-333 | for any hash function that separates the two texts written for a target, it is reported if and only if the texts differ |
| Affected.ChangeIsAffected | lib/bazel/target.go:299-313 | if the own hash of a target changes, or the hash of one dependency, and nothing else, it is reported by any hash function that separates the two texts |
| DecimalNotation.DecimalExactly | lib/bazel/target.go:299-308 | the text written for a number is the one string of digits without superfluous zero that stands for it, so different numbers are written differently |
| Affected.DependentIsAffected | lib/bazel/affected_targets.go:321-333 | with a collision-free node hash, whoever depends by an unchanged list of names on a reported target is reported |
| Affected.HashesRunTogether | lib/bazel/target.go:299-308 | two different targets that no hash function tells apart, because decimal numbers are written without separators |
| Affected.RenamedDependencyUnnoticed | lib/bazel/target.go:299-308 | a target that now depends on another target of the same content is not reported |
| GangPromotion.PromoteIsGreedy | allocation_manager/service/queue.go:64-93 | although it removes entries from the queue it scans, Promote serves exactly the requests whose topology is known, was free and shares no unit with an earlier served one, and leaves the rest in order |
| GangPromotion.PromoteServes | allocation_manager/service/queue.go:64-93 | a request leaves the queue if and only if it is served, and then exactly its units change hands |
| GangPromotion.PromoteMaximal | allocation_manager/service/queue.go:64-93 | from any state, whatever is still queued names no known topology or one with a held unit |
| GangPromotion.PromoteTwice | allocation_manager/service/queue.go:64-93 | promoting again changes nothing |
| GangProofs.PromoteSound | allocation_manager/service/queue.go:64-93 | Promote keeps every gang whole and takes no unit from its holder |
| GangProofs.TakeAll | allocation_manager/service/unit.go:189-197 | free and distinct units are all taken |
| GangRuns.GangsAreWhole | allocation_manager/service/service.go:225-479 | in every state of every run from a start without holders, an id that holds a unit holds exactly the units of the one topology it asked for, and is not queued |
| GangRuns.RunSound | allocation_manager/service/service.go:225-479 | the invariant behind it holds over every run with new generated ids |
| GangRuns.StepKeepsUnit | allocation_manager/service/service.go:225-479 | a step takes a unit from its holder if and only if it is its release or a janitor that finds it silent |
| GangRuns.ExpireWhole | allocation_manager/service/unit.go:108-117 | expiry frees all units of a gang or none |
| GangRuns.ReleaseFreesGang | allocation_manager/service/service.go:463-479 | release frees exactly the units of the id, a whole gang, and does not touch the queue |
| GangRuns.TouchSound | allocation_manager/service/service.go:332-343 | one check-in counts for all units of the gang |
| GangRuns.RefusedRefreshCounts | allocation_manager/service/service.go:430-451 | a refused refresh still keeps a gang alive if and only if the first unit of the named topology is held under the id and another is not |
| GangRuns.NewRequestKept | allocation_manager/service/service.go:290-331 | a new request is served whole or queued; it is dropped if and only if its topology lists no units |
| GangRuns.JanitorMaximal | allocation_manager/service/service.go:225-242 | after every janitor no queued request could be served |
| GangLives.LifeCycle | allocation_manager/service/service.go:225-479 | for every call of a running manager and every id: exactly what becomes of an invocation that is absent, waiting or holding a gang |
| GangLives.RefreshReplies | allocation_manager/service/service.go:409-458 | a refresh succeeds if and only if the id holds every unit of the topology afterwards, heard of just now; nobody else is touched; each refusal has its exact condition |
| GangLives.RefreshDeadline | allocation_manager/service/service.go:225-242 | its deadline is exactly the first time at which a janitor frees the units, after any run in which the id is silent and was not yet dropped |
| GangLives.AllocateReplies | allocation_manager/service/service.go:290-405 | a call that is not turned down is told whether its invocation holds, and a unit of its gang, or waits, and its rank, heard of just now |
| GangLives.KeepsUnits | allocation_manager/service/service.go:225-458 | an id whose calls come less than the refresh duration before each janitor keeps exactly its units over every run until released, and its last check-in is its last call |
| AllocationManager.Unit.Allocate | allocation_manager/service/unit.go:69-78 | replaces the holder unless it is the same id |
| AllocationManager.Unit.ExpireAllocations | allocation_manager/service/unit.go:108-117 | frees the unit exactly if its holder is silent |
| AllocationManager.Unit.Forget | allocation_manager/service/unit.go:121-145 | frees the unit exactly if it is held under the id, and counts that |
| AllocationManager.Topology.Allocate | allocation_manager/service/unit.go:189-197 | takes units in order until one refuses; succeeds if and only if the units are distinct and none is held under the id |
| AllocationManager.Topology.CanBeAllocated | allocation_manager/service/unit.go:199-206 | true exactly if no unit is held |
| AllocationManager.Server.Matchmaker | allocation_manager/service/service.go:265-286 | for any order of the map, the known topology that the request names, if it is available or all are wanted |
| AllocationManager.Server.Promote | allocation_manager/service/queue.go:64-93 | the loop over shared, updated objects does what the value model of Promote does, and all units of a gang point to one invocation |
| AllocationManager.Server.Allocate | allocation_manager/service/service.go:290-405 | state and reply are those of the model, which of the units is reported being open |
| AllocationManager.Server.Refresh | allocation_manager/service/service.go:409-458 | state and reply are those of the model; a check-in through one unit is seen through all |
| AllocationManager.Server.Release | allocation_manager/service/service.go:463-479 | frees the gang; fails exactly if the id holds nothing |
| AllocationManager.Server.Janitor | allocation_manager/service/service.go:225-242 | expires in any order of the units, then promotes |
| MultiKeyProofs.RoundTrip | lib/token/multi.go:196-281 | a decoder that shares one keyholder with the encoder recovers exactly the data, whatever other keyholders either has, if that keyholder and the cipher undo themselves, wrong keys are rejected and no part is empty or too long |
| MultiKeyProofs.RecoversThrough | lib/token/multi.go:196-281 | the same whenever some receiver accepts one of the keys sent, shared keyholder or not |
| MultiKeyProofs.EncodedKeys | lib/token/multi.go:196-224 | each keyholder is sent the key encoded by itself, in order |
| MultiKeyProofs.RecoversExactlyWhen | lib/token/multi.go:237-281 | if wrong keys are rejected, decoding yields nothing but the data, and yields it if and only if the ciphertext is well sized, some key opens, and all keys up to it are well sized |
| MultiKeyProofs.DecodeOutcome | lib/token/multi.go:237-281 | for any ciphertext and any list of keys, the first key that is ill-sized or opens settles the outcome |
| MultiKeyProofs.FirstAccepts | lib/token/multi.go:246-270 | the data is what the first keyholder gets that decodes the key and makes a cipher that decodes the ciphertext |
| MultiKeyProofs.NobodyDecodes | lib/token/multi.go:237-281 | if no keyholder can open a well sized message, the outcome lists the failure of each of them at each key, in order, and no other |
| MultiKeyProofs.ParseFramed | lib/token/multi.go:238-244 | a framed part is parsed back if and only if it is neither empty nor longer than 2^31 - 1 bytes |
| MultiKeyProofs.EmptyPartHidesTheRest | lib/token/multi.go:196-224 | an empty part is encoded without complaint and nobody can read the message |
| MultiKeys.MultiKeyCryptoEncoder.Encode | lib/token/multi.go:196-224 | the loop writes the frames of the ciphertext and of the key for every keyholder, or returns the first error |
| MultiKeys.MultiKeyCryptoEncoder.Decode | lib/token/multi.go:237-281 | the nested loops end on every buffer and return what the recursive description says, notes and failures included |
| Varints.UvarintOfPut | lib/token/multi.go:203-206 | a length written as a varint is read back, whatever follows |
| Varints.UvarintFits | lib/token/multi.go:238 | a varint that is read fits 64 bits and lies within the buffer |
| Varints.UvarintExactly | lib/token/multi.go:238 | any buffer reads as the groups of seven bits up to its first byte without continuation bit; as nothing if it ends before, as an error if that makes more than 64 bits |
| EncoderChains.ChainUndoes | lib/token/token.go:128-179 | if each decoder undoes its encoder, the chain of decoders undoes the chain of encoders and reports the first soft error met |
| EncoderChains.ChainUndoesWith | lib/token/token.go:140-210 | the same with associated data, if the decoding chain supports it |
| EncoderChains.OverallError | lib/token/token.go:161-179 | a chain reports no error if and only if no member does |
| EncoderChains.ChainDecodes | lib/token/token.go:161-179 | on any data, honest or not, a chain does what its last decoder does and then what the rest does with the outcome; an error without data ends it, the first error counts |
| EncoderChains.EncodesExactlyWhenCarries | lib/token/token.go:140-159 | a chain can encode with associated data if and only if every chain in it, nested ones included, has an encoder for such data |
| EncoderChains.CarriesMeansSupports | lib/token/token.go:101-116 | whatever can encode with associated data claims to support it |
| EncoderChains.SupportsIsNotEnough | lib/token/token.go:101-116 | a chain that claims support although every call with associated data fails |
| ChainedEncoders.ChainedEncoder.Encode | lib/token/token.go:128-138 | the loop is the composition of the encoders, up to the first error |
| ChainedEncoders.ChainedEncoder.EncodeWithAssociatedData | lib/token/token.go:140-159 | the same with associated data; unsupported if no member took it |
| ChainedEncoders.ChainedEncoder.Decode | lib/token/token.go:161-179 | the loop runs the decoders backwards, keeps the first error and stops when data is gone |
| ChainedEncoders.ChainedEncoder.DecodeWithAssociatedData | lib/token/token.go:181-210 | the same with associated data; the data is withheld if the chain does not support it |
| TimeLimits.DatedToken | lib/token/time.go:43-175 | a dated and expiring token put through any lawful encoders gives back its full payload whenever it is read; the error is nil if and only if the clock is within both limits, in whole seconds, and otherwise says expired |
| TimeLimits.TimeUndoes | lib/token/time.go:88-104 | the payload always comes back; expired if and only if more than the validity passed since the whole second of issue, or that second is not positive |
| TimeLimits.ExpireUndoes | lib/token/time.go:137-175 | the payload always comes back; expired if and only if the clock is past the stored whole second, or that second is not positive |
| TimeLimits.TimeReads | lib/token/time.go:88-104 | on any data: no number in front is an error without data; else what follows is returned, without error exactly if the number is positive and within the validity |
| TimeLimits.ExpireReads | lib/token/time.go:162-175 | the same for an expiry |
| Varints.VarintOfPut | lib/token/time.go:43-49 | a signed number of seconds is read back, whatever follows |
| EscapeWriters.RoundTrip | bazel/go_extras/embed.go:300-339 | for every byte sequence and every way to split it into calls, the output read as an interpreted string literal is the input |
| EscapeWriters.UnitNext | bazel/go_extras/embed.go:303-336 | whatever is written for the next input bytes is one element of a literal that stands for just these bytes |
| EscapeWriters.EscapeWriter.Write | bazel/go_extras/embed.go:300-339 | writes the escaped input, or stops at the first failing write, whose bytes are counted as written |
| EscapeWriters.Injective | bazel/go_extras/embed.go:300-339 | different inputs are never written alike |
| Utf8.DecodeEncoded | bazel/go_extras/embed.go:328 | every character but the surrogates is decoded from its encoding, whatever follows |
| Utf8.EncodeDecoded | bazel/go_extras/embed.go:328 | a sequence that is decoded is the encoding of its character, so overlong forms and surrogates are refused |
| SharedSenderProofs.SessionsAreClosedOnce | lib/kemail/shared_sender.go:248-369 | in every interleaving at most one session is open, none is closed twice, and all are closed once the worker has exited |
| SharedSenderProofs.OneReplyEach | lib/kemail/shared_sender.go:225-238 | an accepted request gets exactly one reply, another none; only after a shutdown is anyone refused; nobody is left waiting by an exited worker |
| SharedSenderProofs.AnswersAreFinal | lib/kemail/shared_sender.go:225-238 | an answer or a refusal never changes |
| SharedSenderProofs.AnswersAreTrue | lib/kemail/shared_sender.go:325-367 | in every run a client is told success only if its message was sent, and else the error of its own send or of the dial made for it |
| SharedSenderProofs.SessionEnds | lib/kemail/shared_sender.go:248-369 | an open session ends exactly when a send fails, it was idle too long, or the worker exits; every request finds it open |
| SharedSenderProofs.DialsAsSoonAsAllowed | lib/kemail/shared_sender.go:325-332 | the worker may dial exactly from the first time at which the wait is over since every attempt |
| SharedSenderProofs.DialsAreApart | lib/kemail/shared_sender.go:325-333 | dial attempts, failed ones included, start at least the wait apart |
| SharedSenderProofs.IdleCloseIsDue | lib/kemail/shared_sender.go:314-319 | an idle close happens only after the full idle timeout since the last use and since every send that succeeded; no stale timer value causes one |
| SharedSenderProofs.IdleSessionIsTimed | lib/kemail/shared_sender.go:272-289 | an open session in no use has a running timer or one that has fired |
| SharedSenderProofs.CanSettle | lib/kemail/shared_sender.go:240-246 | no deadlock: after a shutdown request the worker can exit and every client be answered, from every reachable state |
| SharedSenderProofs.RunKeeps | lib/kemail/shared_sender.go:248-369 | the invariant behind these holds over every run |
| SharedSenderWorkers.SharedSenderWorker.StopIdle | lib/kemail/shared_sender.go:258-270 | stops the timer and empties its channel |
| SharedSenderWorkers.SharedSenderWorker.ResetIdle | lib/kemail/shared_sender.go:272-289 | rearms the timer for an open session |
| SharedSenderWorkers.SharedSenderWorker.Handle | lib/kemail/shared_sender.go:321-367 | the request case is a sequence of steps of the system, with any steps of clients, clock and shutdown while the worker waits, dials and sends; returns, and tells the client, the dial error or the result of sending |
| SharedSenderWorkers.SharedSenderWorker.Serve | lib/kemail/shared_sender.go:248-369 | the loop, for any sequence of ready cases and any interleaving of the others' steps, is a run of the system |
| SharedProviders.SharedSenderProvider.WorkerFor | lib/kemail/shared_sender.go:404-422 | one worker for each identity while the provider is open; none for an outdated factory |
| SharedProviders.SharedSenderProvider.Close | lib/kemail/shared_sender.go:48-69 | every worker ever started is told to stop, none is registered, and the generation changes |
| BulkSenders.Send | lib/kemail/sender.go:276-407 | over a permutation of the recipients: when finished each was skipped or got exactly one message; always nobody got two, failures stay within the limit, giving up means the limit was reached, every sender is closed once, used only while open and never after a failure, and opened only first or after a failure; openings are spaced; the callback is told of every success and failure once, and the run pauses, cancels, skips or ends for want of a message exactly as asked |
| BulkSenders.SendTo | lib/kemail/sender.go:340-405 | the attempts for one recipient: bounded failures and at most one delivery |
| BulkSenders.Try | lib/kemail/sender.go:359-404 | one attempt over an open sender skips, delivers after the pause, fails or stops as the callback and the outcome say |
| BulkSenders.WaitForRetry | lib/kemail/sender.go:572-587 | returns at a time at least the wait after the last attempt |
| BulkSenders.Shuffle | lib/kemail/sender.go:284-290 | exchanging elements in place leaves a permutation |
| KeyCodecs.DecodeEncoded | lib/config/key_codec.go:58-99 | decoding undoes encoding for all byte strings |
| KeyCodecs.EncodedIsSafe | lib/config/key_codec.go:58-75 | encoded keys hold no slash and no NUL, and no other byte is added or lost but hexadecimal digits and percent signs |
| KeyCodecs.EncodesOnlySpecial | lib/config/key_codec.go:58-75 | a key is its own encoding if and only if it has no slash, percent sign or NUL |
| KeyCodecs.DecodesOnlyEscapes | lib/config/key_codec.go:78-99 | a text is its own decoding if and only if it holds no percent sign with two hexadecimal digits behind it |
| KeyCodecs.DecodesEscape | lib/config/key_codec.go:78-99 | the first escape stands for the byte that its two digits, in either case, denote |
| KeyCodecs.Encode | lib/config/key_codec.go:58-75 | the index loop computes the encoding |
| KeyCodecs.Decode | lib/config/key_codec.go:78-99 | the index loop decodes every escape and leaves other percent signs alone |
| StorePaths.StaysBelowRoot | lib/config/path.go:133-185 | for every input, an accepted path keeps the root's application and namespaces and adds only proper segments; the final segment check never fires |
| StorePaths.PathRoundTrip | lib/config/path.go:133-185 | namespaces, key and format are found again from the path made of them if and only if it does not begin with a home directory |
| StorePaths.BareKeyRoundTrip | lib/config/path.go:160-170 | a key without extension, below namespaces or directly below the root, is found again if and only if it has no dot and the path does not begin with a home directory |
| StorePaths.ResolveProper | lib/config/path.go:133-185 | what each already clean path resolves to, errors included |
| StorePaths.ResolvesExactly | lib/config/path.go:133-185 | what any path resolves to in terms of its cleaned segments, every error included |
| StorePaths.CleanKeepsMeaning | lib/config/path.go:147-150 | from every directory the cleaned path leads where the given one does |
| StorePaths.CleanPartsCleaned | lib/config/path.go:147-150 | cleaning leaves only leading ".." segments followed by proper ones |

## Left out

- gRPC, protobuf, metrics, logging, status reports, configuration parsing and real
  tickers: each call under a mutex is one step, time is a parameter.
- Generation of ids: the new id is a parameter, and its being new a hypothesis.
- `FlextapeService.Server.Allocate`: once 2^64 requests came without an empty queue, or
  2^32 were queued at a time, the position of a requeued request may read 0; when it
  does is said by `QueuePositions.CachedPositionIsRank`, not by this contract.
- `FlextapeService.Server.constructor`: default durations and the building of licences
  from the configuration; it takes unused licences that share no object.
- `InvocationQueues.InvocationQueue.Filter`: removed entries are reported to the
  prioritizer after the filter, in queue order, not from within its callback; the
  callback reads nothing that the filter changes.
- `InvocationQueues.InvocationQueue.SortBy`: an insertion sort by adjacent swaps stands
  for Go's `sort.Stable`; any stable sort gives the same result.
- Queues of 2^63 or more entries, which no Go slice has. The number of licences bought
  is at most 2^32 - 1, as in the configuration.
- `Targets.TargetHashes`: for snapshots as a query returns them, with nothing hashed
  before. How shallow hashes are made from attributes and files is not modelled, nor
  is the filter that selects which affected targets to print.
- The start-up of the allocation manager: runs start in the running state. Adoption
  may overwrite holders, and gives each unit an invocation of its own. The manager's
  queue ids and its unused prioritizer are copies of flextape's.
- `AllocationManager.Server.Allocate`: requeueing during start-up; units are a set of
  objects, not a map by host name, and the host reported is identified by its unit.
- `AllocationManager.Server.Refresh`: adoption during start-up.
- `AllocationManager.Server.Janitor`: that it does nothing during start-up.
- `AllocationManager.Server.Promote`: states that adoption can leave behind, in which
  gangs are torn or a holder's id is queued.
- `MultiKeys.MultiKeyCryptoEncoder.Decode`: an error lists the failures as data, not
  as text; when a keyholder returns no key without an error, the random key that the
  factory then makes is the same in every attempt.
- `TimeLimits.DatedToken`: times and durations are unbounded; Go's overflow in adding a
  duration to a time is not modelled.
- The type encoder, base-64 and the concrete ciphers of lib/token.
- `EscapeWriters.EscapeWriter.Write`: the writer below accepts a piece or none of it.
- `SharedSenderProofs.DialsAreApart`: clocks do not go back, do not read the zero time,
  and sleeping takes at least as long as asked.
- `SharedSenderProofs.CanSettle`: a schedule that settles exists from every state; that
  the scheduler is fair enough to follow one is not stated.
- `SharedSenderWorkers.SharedSenderWorker.Handle`: rewriting of recipients and errors
  from closing a session, which are logged, are not modelled. A dialer returns a
  session or an error, not both.
- `SharedProviders.SharedSenderProvider.Close`: that it waits for the workers to exit
  and collects their errors; identities and factories are parameters.
- `BulkSenders.Send`: the number of failing attempts is finite, as the code retries for
  ever otherwise when attempts are unlimited; a message is known by its recipient's
  index, and labels and progress counters are not modelled.
- `StorePaths.StaysBelowRoot`: trimming of white space is an arbitrary function;
  cleaning is Go's path.Clean on relative paths.
- Native path parsers of stores and the other clients, front ends and tools of the
  repository.
