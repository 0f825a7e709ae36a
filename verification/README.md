# LightCone adaptation core: a verified model

The `adaptation` package of LightCone governs online drafter adaptation: which
cohort holds which fixed slab of device memory, which candidate update may be
published and when, how optimizer state advances, which version each token of
drafter KV was produced by, which parameters a plan trains, and whether a
request fits in the memory of every rank. This project models those state
machines and proves what they keep over every run.

`dafny verify dfyconfig.toml` checks the whole project.

## Layout

| file | what it holds |
|---|---|
| `SlabModel`, `SlabInvariants`, `SlabEffects`, `SlabReclamation`, `SlabRuns`, `SlabRoundTrips`, `SlabManager` | the fixed-slab cohort pool: its operations as functions on pools, what they keep, their effects field by field, exact reclamation, pins along a run, inverses, and the class `BoundedCohortStateManager` |
| `Publication`, `SignalBatch`, `CohortProtocol`, `CohortSafety`, `CohortRuntime` | the publication protocol of one cohort: boundary arithmetic, the latest-signal batch, the state machine with its history, its safety, and the classes `LatestSignalBatch` and `CohortRuntime` |
| `Moments`, `OptimizerModel`, `OptimizerHistory`, `OptimizerBounds`, `OptimizerTrajectory`, `OptimizerMatrices`, `OptimizerLaws`, `GPUOptimizer` | optimistic propose and commit over optimizer state, the linear history behind it, moment bounds, where the parameters go, what the parts compute, and the class `GPUOptimizer` |
| `KVHistory` | the run-length index of drafter-KV versions against the flat sequence |
| `ParameterPlans`, `ParameterNames`, `PlanSelection`, `PlanTheorems`, `PlanRefusals`, `PlanBuilder`, `MemoryPrediction` | parameter selectors, what their names and selections mean, what they guarantee and exactly when a build fails, their build loops, and byte prediction |
| `HBMAdmission` | all-rank memory admission |
| `Topology` | the GPU topology matrix and its check |
| `Orders`, `Decimals`, `Shapes`, `Wrappers` | sorting by a total order, numerals, tensor sizes, option and result |

Each class carries a ghost record of the calls made on it, and its `Valid()`
says that its fields are where a run of the specification functions leads. The
theorems about runs are lemmas over those functions, so they hold of every
object whatever was called on it (`AlwaysSound` in each class).

## What the code does not do

Six promises that a reader might expect turn out false of the code. Each is
stated as it is, with an input at which it fails and the exact condition, one
that a caller can read before the call.

- The strict tenant quota is not kept by `restore_cold`, which does not look at
  the quota. `SlabRuns.StrictQuotaFails` is a run of four calls that exceeds it;
  `SlabInvariants.StrictQuotaStep` says that a step breaks it if and only if it
  asks, with transfers enabled, ordered times and a slab free, for an offloaded
  state of a tenant already at its quota. What does hold in every
  reachable pool is quota plus host tier (`SlabInvariants.ReachableSafety`).
- `reclaim_lru(count)` may free fewer slabs than it removes states. At
  `SlabRuns.LruFreesNothing` it removes one state and frees nothing;
  `SlabReclamation.LruSlabsFreed` says that the two agree if and only if every offloaded
  state has at least `count` inactive states ahead of it.
- Muon's predicted second-moment bytes are exactly twice what is allocated
  (`MemoryPrediction.PredictionCoversAllocation`), so they are right if and only
  if every entry trained whole is a matrix (`MemoryPrediction.MuonChargeExact`);
  for one vector of one element, eight bytes are charged and four allocated
  (`MemoryPrediction.MuonOvercharge`).
- The DSpark guard on the acceptance projection admits a tensor of zero
  dimensions, and the hybrid build then fails on that tensor's entry
  (`PlanRefusals.ZeroDimensionalAcceptance`, and `PlanRefusals.FlatAcceptance` at
  one list). Past its guards a hybrid build succeeds if and only if every head
  and every eligible parameter has a name and positive dimensions
  (`PlanRefusals.HybridBuildable`).
- A layer-only DSpark build can fail on its own assertion that heads stay frozen:
  past the guards, if and only if every eligible parameter has a name and
  positive dimensions and some native head is itself eligible, lying in a
  selected layer (`PlanRefusals.HeadSelectedExactly`, and
  `PlanRefusals.HeadInLayer` at one list). A malformed eligible parameter fails
  earlier, in the selection loop.
- Empty topology output passes the check when no device was counted
  (`Topology.Check`).

## Model

| member | source | states |
|---|---|---|
| `SlabInvariants.ReachableSafety` | src/lightcone_spec/adaptation/governor.py:416-687 | In every pool reachable by any sequence of the nine operations, free and held slab ids are disjoint and together exactly 0..capacity-1, held ids are pairwise distinct, a state is offloaded iff it holds no slab, the host tier is within its bound, pinned states are resident, and each tenant's states are at most its quota plus the host tier |
| `SlabInvariants.StepKeeps` | src/lightcone_spec/adaptation/governor.py:448-687 | Every operation with any arguments keeps that invariant |
| `SlabInvariants.CapacityGuardsCollapse` | src/lightcone_spec/adaptation/governor.py:481-486 | Under the invariant the three capacity guards of admission hold iff no slab is free |
| `SlabInvariants.StrictQuotaWithoutOffload` | src/lightcone_spec/adaptation/governor.py:395-409 | With offload disabled a tenant's residents never exceed its quota, over every run |
| `SlabInvariants.StrictQuotaStep` | src/lightcone_spec/adaptation/governor.py:654-687 | A step keeps the strict quota iff it is not a restore, with transfers enabled, ordered times and a slab free, of an offloaded state whose tenant is already at its quota |
| `SlabRuns.StrictQuotaFails` | src/lightcone_spec/adaptation/governor.py:670-678 | Admit, offload, admit, restore leaves a tenant of quota one with two residents |
| `SlabReclamation.LruExact` | src/lightcone_spec/adaptation/governor.py:594-615 | LRU reclamation cannot fail part-way. It reports exactly min(count, inactive) inactive states, each once with its slab, reason and time, ordered by last use, then creation, then tenant, cohort and replica, every one before every inactive state it leaves; it removes and frees just those |
| `SlabReclamation.LruSlabsFreed` | src/lightcone_spec/adaptation/governor.py:594-615 | It frees one slab per resident victim, so as many slabs as it removes states iff every offloaded state has at least count inactive ones ahead of it |
| `SlabReclamation.VictimExactly` | src/lightcone_spec/adaptation/governor.py:602-615 | An inactive state is a victim iff fewer than count inactive states were used before it, or at the same time but created before it, or then come before it by key |
| `SlabRuns.LruFreesNothing` | src/lightcone_spec/adaptation/governor.py:594-615 | After an admission and an offload, reclaiming one state by LRU removes it and frees no slab |
| `SlabReclamation.ExpiryExact` | src/lightcone_spec/adaptation/governor.py:569-592 | Expiry cannot fail part-way. It removes exactly the inactive states whose last use lies at least one time to live back, leaves every other state as it was, frees just their slabs, and reports each once, by last use and then by key |
| `Orders.StringLeqExactly` | src/lightcone_spec/adaptation/governor.py:582-587 | The order on names is the alphabetical one: a prefix comes first, else the smaller character where two names first differ |
| `SlabReclamation.ExpireTwice` | src/lightcone_spec/adaptation/governor.py:569-592 | Expiring at t1 and then at a later t2 leaves the pool of expiring at t2 alone and reclaims the same states in the same order |
| `SlabRuns.StateLedger` | src/lightcone_spec/adaptation/governor.py:504-542 | Along any run a state survives, through offloads and restores: pins change by acquires minus releases, the version by the number of publications, last use never goes back, creation never moves |
| `SlabRuns.PinsSinceAdmission` | src/lightcone_spec/adaptation/governor.py:487-542 | From its admission on, a state's pin count is exactly its acquires minus its releases and its version the admitted one plus its publications |
| `SlabRuns.PinsOfEveryState` | src/lightcone_spec/adaptation/governor.py:448-542 | Every state of every reachable pool has a last admission in its run, and its pins, version and creation time are those of that admission plus the acquires, releases and publications since |
| `SlabRuns.PinStability` | src/lightcone_spec/adaptation/governor.py:557-558 | While its pin count stays positive a state stays resident on one slab, whatever else is called |
| `SlabRuns.PinnedStays` | src/lightcone_spec/adaptation/governor.py:544-615 | No operation removes a pinned state |
| `SlabRuns.StepOnState` | src/lightcone_spec/adaptation/governor.py:504-687 | What one operation can do to a state it leaves in place: pins and version move only by the successful call that names them, a pinned state keeps its slab |
| `SlabRoundTrips.AdmissionExact` | src/lightcone_spec/adaptation/governor.py:472-502 | A new state is admitted iff its tenant is known and below quota and a slab is free; it gets the lowest free slab and only that slab leaves the free set |
| `SlabEffects.AdmissionReasons` | src/lightcone_spec/adaptation/governor.py:455-502 | Each of the six answers of an admission is given iff its condition on the pool holds, and it shows the state as it then is |
| `SlabEffects.AdmissionEffect` | src/lightcone_spec/adaptation/governor.py:459-502 | An admission changes one state alone: a resident one only in its later use; a new one is unpinned, created and used now, with the given version, on a slab from the free ones |
| `SlabEffects.AcquireEffect` | src/lightcone_spec/adaptation/governor.py:504-513 | Succeeds iff the state is resident; adds one pin, takes the later time of use, changes nothing else, and shows the result with its deadline |
| `SlabEffects.ReleaseEffect` | src/lightcone_spec/adaptation/governor.py:515-524 | Succeeds iff the state is pinned; takes one pin away, with the later time of use and nothing else |
| `SlabEffects.PublishEffect` | src/lightcone_spec/adaptation/governor.py:526-542 | Succeeds iff the state is resident at the source version and the new one is the next; moves the version by one, with the later time of use and nothing else |
| `SlabEffects.ReclaimEffect` | src/lightcone_spec/adaptation/governor.py:554-567 | Removes the state, frees the slab it held if any, and reports both |
| `SlabEffects.OffloadEffect` | src/lightcone_spec/adaptation/governor.py:617-652 | Succeeds iff enabled, in time order, inactive, resident and within the host tier; frees the slab and reports it with all bytes and both times |
| `SlabEffects.RestoreEffect` | src/lightcone_spec/adaptation/governor.py:654-687 | Succeeds iff enabled, in time order, offloaded and a slab is free; takes the lowest one and reports it with all bytes and both times |
| `SlabRoundTrips.AdmitThenReclaim` | src/lightcone_spec/adaptation/governor.py:487-567 | Reclaiming what was just admitted restores the pool exactly |
| `SlabRoundTrips.AcquireThenRelease` | src/lightcone_spec/adaptation/governor.py:504-524 | A release after an acquire leaves nothing but the time of last use |
| `SlabRoundTrips.OffloadThenRestore` | src/lightcone_spec/adaptation/governor.py:617-687 | A restore after an offload cannot fail for want of a slab, keeps everything but slab and last use, and returns the same slab iff no lower one was free |
| `SlabManager.BoundedCohortStateManager.Create` | src/lightcone_spec/adaptation/governor.py:385-417 | A manager is built iff capacity, slab size and time to live are positive, there are quotas, each of a canonical tenant and between one and the capacity, and the host tier is non-empty exactly when offload is enabled |
| `Orders.CanonicalExactly` | src/lightcone_spec/adaptation/governor.py:404-405 | An identifier is canonical iff it is not empty and stripping leaves it as it is |
| `SlabManager.BoundedCohortStateManager.AlwaysSound` | src/lightcone_spec/adaptation/governor.py:372-373 | Every manager, whatever was called on it, satisfies the pool invariant |
| `SlabManager.BoundedCohortStateManager.Admit` | src/lightcone_spec/adaptation/governor.py:448-502 | The new pool and the decision with its reason and snapshot are those of the admission function; errors and refusals change nothing |
| `SlabManager.BoundedCohortStateManager.Acquire` | src/lightcone_spec/adaptation/governor.py:504-513 | Pins a resident state; a missing or cold one is an error that changes nothing |
| `SlabManager.BoundedCohortStateManager.Release` | src/lightcone_spec/adaptation/governor.py:515-524 | Unpins a pinned state; otherwise an error that changes nothing |
| `SlabManager.BoundedCohortStateManager.PublishVersion` | src/lightcone_spec/adaptation/governor.py:526-542 | Moves a resident state from its version to the next; otherwise an error that changes nothing |
| `SlabManager.BoundedCohortStateManager.Reclaim` | src/lightcone_spec/adaptation/governor.py:544-567 | Removes an inactive state and frees the slab it held, if any |
| `SlabManager.BoundedCohortStateManager.ReclaimExpired` | src/lightcone_spec/adaptation/governor.py:569-592 | Sorting and reclaiming one by one equals evicting the expired states at once; no reclamation of the loop fails |
| `SlabManager.BoundedCohortStateManager.ReclaimLru` | src/lightcone_spec/adaptation/governor.py:594-615 | Sorting and reclaiming the first ones equals evicting them at once; no reclamation of the loop fails |
| `SlabManager.BoundedCohortStateManager.OffloadCold` | src/lightcone_spec/adaptation/governor.py:617-652 | Moves an inactive resident state to the host tier within its bound and frees its slab |
| `SlabManager.BoundedCohortStateManager.RestoreCold` | src/lightcone_spec/adaptation/governor.py:654-687 | Moves an offloaded state onto the lowest free slab |
| `SlabManager.ReclaimChain` | src/lightcone_spec/adaptation/governor.py:589-592 | Reclaiming distinct inactive states in any listed order succeeds at every step and evicts exactly them |
| `Publication.NextBoundaryLeast` | src/lightcone_spec/methods/core.py:130-131 | The fixed barrier is the least multiple of the stride after the source round |
| `Publication.PublicationOrder` | src/lightcone_spec/methods/core.py:114-131 | First-ready publishes exactly at readiness plus delay; the barrier never precedes it and, where it postpones, lands on a multiple at most one stride after the source |
| `Publication.PublicationExactly` | src/lightcone_spec/methods/core.py:114-131 | A round is late enough iff the policy is not static, readiness plus delay has come and, for the barrier, some multiple of the stride after the source has passed |
| `Publication.CandidateUpdate.constructor` | src/lightcone_spec/methods/core.py:24-57 | A candidate carries the rounds and counters it was built with and is numerically valid |
| `SignalBatch.FoldIsFirstGreatest` | src/lightcone_spec/adaptation/cohort.py:99-106 | The batch holds an entry for exactly the requests offered, and it is the first offer with the greatest sequence number |
| `SignalBatch.OfferOrderIrrelevant` | src/lightcone_spec/adaptation/cohort.py:99-106 | Offers with distinct sequence numbers per request may be permuted |
| `SignalBatch.DrainOrderIrrelevant` | src/lightcone_spec/adaptation/cohort.py:108-118 | Two batches that received such offers in different orders drain alike |
| `SignalBatch.DrainedSorted` | src/lightcone_spec/adaptation/cohort.py:108-118 | A drain hands out every entry once, sorted by request |
| `SignalBatch.Weight` | src/lightcone_spec/adaptation/cohort.py:118 | The weights of a non-empty batch sum to one |
| `SignalBatch.FoldWithout` | src/lightcone_spec/adaptation/cohort.py:120-121 | Discarding a request leaves the batch of the offers of the others |
| `SignalBatch.LatestSignalBatch.Offer` | src/lightcone_spec/adaptation/cohort.py:99-106 | Refuses another cohort's signal without change; otherwise the batch stands for one more offer, and the answer says whether it replaced the entry |
| `SignalBatch.LatestSignalBatch.Drain` | src/lightcone_spec/adaptation/cohort.py:108-118 | Returns the sorted entries and their weight and forgets all offers |
| `SignalBatch.LatestSignalBatch.DiscardRequest` | src/lightcone_spec/adaptation/cohort.py:120-121 | Forgets the offers of one request and no others |
| `CohortSafety.StepKeeps` | src/lightcone_spec/adaptation/cohort.py:146-316 | Every event keeps: the candidate in flight carries the live epoch, version, slot, buffer and optimizer generations, was begun last and is not terminated; version equals optimizer generation, slot equals buffer generation and is at least the epoch; disabled means nothing in flight; buffered signals belong to this epoch and are never newer than the live version and slot |
| `CohortSafety.RunKeeps` | src/lightcone_spec/adaptation/cohort.py:124-316 | So does every run |
| `CohortSafety.CandidateConservation` | src/lightcone_spec/adaptation/cohort.py:155-316 | Over any run candidates begun = published + discarded + in flight, none is terminated twice, and none that ended is in flight |
| `CohortSafety.PublicationChain` | src/lightcone_spec/adaptation/cohort.py:222-255 | For every epoch its publications form a gap-free chain, the k-th publishing version k from version k-1; the current epoch's is as long as the live version |
| `CohortSafety.PublishExactly` | src/lightcone_spec/adaptation/cohort.py:179-220 | In a reachable state the five stale verdicts and the numerical one are never given; publication is authorized iff stride and delay are legal, the candidate is the one in flight, the policy is not static, the round has reached readiness plus delay and, for the fixed barrier, a multiple of the stride after the source round |
| `CohortSafety.WaitingExactly` | src/lightcone_spec/adaptation/cohort.py:190-219 | Each other verdict is given iff its condition on the rounds holds: not in flight, not ready, static, within the delay, before the barrier |
| `CohortSafety.IllegalExactly` | src/lightcone_spec/adaptation/cohort.py:188-213 | An illegal stride is always an error, an illegal delay iff a boundary would have to be computed |
| `CohortSafety.OfferExactly` | src/lightcone_spec/adaptation/cohort.py:146-153 | A signal is taken iff the cohort is enabled, its pair is the live one, it is of this cohort and newer than its request's; it then stands for its request and nothing else changes |
| `CohortSafety.ReadinessMonotone` | src/lightcone_spec/adaptation/cohort.py:204-220 | An authorized candidate stays authorized at every later round, and under first-ready publication |
| `CohortSafety.CommitCannotFailLate` | src/lightcone_spec/adaptation/cohort.py:238-280 | Once a commit has moved its counters, terminating the candidate cannot fail |
| `CohortSafety.PairAdvances` | src/lightcone_spec/adaptation/cohort.py:247-309 | The pair (slot generation, version) never goes back and strictly increases, lexicographically, at every commit, cancellation and reset |
| `CohortSafety.StaleSignalRefused` | src/lightcone_spec/adaptation/cohort.py:146-153 | A signal tagged with a superseded pair is refused for ever after |
| `CohortSafety.NoReuse` | src/lightcone_spec/adaptation/cohort.py:293-309 | Whatever was tagged with the live pair is refused for ever after the next commit, cancellation or reset, although a reset returns the version to zero |
| `CohortRuntime.CohortRuntime.AlwaysSound` | src/lightcone_spec/adaptation/cohort.py:124-140 | Every runtime, whatever was called on it, satisfies the protocol invariant |
| `CohortRuntime.CohortRuntime.OfferSignal` | src/lightcone_spec/adaptation/cohort.py:146-153 | Accepts iff enabled, live version and slot, own cohort and newer than what the request has; then the signal stands for its request, otherwise nothing changes |
| `CohortRuntime.CohortRuntime.BeginCandidate` | src/lightcone_spec/adaptation/cohort.py:155-177 | Succeeds iff enabled, nothing in flight, a payload, and rounds in order; the candidate is a new object with the live counters and nothing else changes; an error says which and changes nothing |
| `CohortRuntime.CohortRuntime.Commit` | src/lightcone_spec/adaptation/cohort.py:222-255 | Succeeds iff legal, in flight, not static, delay over and barrier passed; then version and optimizer generation are one more and the candidate is terminated as published with that version; otherwise the refusal is the verdict and nothing changes |
| `CohortRuntime.CohortRuntime.Terminate` | src/lightcone_spec/adaptation/cohort.py:257-280 | Refuses a candidate already terminated, not in flight or without a reason, changing nothing; otherwise records the termination and clears the flight |
| `CohortRuntime.CohortRuntime.Discard` | src/lightcone_spec/adaptation/cohort.py:282-291 | Succeeds iff the candidate is in flight and a reason is given |
| `CohortRuntime.CohortRuntime.CancelRequest` | src/lightcone_spec/adaptation/cohort.py:293-298 | Never fails; discards what is in flight, forgets the request's signal alone, advances slot and buffer generations, keeps the version |
| `CohortRuntime.CohortRuntime.Reset` | src/lightcone_spec/adaptation/cohort.py:300-309 | Never fails; a new epoch with an empty batch, version zero and the next slot and buffer generations |
| `CohortRuntime.CohortRuntime.Disable` | src/lightcone_spec/adaptation/cohort.py:311-316 | Fails iff no reason is given; otherwise discards what is in flight and records the reason |
| `CohortRuntime.CohortRuntime.DrainSignals` | src/lightcone_spec/adaptation/cohort.py:108-118 | Draining the runtime's batch hands out its signals sorted by request with their weight, and empties it |
| `OptimizerHistory.LinearHistory` | src/lightcone_spec/adaptation/optimizer.py:211-507 | After any interleaving of proposals and commits, foreign ones included, the state is the fold of the transition over the committed inputs alone, the step is their number, and ChronoBelief's boundary is its initial value plus that number |
| `OptimizerHistory.OneCommitPerBase` | src/lightcone_spec/adaptation/optimizer.py:449-507 | Every committed proposal was computed from exactly the state it replaced, and the n-th commit is the one whose base is the state after n commits |
| `OptimizerHistory.LoserRefused` | src/lightcone_spec/adaptation/optimizer.py:457-458 | A proposal whose base state has been committed over is refused with a step conflict, and changes nothing, after every continuation of the run |
| `OptimizerHistory.CommitIsNext` | src/lightcone_spec/adaptation/optimizer.py:490-507 | Copying an admissible proposal into the active state is the transition from that state |
| `OptimizerHistory.NextLaidOut` | src/lightcone_spec/adaptation/optimizer.py:102-123 | No update changes the layout of masters and moments |
| `OptimizerBounds.ClippedBound` | src/lightcone_spec/adaptation/optimizer.py:259-269 | Clipping bounds every coordinate by the clip value |
| `OptimizerBounds.ClippedNorm` | src/lightcone_spec/adaptation/optimizer.py:259-269 | Clipping bounds the joint norm of all gradients by the clip value |
| `OptimizerBounds.MomentsAreFolds` | src/lightcone_spec/adaptation/optimizer.py:385-447 | After any history the moments at a coordinate are the exponential averages of the gradients committed there and of nothing else |
| `OptimizerBounds.MomentBounds` | src/lightcone_spec/adaptation/optimizer.py:385-447 | After any run whose applied gradients at a coordinate are at most G in magnitude: the bias-correction denominators are positive, the corrected first moment is at most G in magnitude, and the corrected second moment lies in [0, G²], for ChronoBelief in [0, 4·beta1²·G²] |
| `OptimizerBounds.ClippedMomentBounds` | src/lightcone_spec/adaptation/optimizer.py:259-269 | With clipping at G those bounds hold for every gradient a caller can pass |
| `OptimizerBounds.InitialZeroMoments` | src/lightcone_spec/adaptation/optimizer.py:111-124 | Every optimizer starts with zero moments, as those bounds require |
| `OptimizerBounds.ConstantGradient` | src/lightcone_spec/adaptation/optimizer.py:429-443 | Under a constant applied gradient the corrected first moment is that gradient at every step |
| `OptimizerBounds.DecoupledIsCoupled` | src/lightcone_spec/adaptation/optimizer.py:181-209 | The decoupled AdamW update equals the coupled branch at every coordinate |
| `OptimizerBounds.MuonWithoutMatrices` | src/lightcone_spec/adaptation/optimizer.py:333-383 | On parameters none of which is a matrix, Muon is AdamW with the auxiliary rate and decay: every history leads to the same state |
| `OptimizerTrajectory.Descent` | src/lightcone_spec/adaptation/optimizer.py:276-447 | After any history of any of the eight optimizers, a parameter is its start value minus the sum over the commits of scheduled rate times direction; the direction is stated in the committed gradients: the gradient, its heavy-ball sum, the sign of Lion's average, or the corrected first average over the root of the corrected second plus epsilon, with ChronoBelief's age factor and each one's decay |
| `OptimizerTrajectory.RunDescent` | src/lightcone_spec/adaptation/optimizer.py:211-507 | So in every run of proposals and commits, for the committed gradients alone |
| `OptimizerTrajectory.StepFollows` | src/lightcone_spec/adaptation/optimizer.py:276-447 | Each single commit moves a parameter by the scheduled rate along that direction |
| `OptimizerTrajectory.AgainstTheGradient` | src/lightcone_spec/adaptation/optimizer.py:276-447 | Without decay and at a positive rate, a constant gradient other than zero moves the parameter strictly against its sign at every commit, under every optimizer |
| `OptimizerMatrices.MatrixDescent` | src/lightcone_spec/adaptation/optimizer.py:362-377 | After any history a coordinate of one of Muon's matrices is its start value minus the sum of rate times the orthogonalized look-ahead of the committed gradients, stretched by how tall the matrix is, plus decay |
| `OptimizerMatrices.MatrixMoment` | src/lightcone_spec/adaptation/optimizer.py:363-364 | The momentum of a matrix is, coordinate by coordinate, the average of the gradients committed there |
| `OptimizerMatrices.TallExactly` | src/lightcone_spec/adaptation/optimizer.py:370-372 | The stretch squared times the width is the greater of height and width |
| `OptimizerLaws.ScaleExactly` | src/lightcone_spec/adaptation/optimizer.py:126-142 | The constant schedule scales by one, the inverse root by the positive number whose square times the step is one, the cosine iff the step is within the horizon |
| `OptimizerLaws.KappaExactly` | src/lightcone_spec/adaptation/optimizer.py:401-402 | The age factor is positive; it is one if beta1 squared is at least beta2, otherwise its square times beta2 to the age is beta1 to the age, squared |
| `OptimizerLaws.ClipSpares` | src/lightcone_spec/adaptation/optimizer.py:259-269 | Gradients pass unchanged without a clip value and whenever their joint norm is below it |
| `OptimizerLaws.ClipShrinks` | src/lightcone_spec/adaptation/optimizer.py:265-269 | Otherwise every coordinate is shrunk by the clip value over the norm |
| `OptimizerLaws.ProposeExactly` | src/lightcone_spec/adaptation/optimizer.py:219-275 | A proposal is made iff layout, schedule, finiteness and versions are right; it carries the next step, the owner and, for ChronoBelief, the age of its source |
| `OptimizerLaws.CommitExactly` | src/lightcone_spec/adaptation/optimizer.py:455-489 | A commit is accepted iff owner, step, boundary and finiteness are right; what the refusals mean |
| `Moments.BeliefResidual` | src/lightcone_spec/adaptation/optimizer.py:389-398 | The belief residual is beta1 times the old residual, so its square is at most 4·beta1²·G² |
| `Moments.SecondFoldBound` | src/lightcone_spec/adaptation/optimizer.py:393-400 | The second moment of any gradients bounded by G stays below its ceiling scaled by the bias correction |
| `GPUOptimizer.GPUOptimizer.constructor` | src/lightcone_spec/adaptation/optimizer.py:91-124 | A new optimizer holds its parameters, zero or empty moments, step zero and the given boundary |
| `GPUOptimizer.Create` | src/lightcone_spec/adaptation/optimizer.py:82-99 | Refuses iff the initial boundary is bad, the parameter list empty or a parameter not finite, with the reason; otherwise the optimizer holds its parameters and zero or empty moments |
| `GPUOptimizer.GPUOptimizer.AlwaysSound` | src/lightcone_spec/adaptation/optimizer.py:58-124 | Every optimizer, whatever was called on it, is the replay of its committed inputs |
| `GPUOptimizer.GPUOptimizer.Propose` | src/lightcone_spec/adaptation/optimizer.py:211-447 | Leaves the active state as it is and returns the refusal, or a proposal whose tensors are where the committed history with this input would lead |
| `GPUOptimizer.Slots` | src/lightcone_spec/adaptation/optimizer.py:342-380 | The loops over the parameters compute the transition, slot by slot |
| `GPUOptimizer.GPUOptimizer.Commit` | src/lightcone_spec/adaptation/optimizer.py:449-507 | Succeeds iff owner, step, boundary and numerical receipt are right; then the active state is the proposal and also the transition from the replaced state; otherwise the error says why and nothing changes |
| `KVHistory.CanonicalForm` | src/lightcone_spec/adaptation/kv_history.py:31-62 | Segments that are non-empty, contiguous from zero and differ from their neighbours are determined by the flat sequence they stand for |
| `KVHistory.AppendedFlat` | src/lightcone_spec/adaptation/kv_history.py:31-46 | An append, coalesced or not, keeps that form and adds exactly its tokens |
| `KVHistory.VersionsFrozen` | src/lightcone_spec/adaptation/kv_history.py:22-62 | Along any run a token's version never changes while it is not retracted |
| `KVHistory.Retained` | src/lightcone_spec/adaptation/kv_history.py:51-62 | The retraction loop yields the canonical index of exactly the prefix |
| `KVHistory.FrozenKVHistory.Append` | src/lightcone_spec/adaptation/kv_history.py:31-46 | Fails iff count or version is out of range, changing nothing; otherwise the index stands for the longer sequence and the last segment is returned |
| `KVHistory.FrozenKVHistory.Retract` | src/lightcone_spec/adaptation/kv_history.py:48-62 | Fails iff the length is outside the history, changing nothing; otherwise the index stands for exactly the prefix |
| `KVHistory.FrozenKVHistory.VersionAt` | src/lightcone_spec/adaptation/kv_history.py:64-68 | After any run the lookup gives the i-th entry of the flat sequence and fails exactly outside it |
| `KVHistory.AppendThenRetract` | src/lightcone_spec/adaptation/kv_history.py:31-62 | Append and then retract to the old length restores the exact segment list |
| `PlanTheorems.PlanPartition` | src/lightcone_spec/adaptation/parameters.py:219-225 | Trainable and frozen names of every plan partition the input, each parameter counted once, frozen names sorted: the plan's own duplicate and overlap checks cannot fail |
| `PlanTheorems.LayersExact` | src/lightcone_spec/adaptation/parameters.py:353-372 | The selected layers are the last ones, as many as the scope says |
| `PlanSelection.LayersAccepted` | src/lightcone_spec/adaptation/parameters.py:353-372 | Layers are selected iff those of the list are numbered without a gap from zero and are as many as the scope asks for; the last ones are |
| `PlanSelection.LayerPlanTrains` | src/lightcone_spec/adaptation/parameters.py:393-444 | A DFlash or native plan holds an entry for exactly the floating tensors whose name lies in one of the last layers and mentions none of the four borrowed words, under LoRA only matrices that mention a registered linear; with name, shape, type, mode and placement |
| `PlanSelection.DSparkPlanTrains` | src/lightcone_spec/adaptation/parameters.py:541-579 | A DSpark plan holds those and, when hybrid, the three heads whole and replicated; when not, no head |
| `PlanSelection.PicksInOrder` | src/lightcone_spec/adaptation/parameters.py:411-435 | Entries stand in the order of the list |
| `PlanSelection.TargetFrozen` | src/lightcone_spec/adaptation/parameters.py:413-435 | With a layer of the target model in the list, the drafter's tensors of that layer are trained and the target's is frozen |
| `ParameterNames.OccursExactly` | src/lightcone_spec/adaptation/parameters.py:108-110 | A word is a component of a name iff it stands in it between dots or at an end |
| `ParameterNames.NamesExactly` | src/lightcone_spec/adaptation/parameters.py:31-40 | A name is owned iff none of the four borrowed words is a component, and a registered linear iff one of the ten is |
| `ParameterNames.ComponentsJoin` | src/lightcone_spec/adaptation/parameters.py:109 | The components of a name hold no dot and join to it |
| `ParameterNames.JoinComponents` | src/lightcone_spec/adaptation/parameters.py:109 | Dot-free words are the components of what they join to |
| `ParameterNames.LayerExactly` | src/lightcone_spec/adaptation/parameters.py:41 | A name lies in a layer iff the first "layers" component that a numeral follows is followed by one of that value |
| `Decimals.DecimalRead` | src/lightcone_spec/adaptation/parameters.py:355 | A number as written in decimal is read as that number |
| `Decimals.NumeralWritten` | src/lightcone_spec/adaptation/parameters.py:355 | A numeral without leading zeros is what is written for its value |
| `Decimals.LeadingZero` | src/lightcone_spec/adaptation/parameters.py:355 | Leading zeros do not change the value of a numeral |
| `PlanTheorems.ScopesNested` | src/lightcone_spec/adaptation/parameters.py:353-372 | last1, last3, last5 and all select nested sets of equal entries |
| `PlanTheorems.LoraWithinFull` | src/lightcone_spec/adaptation/parameters.py:413-433 | Every tensor a LoRA selection trains, the Full selection of its scope trains, with the same shape, type and placement |
| `PlanTheorems.HybridIsLayersPlusHeads` | src/lightcone_spec/adaptation/parameters.py:541-579 | A DSpark hybrid plan is the layer-only plan, in order, plus exactly the three heads as full replicated entries |
| `PlanTheorems.HybridHasHeads` | src/lightcone_spec/adaptation/parameters.py:566-568 | A hybrid selection never loses a head, so that assertion cannot fail |
| `PlanRefusals.HeadSelectedExactly` | src/lightcone_spec/adaptation/parameters.py:541-570 | Past its guards a layer-only build fails on the frozen-heads assertion iff every eligible parameter has a name and positive dimensions and some head is itself eligible |
| `PlanRefusals.HeadInLayer` | src/lightcone_spec/adaptation/parameters.py:569-570 | A list whose first head lies in layer 0, at which the build fails so |
| `PlanRefusals.LayerOnlyBuildable` | src/lightcone_spec/adaptation/parameters.py:510-579 | Past its guards a layer-only build succeeds iff every eligible parameter is well shaped, no head is eligible, the rank fits the mode and something is eligible |
| `PlanRefusals.DSparkGuarded` | src/lightcone_spec/adaptation/parameters.py:522-537 | A DSpark build is past its guards iff the scope is registered, names are distinct, the heads are three names of the list, the acceptance projection is scalar and layers can be selected |
| `PlanRefusals.LayerGuards` | src/lightcone_spec/adaptation/parameters.py:402-407 | A DFlash or native build is past its guards iff the scope is registered, names are distinct and layers can be selected |
| `PlanRefusals.LayerBuildable` | src/lightcone_spec/adaptation/parameters.py:393-444 | It then succeeds iff every eligible parameter is well shaped, there is one, and the rank is registered for LoRA and absent otherwise |
| `PlanRefusals.ZeroDimensionalAcceptance` | src/lightcone_spec/adaptation/parameters.py:535-563 | With the other guards met, a zero-dimensional acceptance tensor passes its guard and the hybrid build fails on its entry |
| `PlanRefusals.FlatAcceptance` | src/lightcone_spec/adaptation/parameters.py:535-563 | A list of four parameters at which that happens |
| `PlanRefusals.HybridBuildable` | src/lightcone_spec/adaptation/parameters.py:510-579 | Past its guards a hybrid build succeeds iff every head and every eligible parameter has a name and positive dimensions |
| `PlanBuilder.Select` | src/lightcone_spec/adaptation/parameters.py:411-435 | The selection loop appends exactly the eligible parameters, in order, and freezes the rest, or stops at a malformed entry |
| `PlanBuilder.BuildLayerPlan` | src/lightcone_spec/adaptation/parameters.py:393-444 | The DFlash and native builds yield the plan of their layer selector, or the first refusal |
| `PlanBuilder.BuildDSparkPlan` | src/lightcone_spec/adaptation/parameters.py:510-579 | The DSpark build yields the plan of its selector, or the first refusal |
| `MemoryPrediction.CountIsLayout` | src/lightcone_spec/adaptation/parameters.py:242-271 | The trainable count is the number of elements of the state layout |
| `MemoryPrediction.CountParameters` | src/lightcone_spec/adaptation/parameters.py:243-252 | The counting loop counts the elements of the state layout |
| `MemoryPrediction.PredictionExactly` | src/lightcone_spec/adaptation/parameters.py:298-336 | A prediction is made iff the optimizer is registered and all types have a size; merged and staged weights by type, gradients, candidate and merge scratch, and resident and peak bytes as their sums |
| `MemoryPrediction.FactorsMultiply` | src/lightcone_spec/adaptation/parameters.py:258-262 | The two factors of a LoRA matrix multiply, through the rank, to its shape |
| `MemoryPrediction.PredictionCoversAllocation` | src/lightcone_spec/adaptation/parameters.py:298-336 | For every plan and registered optimizer, predicted master and first-moment bytes equal what the optimizer allocates for the layout, second-moment bytes too except that Muon's charge is exactly twice, and the candidate charge covers all three |
| `MemoryPrediction.MuonChargeExact` | src/lightcone_spec/adaptation/parameters.py:307-312 | Muon's second-moment charge equals its allocation iff every entry trained whole is a matrix |
| `MemoryPrediction.MuonOvercharge` | src/lightcone_spec/adaptation/parameters.py:307-312 | For a plan of one one-element vector eight bytes are charged and four allocated |
| `MemoryPrediction.PlansAreRanked` | src/lightcone_spec/adaptation/parameters.py:246-249 | The LoRA entries of every built plan are ranked matrices, so the count's assertion cannot fail, and all its entries have names and positive dimensions |
| `MemoryPrediction.PredictionMonotone` | src/lightcone_spec/adaptation/parameters.py:155-179 | A plan whose selection lies within another's is predicted no more resident and no more peak bytes, for every optimizer |
| `MemoryPrediction.NestedScopesMonotone` | src/lightcone_spec/adaptation/parameters.py:298-336 | Predicted resident and peak bytes of the DFlash and native plans are monotone along last1, last3, last5, all |
| `MemoryPrediction.DSparkScopesMonotone` | src/lightcone_spec/adaptation/parameters.py:298-336 | So are those of the DSpark plans, layer-only and with the native heads |
| `HBMAdmission.Govern` | src/lightcone_spec/adaptation/governor.py:208-220 | Succeeds iff the states cover every rank exactly once, and keeps them in rank order |
| `HBMAdmission.ArrangementUnique` | src/lightcone_spec/adaptation/governor.py:214-220 | What a governor keeps, and so every assessment, does not depend on the order of the states passed in |
| `HBMAdmission.Assess` | src/lightcone_spec/adaptation/governor.py:222-255 | Admitted iff on every rank each of the predicted total and the four observed peaks leaves room for reserve, KV and margin; the limiting rank is the one with the least slack, lowest rank first; the reason is the reserve iff that alone has no room somewhere; each row reports the greatest peak and what is left |
| `HBMAdmission.ChargeIsGreatest` | src/lightcone_spec/adaptation/governor.py:141-147 | The charge bounds all five peaks and equals one of them |
| `HBMAdmission.TotalConcat` | src/lightcone_spec/adaptation/governor.py:68-98 | The predicted peak is the sum of all resident and transient parts |
| `HBMAdmission.TightestUnique` | src/lightcone_spec/adaptation/governor.py:243 | The limiting rank is the same for all requests |
| `HBMAdmission.ReserveAtTightest` | src/lightcone_spec/adaptation/governor.py:231-249 | The all-ranks tests of reserve and of the whole request equal the tests at the limiting rank |
| `HBMAdmission.DownwardClosed` | src/lightcone_spec/adaptation/governor.py:222-255 | A request below an admitted one is admitted, and a refused reserve stays refused for larger requests |
| `Topology.Parse` | src/lightcone_spec/doctor.py:553-607 | Succeeds exactly on a matrix of GPU0..GPU(n-1) with complete rows and X on the diagonal, and yields its whole strict upper triangle with both directed links |
| `Topology.CellExactly` | src/lightcone_spec/doctor.py:554-601 | A cell is the token, in the last line its row's GPU starts, one place after its column's GPU in the first line GPU0 starts |
| `Topology.HeaderExactly` | src/lightcone_spec/doctor.py:554-561 | The header is the first line that GPU0 starts |
| `Topology.RowsExactly` | src/lightcone_spec/doctor.py:562-564 | A row is kept for exactly the GPU tokens that start a line, and is the last such line |
| `Topology.TokensConcat` | src/lightcone_spec/doctor.py:571 | The GPU tokens of a line are picked token by token, in order |
| `Topology.GpuNameExactly` | src/lightcone_spec/doctor.py:572 | The name of a GPU is GPU and its number without leading zeros |
| `Topology.TriangleSize` | src/lightcone_spec/doctor.py:586-602 | The triangle of n GPUs has n(n-1)/2 pairs |
| `Topology.TriangleDecides` | src/lightcone_spec/doctor.py:1308-1319 | The test on the upper triangle holds iff the whole matrix off its diagonal is symmetric with accepted links |
| `Topology.Check` | src/lightcone_spec/doctor.py:1305-1329 | Unknown iff there was no output; otherwise passes iff the lines hold a well-formed matrix of exactly the counted devices, symmetric with accepted links off its diagonal |
| `Topology.TwoGpus` | src/lightcone_spec/doctor.py:553-607 | Two GPUs linked alike both ways hold a well-formed matrix that passes iff the link is accepted |

## Left out

- GPUOptimizer.GPUOptimizer.Commit: presupposes that a proposal which passes every check is one this optimizer issued, unaltered; the code trusts its private token in the same way, and the acceptance of a copy with edited tensors is not modelled.
- GPUOptimizer.GPUOptimizer.Propose: whether the gradients and the proposed tensors are finite is a pair of booleans in the input, because reals are always finite.
- GPUOptimizer.Create: whether the parameters are finite is a boolean, for the same reason.
- GPUOptimizer.GPUOptimizer.constructor: takes a configuration that the schema has validated; the unsupported names are not values of the model's type.
- Publication.CandidateUpdate.constructor: the readiness event identity and the memory reservation are not modelled; begin_candidate leaves both at their defaults. What it refuses is in `CohortRuntime.CohortRuntime.BeginCandidate`.
- Rounding: tensors hold reals. Square root, the cosine schedule and Newton-Schulz orthogonalization are parameters, of which only the square root is required to be one.
- A Muon matrix without columns divides by zero in the code; the model takes the ratio as one. A proposal all of whose tensors are empty fails in the code when the finiteness flags are stacked.
- The private `_CohortState` objects are values in the manager's map: nothing outside the manager holds one.
- Formats of hashes and types of arguments are not checked; identifiers are stripped of ASCII white space only.
- Times are reals and never infinite or not-a-number.
- Signals with ill-formed fields, and the digest of a cohort identity, which is an opaque string here.
- The individual byte fields of the memory ledger are two lists, the resident and the transient ones; validation of ledgers and rank states is left out.
- Parameter names are matched by their dot-separated components with ASCII digits, where the code uses regular expressions; layer scopes and modes are values of a datatype, so unregistered strings do not arise, except the scope check itself.
- The topology model starts from token lines: removing terminal styling and refusing control characters are left out, as are the rows reported beside a parse error.
- `HBMGovernor.pressure_plan`, `FixedAddressBank`, `LoRAFactors`, plan digests and the memory payload: constant lists, foreign memory or hashing.
- The plan, capacity and breadth authorities, the configuration schema, sampling, execution, the distributed runtime, the command line and the rest of the doctor: mostly validation, file and process plumbing.
