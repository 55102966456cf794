# Verified models of AetherSearch

AetherSearch trains a search agent.  This project models the parts of it whose correctness
rests on logic rather than on learning, and proves what those parts are for:

- **Packed Exact-IG scoring** (`PackedScoring`): the structural mask and position ids that let
  one forward pass score every prefix, against a one-prefix-at-a-time oracle, for any number of
  layers and any layer functions.
- **The continuation protocol** (`ChatHistory`, `ContinuationChecker`, `TeacherRollout`): the
  chat client with receipts, budget notice and one answer repair, the rollout loop, and the
  separate checker that rebuilds the wire history from the audit.
- **The request-batching retrieval worker** (`RequestBatching`), the **update transaction** and
  its campaigns of attempts (`UpdateTransaction`), the **controller** that runs one attempt when
  any runtime call may raise (`AttemptController`), the **N-rank checkpoint commit**
  (`CheckpointCommit`) and the **prompt sampler** (`PromptSampler`).
- **Credit assignment** over the reals (`RealSums`, `MicaCredit`, `PromptCredit`, `PrefixChain`,
  `IgWindow`, `StopContinue`): depth-normalised information-gain credits, effective-IG windows
  and stop/continue advantages.
- **The concurrent rollout scheduler** over a resumable table (`RolloutScheduler`), the
  **exception-safe scoring window** (`ScoringWindow`) and **rank fusion** (`RankFusion`).
- **The trajectory grammar** (`Markup`, `TagCounts`, `TrajectoryFormat`, `SearchExtraction`) and the
  trainers' **loss masks** (`LossMask`, `MaskSegments`), at the level of characters.

`Outcome` holds the `Option` and `Result` types used throughout, `Sequences` the facts about
sequences and finite sets that several components share.

## Conventions

- Code that changes state is a class with `modifies` methods, or a method with a loop, proved
  against a specification; laws about the specification are lemmas.  The checkpoint commit is a
  step relation, since it is N processes with crash points between atomic file operations.
- Each method of the transaction class appends its call to a ghost history that determines the
  record, so the laws about call sequences are laws about the object.
- What cannot be seen - layers, model replies, search backends, completion order, failures of
  single calls, token counts, text rules - is an arbitrary function or an arbitrary choice, so
  every result holds for all of them.  Layer functions see a query's own state and the ordered
  sequence of states visible to it.
- Standard deviations and roots of counts are non-negative reals given by a root function that
  squares back to its argument.
- Hashes and digests are injective: a digest is modelled by the content itself.

## Exact conditions

Where the code keeps a promise only under a condition, the condition is proved to be exact:

- What a checkpoint commit publishes reads back exactly when no writer has used the name
  `integrity.sha256.json`; once one has, the call is always stopped by its own reading back
  (`CheckpointCommit.ReadsBackIff`, with such a run in `CheckpointCommit.SelfRecordRun`).
- The success counter equals the number of committed attempts exactly when no attempt failed after
  publishing its checkpoint (`UpdateTransaction.CounterCountsCommits`); such failures happen
  (`UpdateTransaction.LateFailureHappens`).
- A caller that swallows a refused second `record_zero_grad` can still commit, with the counter at
  two (`UpdateTransaction.RefusedZeroGradCanCommit`); the counter is one exactly when none was
  refused (`UpdateTransaction.ZeroGradCounter`).
- The index before a target's token holds the oracle's predicting state for every token but the
  first of its copy, and for the first one only in copy 0 of a prefix that is the whole trajectory
  (`PackedScoring.PredictingStates`).  The task builder refuses answers that open their copy, so
  what it lets through is scored from the oracle's states (`PackedScoring.ScoreSpans`,
  `PackedScoring.SameStatesAreScored`).
- The publisher's validator accepts a rendered trajectory exactly when its turns are sound and no
  observation holds a search or information tag (`TrajectoryFormat.VerdictIsMembership`); the
  supervised trainer accepts it exactly when no body is blank and none holds any structural tag
  (`LossMask.PublishedIsTrainable`), so the two differ on think and answer tags inside
  observations (`LossMask.ValidatedIsTrainable`, with such a trajectory in
  `LossMask.ValidatedButNotTrainable`).
- The preference trainer accepts exactly the blocks with blank gaps in the name order of a terminal,
  with no blank body and no structural tag in a body or gap (`LossMask.PreferableIff`).
- Singleton depths form one consecutive block exactly when the searches from the first credited one
  on are policy eligible (`PrefixChain.TailIsConsecutive`); a group with a gap is
  `PrefixChain.TailWithAGap`.
- Stop/continue clipping is idle when 9m <= 2(G-1), and otherwise some group is clipped
  (`StopContinue.ClippingNeverBinds`, `StopContinue.ClippingCanBind`).
- Documents found by both branches come before those found by one, in all hit lists with ranks up
  to n, exactly when n < k + 2 (`RankFusion.BothFirstIff`, from the scores in
  `RankFusion.TwoBeatOneIff`); from n = k + 2 on they need not (`RankFusion.OneBeforeBoth`).
- On ordinary histories the role-localised mode accepts exactly when the probe-routed mode does and
  no window reads a search that is not policy eligible (`IgWindow.RoleModeAcceptsIff`); a history
  only the probe-routed mode accepts is `IgWindow.RoleModeIsStricter`.  The role mode's overlap
  check cannot fire (`IgWindow.RoleChecks`).

## Model

| member | source | states |
|---|---|---|
| PackedScoring.BuildStructuralMask | src/agentic_rl/exact_ig/masks.py:8-44 | the mask is built exactly when the layout is sound, and each entry is true exactly for the causal original part and, in a copy, its prefix and its own earlier tokens |
| PackedScoring.BuildLogicalPositions | src/agentic_rl/exact_ig/position_ids.py:8-46 | succeeds exactly when all positions fit the limit, and continues each copy at its prefix's last position |
| PackedScoring.VisibleFromCopy | src/agentic_rl/exact_ig/masks.py:29-44 | a copy's query sees its prefix and the copy up to itself, and nothing of any other copy |
| PackedScoring.GatherThroughEmbedding | src/agentic_rl/exact_ig/masks.py:29-44 | visible states keep their order when a sequence is placed inside a larger one |
| PackedScoring.ForwardThroughEmbedding | src/agentic_rl/exact_ig/masks.py:8-44 | for any layers, a sequence placed where the masks agree computes what it computes alone |
| PackedScoring.PackedContents | src/agentic_rl/exact_ig/task_builder.py:476-510 | which token and position every packed index holds |
| PackedScoring.PlacementEmbeds | src/agentic_rl/exact_ig/masks.py:29-44 | prefix plus target, placed in the packed sequence, meets the embedding conditions |
| PackedScoring.PackedEqualsSequential | src/agentic_rl/exact_ig/sequential_oracle.py:135-184 | every target token's packed state equals its state when its prefix and target run alone under the causal mask, for any layers |
| PackedScoring.OriginalTokensUnaffected | src/agentic_rl/exact_ig/masks.py:28-32 | every original token, also past the last prefix end, has the state it has when the trajectory runs without copies |
| PackedScoring.CopiesDoNotInteract | src/agentic_rl/exact_ig/masks.py:29-44 | a copy's states do not depend on the other copies packed with it |
| PackedScoring.PredictingStates | src/agentic_rl/exact_ig/task_builder.py:489-506 | for which tokens the state one index before is the oracle's predicting state: exactly those inside a copy, and the first of copy 0 when its prefix is the whole trajectory |
| PackedScoring.ScoreSpans | src/agentic_rl/exact_ig/task_builder.py:483-509 | the builder's loop refuses when an answer is empty or opens its copy, and otherwise gives every answer token the index before it |
| PackedScoring.SameStatesAreScored | src/agentic_rl/exact_ig/sequential_oracle.py:135-184 | for every answer that follows its scaffold the packed scorer reads the same states, in the same order, as the oracle |
| PromptSampler.Sampler.constructor | src/agentic_rl/controller/prompt_sampler.py:22-38 | a fresh sampler is valid and stands at epoch times size plus cursor |
| PromptSampler.Sampler.Create | src/agentic_rl/controller/prompt_sampler.py:22-38 | exactly the arguments that are accepted, and the state they give |
| PromptSampler.Sampler.Allocate | src/agentic_rl/controller/prompt_sampler.py:50-66 | draws the next stretch of the epoch-permutation stream and leaves the resting state after it, also from a cursor at the end |
| PromptSampler.Sampler.State | src/agentic_rl/controller/prompt_sampler.py:68-75 | the saved state is the current one |
| PromptSampler.Sampler.Restore | src/agentic_rl/controller/prompt_sampler.py:77-87 | a saved state comes back exactly when it is intact, and continues the same stream |
| PromptSampler.StreamWithin | src/agentic_rl/controller/prompt_sampler.py:40-43 | element k of the stream is perm(k / N)[k mod N] |
| PromptSampler.DrawsCompose | src/agentic_rl/controller/prompt_sampler.py:50-66 | drawing a and then b is drawing a + b: same elements, same state |
| PromptSampler.CountInFullEpochs | src/agentic_rl/controller/prompt_sampler.py:40-43 | full epochs hand out each index once per epoch |
| PromptSampler.CountInStream | src/agentic_rl/controller/prompt_sampler.py:50-66 | exact count of an index after any number of draws |
| PromptSampler.Fairness | src/agentic_rl/controller/prompt_sampler.py:50-66 | at all times any two indices' counts differ by at most one |
| UpdateTransaction.StrictUpdateTransaction.CommittedIff | src/agentic_rl/controller/transaction.py:65-241 | an object on which no call has raised is committed exactly when the calls made on it are a commit trace; whatever raised, its record shows parity, allowed counts, and if committed one optimizer step, one scheduler step and a micro-batch |
| UpdateTransaction.StrictUpdateTransaction.HandedState | src/agentic_rl/controller/transaction.py:102-241 | the state an object has handed out last is one update further from the proposal on, and after a skip or an abort differs in attempt number and cursor only |
| UpdateTransaction.StepForward | src/agentic_rl/controller/transaction.py:65-241 | a raise-free call is the one that belongs at its place in a committing attempt, or it stops the attempt |
| UpdateTransaction.CleanHistory | src/agentic_rl/controller/transaction.py:65-241 | what every raise-free history has been, call by call |
| UpdateTransaction.CommittedIffCommitTrace | src/agentic_rl/controller/transaction.py:65-241 | a raise-free sequence ends committed exactly when it is: snapshot, rollout, scoring, selection, one zero_grad, one or more micro-batches under one checksum, one optimizer step, one scheduler step, proposal, commit |
| UpdateTransaction.RunSound | src/agentic_rl/controller/transaction.py:65-172 | even with raises swallowed, every record shows the parity and the counts its phase has passed, and a committed one shows one optimizer step, one scheduler step and a micro-batch |
| UpdateTransaction.ZeroGradCounter | src/agentic_rl/controller/transaction.py:116-120 | the zero_grad counter is one more than the refusals, and one exactly when none was refused |
| UpdateTransaction.RefusedZeroGradCanCommit | src/agentic_rl/controller/transaction.py:116-132 | a concrete run that swallows a refusal and commits with the counter at two |
| UpdateTransaction.RunHanded | src/agentic_rl/controller/transaction.py:102-241 | whatever calls raised: from the proposal on the state handed out is one update further, after a skip or an abort only the attempt number and cursor have changed |
| UpdateTransaction.AttemptEffects | src/agentic_rl/controller/transaction.py:102-241 | how any attempt, also one with raised calls, a late failure or a restart, changes the live state and the checkpoint |
| UpdateTransaction.CampaignKeepsCounters | src/agentic_rl/checkpoint/state_schema.py:43-51 | over every run of attempts with raised calls, published proposals and restarts, metadata validation never fails on counters |
| UpdateTransaction.CampaignAccounting | src/agentic_rl/runtime/verl_runtime_adapter.py:5426-5500 | when commits publish, the success counter counts the published proposals, and no skip, abort or restart changes a channel |
| UpdateTransaction.PublicationsAreCommits | src/agentic_rl/controller/update_controller.py:355-366 | published proposals are those of the committed attempts and of the attempts that failed after publishing |
| UpdateTransaction.CounterCountsCommits | src/agentic_rl/runtime/verl_runtime_adapter.py:5426-5500 | when commits publish, the success counter counts the committed attempts exactly when no attempt failed after publishing, whatever else failed or was restarted |
| UpdateTransaction.CampaignBounds | src/agentic_rl/controller/transaction.py:102-241 | the checkpoint is never ahead of the live state; without a restart every attempt advances the attempt number by one and the step counts the commits |
| UpdateTransaction.LateFailureHappens | src/agentic_rl/runtime/verl_runtime_adapter.py:5426-5500 | an attempt that publishes, fails, and is restarted one step on without committing |
| AttemptController.LargestPool | src/agentic_rl/controller/update_controller.py:127-143 | the largest allowed pool is the configured maximum |
| AttemptController.Collect | src/agentic_rl/controller/update_controller.py:172-233 | the refill loop ends with the pool of the specification, or with an error |
| AttemptController.Backpropagate | src/agentic_rl/controller/update_controller.py:319-329 | succeeds exactly when nothing raises, there is a micro-batch and all checksums agree, and then made one zero_grad and one call per micro-batch |
| AttemptController.StepAndCommit | src/agentic_rl/controller/update_controller.py:330-358 | commits exactly when nothing raises; when something does, the optimizer may have stepped exactly when the transaction is past the step |
| AttemptController.Recover | src/agentic_rl/controller/update_controller.py:359-369 | rolled back exactly when no step had begun; untrusted exactly when one had |
| AttemptController.RunAttempt | src/agentic_rl/controller/update_controller.py:122-369 | for every way the runtime can raise: commits exactly under the stated condition, with a commit trace on the transaction and one zero_grad, the micro-batches, one optimizer, scheduler and commit call on the runtime; skips exactly for the largest pool; otherwise fails as Recover says |
| AttemptController.Train | src/agentic_rl/runtime/verl_runtime_adapter.py:6805-6831 | the training loop ends at exactly the target, within its attempt budget, and its own one-step check cannot fail |
| CheckpointCommit.FinalizeOpProgress | src/agentic_rl/checkpoint/atomic_commit.py:155-201 | each finalisation step completes the directory in order, or leaves the old pointer and no incomplete final directory |
| CheckpointCommit.StepKeepsInv | src/agentic_rl/checkpoint/atomic_commit.py:113-209 | every step of every rank keeps the protocol invariant |
| CheckpointCommit.RunKeepsInv | src/agentic_rl/checkpoint/atomic_commit.py:113-209 | every reachable state meets it |
| CheckpointCommit.CrashSafety | src/agentic_rl/checkpoint/atomic_commit.py:123-209 | at every crash point the pointer is the old one or names a validated complete checkpoint; a published directory is complete; nothing else is ever touched |
| CheckpointCommit.RanksAgree | src/agentic_rl/checkpoint/atomic_commit.py:134-209 | all ranks are at the same collective, all return or all raise at the same stage, with the new or the old pointer accordingly |
| CheckpointCommit.FailedWriterIsFatal | src/agentic_rl/checkpoint/atomic_commit.py:140-153 | a failed writer on any rank stops the call before anything is published |
| CheckpointCommit.SelfRecordIsFatal | src/agentic_rl/checkpoint/atomic_commit.py:155-201 | once a writer has used the integrity file's name, nothing published ever reads back and the pointer never moves |
| CheckpointCommit.ReadsBackIff | src/agentic_rl/checkpoint/atomic_commit.py:168-229 | at every crash point what is published reads back as this call's metadata exactly when no writer has used the integrity file's name |
| CheckpointCommit.SelfRecordRun | src/agentic_rl/checkpoint/atomic_commit.py:155-201 | a run in which nothing fails, the directory gets its final name, and the reading back stops the call |
| CheckpointCommit.NoDeadlock | src/agentic_rl/checkpoint/atomic_commit.py:134-209 | while any rank has not ended some step can happen |
| CheckpointCommit.RunsAreBounded | src/agentic_rl/checkpoint/atomic_commit.py:134-209 | apart from file writes a run has at most 19 steps per rank, so every run that is carried on ends |
| MicaCredit.SignalsSumToZero | src/agentic_rl/advantage/mica_ig.py:160-171 | a group's normalised signals sum to zero |
| MicaCredit.SignalBound | src/agentic_rl/advantage/mica_ig.py:56-66 | each signal is at most the root of n - 1, from Samuelson's inequality |
| RealSums.Samuelson | src/agentic_rl/advantage/mica_ig.py:56-66 | no deviation exceeds the root of n - 1 standard deviations |
| RealSums.CauchySchwarz | src/agentic_rl/advantage/mica_ig.py:56-66 | the squared sum is at most n times the sum of squares |
| MicaCredit.ComputeRawIgReturns | src/agentic_rl/advantage/mica_ig.py:110-138 | accepted exactly for sound inputs, and then every return is the discounted suffix sum over valid indices |
| MicaCredit.SuffixReturns | src/agentic_rl/advantage/mica_ig.py:122-136 | the nested loops compute that sum for each index |
| MicaCredit.ReturnRecursion | src/agentic_rl/advantage/mica_ig.py:117-138 | G_i = r_i + gamma^(next - i) * G_next over any gaps and any gamma |
| MicaCredit.IgTelescopes | src/agentic_rl/exact_ig/alias_reduce.py:18-29 | immediate gains sum to last minus first score, and the telescoping error is zero |
| MicaCredit.ReturnIsScoreDifference | src/agentic_rl/exact_ig/alias_reduce.py:7-16 | at gamma one, a return on prefix-score rewards is the last score minus the score before its search |
| PromptCredit.DepthGroups | src/agentic_rl/advantage/mica_ig.py:141-157 | fails exactly on a negative index, and otherwise groups the values of each depth in trajectory order |
| PromptCredit.ComputeFromColumns | src/agentic_rl/advantage/mica_ig.py:211-401 | the separate inputs are refused when their lengths differ, and otherwise give the specified credits |
| PromptCredit.ComputeMica | src/agentic_rl/advantage/mica_ig.py:243-401 | accepted exactly for sound inputs, and then every credit and tail is the specified one: the peer-count errors cannot fire |
| PromptCredit.CheckInputs | src/agentic_rl/advantage/mica_ig.py:236-285 | refuses exactly the unsound inputs |
| PromptCredit.CreditTrajectory | src/agentic_rl/advantage/mica_ig.py:321-401 | one credit per search and the consecutive tail of singleton depths |
| PromptCredit.DepthCreditGuarantees | src/agentic_rl/advantage/mica_ig.py:321-380 | both signals of a depth group sum to zero, each credit is its trajectory's entry, and local, return and mixed credits keep the n - 1 bound |
| PromptCredit.GatherPeers | src/agentic_rl/advantage/a2tgpo.py:215-226 | the production path gathers the same peers by flag |
| PromptCredit.ProductionNormalizedIg | src/agentic_rl/advantage/a2tgpo.py:215-242 | the production normalisation of every eligible value |
| PromptCredit.LocalAdvantageMatchesProduction | src/agentic_rl/advantage/a2tgpo.py:1265-1273 | every local advantage equals the production path's value, so the drift check cannot fire |
| PrefixChain.ValidateChain | src/agentic_rl/advantage/a2tgpo.py:91-100 | accepted exactly when eligibility never resumes |
| PrefixChain.ValidSearchesAreInitial | src/agentic_rl/advantage/a2tgpo.py:91-100 | eligible searches are an initial stretch |
| PrefixChain.PeersNeverIncrease | src/agentic_rl/advantage/mica_ig.py:325-345 | deeper groups never have more peers |
| PrefixChain.SingletonsRunToTheEnd | src/agentic_rl/advantage/mica_ig.py:345-387 | a singleton depth is followed by singleton depths to the last valid search |
| PrefixChain.SingletonsHaveOneOwner | src/agentic_rl/advantage/mica_ig.py:345-387 | at most one trajectory has singleton depths |
| PrefixChain.TailIsConsecutive | src/agentic_rl/advantage/mica_ig.py:382-395 | the reported tail starts at the first policy-eligible singleton depth and fills the rest of the valid searches exactly when all of them are policy eligible |
| PrefixChain.NoTail | src/agentic_rl/advantage/mica_ig.py:382-395 | no tail is reported exactly when there is no such depth |
| PrefixChain.TailWithAGap | src/agentic_rl/advantage/mica_ig.py:382-395 | a group whose reported tail has a gap |
| IgWindow.AccumulateWindow | src/agentic_rl/advantage/a2tgpo.py:839-867 | the inner loop collects the window's gains, with its stage errors |
| IgWindow.ProbeRouted | src/agentic_rl/advantage/a2tgpo.py:720-957 | every turn gets the specified probe-routed credit, or the error its window has |
| IgWindow.AccumulateRoleWindow | src/agentic_rl/advantage/role_localized_gate.py:281-310 | the role-localised inner loop |
| IgWindow.RoleLocalized | src/agentic_rl/advantage/role_localized_gate.py:166-346 | every turn gets the specified main, decision and query credits |
| IgWindow.WindowIsBackwardPass | src/agentic_rl/advantage/a2tgpo.py:829-888 | the quadratic forward loop with early stop equals one backward pass |
| IgWindow.NothingCrossesTheBoundary | src/agentic_rl/advantage/a2tgpo.py:839-867 | values after the first sufficiency boundary cannot influence an earlier turn |
| IgWindow.RoleWindowIsBackwardPass | src/agentic_rl/advantage/role_localized_gate.py:281-305 | the role-localised nested loop equals one backward pass too |
| IgWindow.NothingCrossesTheRoleBoundary | src/agentic_rl/advantage/role_localized_gate.py:281-305 | nothing after a turn in branch SBefore, or after a sufficient probe, can influence an earlier turn |
| IgWindow.EffectiveGainBound | src/agentic_rl/advantage/a2tgpo.py:845-888 | in either mode the empty-accumulation error cannot fire, and the square of every effective gain handed out is at most its window's sum of squares |
| IgWindow.ModesAgree | src/agentic_rl/advantage/role_localized_gate.py:277-324 | on ordinary histories both modes give the same main credit |
| IgWindow.RoleModeAcceptsIff | src/agentic_rl/advantage/role_localized_gate.py:281-305 | on ordinary histories the role mode accepts exactly when the probe-routed mode does and no window reads a search that is not policy eligible |
| IgWindow.RoleModeIsStricter | src/agentic_rl/advantage/role_localized_gate.py:281-305 | a history the probe-routed mode accepts and the role mode refuses |
| IgWindow.RoleChecks | src/agentic_rl/advantage/role_localized_gate.py:328-338 | the overlap error cannot fire; the missing-query error fires exactly for a duplicate query with an empty span |
| StopContinue.CheckTriples | src/agentic_rl/advantage/stop_continue.py:193-255 | refuses exactly inadmissible or repeated states |
| StopContinue.CheckInputs | src/agentic_rl/advantage/stop_continue.py:193-255 | accepts exactly complete sets of admissible states of one version |
| StopContinue.ComputeStopContinue | src/agentic_rl/advantage/stop_continue.py:256-340 | every state gets the specified task and final advantages |
| StopContinue.Group | src/agentic_rl/advantage/stop_continue.py:256-270 | groups hold each pool's states in order |
| StopContinue.DeltaBound | src/agentic_rl/advantage/stop_continue.py:256-309 | delta squared is at most 9/2 m scale squared |
| StopContinue.DeltaBoundIsTight | src/agentic_rl/advantage/stop_continue.py:256-309 | a group of any size meets it with equality |
| StopContinue.RawBound | src/agentic_rl/advantage/stop_continue.py:280-309 | the raw advantage keeps the bound |
| StopContinue.ClippingNeverBinds | src/agentic_rl/advantage/stop_continue.py:280-309 | clipping changes nothing when 9m <= 2(G - 1) |
| StopContinue.ClippingCanBind | src/agentic_rl/advantage/stop_continue.py:280-309 | otherwise some group is clipped |
| StopContinue.ClearStatesKeepTheirSign | src/agentic_rl/advantage/stop_continue.py:280-309 | a clear state's task advantage is strictly of its sign, clipped or not |
| RequestBatching.DenseSearchMany | runtime_assets/retriever/hybrid_retrieval_server.py:331-352 | chunked search equals searching each query, for any chunk size |
| RequestBatching.BatchSearch | runtime_assets/retriever/hybrid_retrieval_server.py:404-443 | batch search equals mapping the single-query search |
| RequestBatching.Worker.Put | runtime_assets/retriever/hybrid_retrieval_server.py:580-595 | a request enters the queue, or is refused, and nothing else changes |
| RequestBatching.Worker.Close | runtime_assets/retriever/hybrid_retrieval_server.py:610-614 | the stop sentinel enters once |
| RequestBatching.Worker.Coalesce | runtime_assets/retriever/hybrid_retrieval_server.py:513-537 | the batch, the deferred request and the queue are the old queue in order, and the cap is exceeded only by a single request |
| RequestBatching.Worker.CompleteBatch | runtime_assets/retriever/hybrid_retrieval_server.py:566-569 | each request of the batch is done, with one task_done each |
| RequestBatching.Worker.Serve | runtime_assets/retriever/hybrid_retrieval_server.py:539-571 | each request of a batch gets exactly the result or error it is owed |
| RequestBatching.Worker.Take | runtime_assets/retriever/hybrid_retrieval_server.py:504-511 | the deferred request first, then the queue |
| RequestBatching.Worker.Run | runtime_assets/retriever/hybrid_retrieval_server.py:501-578 | the requests ahead of the sentinel are completed exactly once, in order, and nothing stays deferred |
| RequestBatching.SearchGroup | runtime_assets/retriever/hybrid_retrieval_server.py:545-563 | a group's slices are what its requests are owed; a failure touches only the group |
| RequestBatching.SearchBatch | runtime_assets/retriever/hybrid_retrieval_server.py:539-563 | every request of the batch gets what it is owed, whatever other groups do |
| RequestBatching.GroupByKey | runtime_assets/retriever/hybrid_retrieval_server.py:539-543 | groups hold the requests of one key in order |
| RequestBatching.OwnSlice | runtime_assets/retriever/hybrid_retrieval_server.py:551-560 | where a request's queries stand in its group's flattened queries |
| RequestBatching.SliceIsOwed | runtime_assets/retriever/hybrid_retrieval_server.py:551-560 | the slice a request receives is the single-query search over its own queries |
| RequestBatching.ServedAreThoseAheadOfStop | runtime_assets/retriever/hybrid_retrieval_server.py:501-578 | the batches together are exactly the requests ahead of the sentinel |
| RequestBatching.StatisticsMeaning | runtime_assets/retriever/hybrid_retrieval_server.py:454-475 | the counters equal the batches, requests and queries served |
| RequestBatching.CoalescedMeaning | runtime_assets/retriever/hybrid_retrieval_server.py:454-475 | the coalesced counter counts the batches of several requests |
| ChatHistory.ValidateHistory | sft/data_generation/search_sft_teacher/deepseek_client.py:79-134 | the one pass accepts exactly the well-formed histories, and returns their tool-call identifiers |
| ChatHistory.ReplayCountsAgree | sft/data_generation/search_sft_teacher/validate_teacher_rollout.py:196-201 | the checker counts on manifests what the client counts on messages |
| ChatHistory.TurnExtends | sft/data_generation/search_sft_teacher/deepseek_client.py:460-467 | a new search and its observation keep a history well formed exactly when the observation is sound |
| ChatHistory.RepairExtends | sft/data_generation/search_sft_teacher/deepseek_client.py:309-316 | so do a discarded answer and the repair instruction |
| ContinuationChecker.ValidateContinuation | sft/data_generation/search_sft_teacher/validate_teacher_rollout.py:179-238 | the loop's errors are those of the call-by-call specification |
| ContinuationChecker.CleanStep | sft/data_generation/search_sft_teacher/validate_teacher_rollout.py:187-237 | a call adds no error exactly when it is clean, and how the reconstruction goes on |
| ContinuationChecker.AcceptedPrefix | sft/data_generation/search_sft_teacher/validate_teacher_rollout.py:179-238 | every prefix of an accepted audit is accepted |
| ContinuationChecker.AcceptedRequestsGrow | sft/data_generation/search_sft_teacher/validate_teacher_rollout.py:228-237 | in an accepted audit each request that led on is a strict prefix of the next |
| ContinuationChecker.AnswersDetermineRequests | sft/data_generation/search_sft_teacher/validate_teacher_rollout.py:187-195 | accepted audits with the same answers have the same requests: an altered request is always caught |
| TeacherRollout.ReadReply | sft/data_generation/search_sft_teacher/deepseek_client.py:366-422 | any accepted reply is a message the client may act on |
| TeacherRollout.ReadIsModelWritten | sft/data_generation/search_sft_teacher/deepseek_client.py:137-194 | a search that is read is a literal block of the reply, beside no answer and no other search; a final answer is the content unchanged and holds no search, so a reply that searches over budget is refused |
| TeacherRollout.Client.BeginTrajectory | sft/data_generation/search_sft_teacher/deepseek_client.py:254-260 | a new question keeps only the audited calls |
| TeacherRollout.Client.CreateOnce | sft/data_generation/search_sft_teacher/deepseek_client.py:322-442 | success adds exactly one answered call and its receipt; an expected, well-formed history is never refused as changed |
| TeacherRollout.Client.Create | sft/data_generation/search_sft_teacher/deepseek_client.py:297-320 | one turn is a direct answer, or a discarded one and its repair |
| TeacherRollout.Client.AppendToolResult | sft/data_generation/search_sft_teacher/deepseek_client.py:444-467 | appends search and observation together exactly when all receipts match, and otherwise changes nothing |
| TeacherRollout.SentIsClean | sft/data_generation/search_sft_teacher/deepseek_client.py:334-364 | a request sent with the expected history is one the checker finds clean |
| TeacherRollout.SearchTurnAudited | sft/data_generation/search_sft_teacher/controlled_rollout.py:297-359 | after a search turn the checker's reconstruction is again the live history |
| TeacherRollout.FinalAudited | sft/data_generation/search_sft_teacher/controlled_rollout.py:304-320 | a final turn, repaired or not, closes an accepted audit with growing requests |
| TeacherRollout.SearchIsAppendable | sft/data_generation/search_sft_teacher/deepseek_client.py:444-467 | a search just handed out is appendable with any sound observation |
| TeacherRollout.TakeTurn | sft/data_generation/search_sft_teacher/controlled_rollout.py:297-359 | one turn either closes an accepted record, goes on, or fails, never for integrity |
| TeacherRollout.Rollout | sft/data_generation/search_sft_teacher/controlled_rollout.py:267-362 | for all replies and observations, a completed rollout leaves an audit the checker accepts and strictly growing requests; a failed one too makes at most max_searches retrievals, no query twice, and at most two requests more than max_searches; integrity and limit errors never fire |
| SearchExtraction.ExtractIsIdempotent | sft/data_generation/search_sft_teacher/controlled_rollout.py:193-209 | what is extracted is canonical: extracting again gives it back |
| SearchExtraction.ExtractorIsCanonical | sft/data_generation/search_sft_teacher/deepseek_client.py:113-120 | so a search put into the history passes the history's own canonicality test |
| Markup.TagsAreProper | sft/scripts/train_sft_2600.py:46-51 | the actual tags have the shape all results rest on |
| Markup.ScanOfRendering | dpo/scripts/train_dpo.py:51-54 | the span and tag scanners recover blocks without tags in their bodies from their rendering, whatever names are looked for |
| TagCounts.TagsInRendering | sft/data_generation/search_sft_teacher/published_sft_format.py:70-71 | the tags that stand in a rendering are those of its blocks and those inside the bodies, whatever text these are |
| TagCounts.TwoTagsABlock | dpo/scripts/train_dpo.py:246-248 | a rendering shows two tags a block exactly when no body holds a tag |
| TrajectoryFormat.ParseIs | sft/data_generation/search_sft_teacher/published_sft_format.py:74-94 | the parser accepts exactly the renderings of grammatical trajectories |
| TrajectoryFormat.RoundTrip | sft/data_generation/search_sft_teacher/published_sft_format.py:74-94 | parsing a rendered trajectory gives it back exactly when it is grammatical |
| TrajectoryFormat.UniqueReading | sft/data_generation/search_sft_teacher/published_sft_format.py:74-94 | a text has at most one reading, even across search counts |
| TrajectoryFormat.ValidateBody | sft/data_generation/search_sft_teacher/published_sft_format.py:70-95 | the position loop decides the verdict and returns the queries |
| TrajectoryFormat.CountsOfRendering | sft/data_generation/search_sft_teacher/published_sft_format.py:70-71 | the tag counts of a rendering are right exactly when no observation holds a counted tag |
| TrajectoryFormat.VerdictIsMembership | sft/data_generation/search_sft_teacher/published_sft_format.py:54-95 | a rendered grammatical trajectory is accepted exactly when it has that many turns, all sound, and no observation holds a search or information tag |
| TrajectoryFormat.PlainVerdict | sft/data_generation/search_sft_teacher/published_sft_format.py:54-95 | with bracket-free bodies, rendering and validating gives the same turns back, and only soundness decides |
| TrajectoryFormat.AcceptedIsRendered | sft/data_generation/search_sft_teacher/published_sft_format.py:54-95 | nothing outside the language is accepted |
| LossMask.PublishedIsTrainable | sft/scripts/train_sft_2600.py:280-367 | of all rendered trajectories the supervised trainer accepts exactly those with no blank body and no structural tag in a body, with exactly the information blocks as spans |
| LossMask.ValidatedIsTrainable | sft/scripts/train_sft_2600.py:280-367 | of what the publisher's validator accepts it refuses, blank bodies apart, exactly what holds a think or answer tag in an observation |
| LossMask.ValidatedButNotTrainable | sft/scripts/train_sft_2600.py:280-367 | a trajectory the validator accepts and the trainer refuses, though no body is empty |
| LossMask.TrainableIsRendered | sft/scripts/train_sft_2600.py:280-367 | whatever it accepts is (think search information)* think answer, and its spans are exactly the information blocks |
| LossMask.AcceptedTextIsCut | sft/scripts/train_sft_2600.py:370-392 | for every accepted text the cut is defined: no span, empty-segment or reconstruction error |
| LossMask.PreferableIff | dpo/scripts/train_dpo.py:203-270 | the preference trainer accepts exactly the texts that pass the checks on the whole and are blocks with blank gaps in the name order of their terminal, no body blank and no tag in a body or gap; what it masks is exactly their information blocks |
| LossMask.PreferableIsWoven | dpo/scripts/train_dpo.py:213-276 | the blocks and gaps of an accepted text, read off its spans: joined they are the text, and the masked spans hold exactly the information blocks |
| LossMask.NamesOfTrajectory | dpo/scripts/train_dpo.py:257-266 | a trajectory's block names are an answer-terminal sequence |
| LossMask.AcceptedContinuationIsCut | dpo/scripts/train_dpo.py:317-346 | for every accepted continuation the cut is defined |
| MaskSegments.BuildMaskSegments | sft/scripts/train_sft_2600.py:370-392 | succeeds exactly with a prompt, gaps and a tail; the segments join to the text and each character has the right label |
| MaskSegments.BuildContinuationSegments | dpo/scripts/train_dpo.py:317-346 | succeeds exactly for spans in order and a non-empty text; the segments join to the final text and each character has the right label |
| RolloutScheduler.Checkpoint.CommitCandidate | sft/data_generation/search_sft_teacher/deepseek_rollout.py:451-472 | one transaction: a new history row and the current row, or nothing; with a current row it fails exactly when a new row's public identifier is taken, and the table invariant is kept |
| RolloutScheduler.Checkpoint.Approve | sft/data_generation/search_sft_teacher/deepseek_rollout.py:617-641 | all identifiers are pending and become approved, or nothing changes |
| RolloutScheduler.Checkpoint.SelectWork | sft/data_generation/search_sft_teacher/deepseek_rollout.py:573-592 | exactly the rows to run are selected, never a pending or approved one |
| RolloutScheduler.Run.Schedule | sft/data_generation/search_sft_teacher/deepseek_rollout.py:485-492 | gives the next item to a free client |
| RolloutScheduler.Run.Complete | sft/data_generation/search_sft_teacher/deepseek_rollout.py:500-516 | a finished item is committed and its client goes on unless the run is stopping |
| RolloutScheduler.Run.Execute | sft/data_generation/search_sft_teacher/deepseek_rollout.py:475-528 | without a fatal outcome every item is committed exactly once; after one nothing more is scheduled and the active ones are still committed |
| RolloutScheduler.TableAfter | sft/data_generation/search_sft_teacher/deepseek_rollout.py:451-472 | a commit records one more attempt of its row, with its digest and public identifier, and leaves the others |
| RolloutScheduler.IdsAfter | sft/data_generation/search_sft_teacher/deepseek_rollout.py:370 | a commit leaves the public identifiers of the items still to come free, so no later commit fails |
| RolloutScheduler.Popped | sft/data_generation/search_sft_teacher/deepseek_rollout.py:500-510 | moving an item from active to committed keeps the partition |
| RolloutScheduler.Resume | sft/data_generation/search_sft_teacher/deepseek_rollout.py:564-607 | a resumed run never re-runs settled rows, loses no history, and completes the window without a fatal outcome |
| RolloutScheduler.Coordinator.Submit | sft/data_generation/search_sft_teacher/batched_retriever.py:53-58 | a sound query is queued and awaited |
| RolloutScheduler.Coordinator.Dispatch | sft/data_generation/search_sft_teacher/batched_retriever.py:60-90 | one batch in order of arrival, each of its futures resolved once and no other touched |
| RolloutScheduler.Coordinator.FailPending | sft/data_generation/search_sft_teacher/batched_retriever.py:92-98 | nobody is left waiting |
| ScoringWindow.Registry.SetModule | src/agentic_rl/exact_ig/fsdp_scoring_window.py:84-93 | the registry changes exactly when the module does |
| ScoringWindow.Registry.Restore | src/agentic_rl/exact_ig/fsdp_scoring_window.py:128-142 | every module whose setter succeeded has its value, the others are unchanged, and the registry stays accurate |
| ScoringWindow.Registry.Configure | src/agentic_rl/exact_ig/fsdp_scoring_window.py:96-125 | all set, or all rolled back, or a list of exactly those still set |
| ScoringWindow.Enter | src/agentic_rl/exact_ig/fsdp_scoring_window.py:145-172 | opens with the old states in hand, or refuses; a model without such modules and unknown states refuse before anything is set |
| ScoringWindow.Exit | src/agentic_rl/exact_ig/fsdp_scoring_window.py:174-202 | restores on return and on exception; the final comparison cannot fail |
| ScoringWindow.Nested | src/agentic_rl/exact_ig/fsdp_scoring_window.py:145-202 | nested windows restore like a stack, whatever raises in bodies, synchronising or memory readings of any of them |
| RankFusion.Search | sft/data_generation/search_sft_hybrid_v1/hybrid_retriever_v1.py:171-185 | the first topn distinct documents over all expressions, ranked from one |
| RankFusion.SearchedHits | sft/data_generation/search_sft_hybrid_v1/hybrid_retriever_v1.py:171-185 | they are distinct, with ranks within topn, and all of them when there are fewer |
| RankFusion.Fuse | sft/data_generation/search_sft_hybrid_v1/hybrid_retriever_v1.py:365-409 | the topk best fused documents, or an error exactly when there are fewer |
| RankFusion.TopMeans | sft/data_generation/search_sft_hybrid_v1/hybrid_retriever_v1.py:384-389 | the result is topk fused documents, best first, and every other one comes after them |
| RankFusion.CollectIs | sft/data_generation/search_sft_hybrid_v1/hybrid_retriever_v1.py:365-382 | fusion holds exactly the documents of either branch, with both ranks and the sum of their shares |
| RankFusion.BeforeTotal | sft/data_generation/search_sft_hybrid_v1/hybrid_retriever_v1.py:384-387 | of two different documents exactly one comes first |
| RankFusion.RankingUnique | sft/data_generation/search_sft_hybrid_v1/hybrid_retriever_v1.py:384-387 | a ranking is determined by what is ranked |
| RankFusion.FusionIsOrderFree | sft/data_generation/search_sft_hybrid_v1/hybrid_retriever_v1.py:365-387 | the order of the input lists does not matter |
| RankFusion.TwoBeatOneIff | sft/data_generation/search_sft_hybrid_v1/hybrid_retriever_v1.py:365-382 | two ranks outscore one for all ranks up to n exactly when n < k + 2 |
| RankFusion.BothFirstIff | sft/data_generation/search_sft_hybrid_v1/hybrid_retriever_v1.py:365-387 | in all hit lists with ranks up to n, documents of both branches precede documents of one exactly when n < k + 2 |
| RankFusion.OneBeforeBoth | sft/data_generation/search_sft_hybrid_v1/hybrid_retriever_v1.py:365-387 | for n >= k + 2, hit lists in which a document of one branch precedes one of both |
| RankFusion.EnoughSparseHits | sft/data_generation/search_sft_hybrid_v1/hybrid_retriever_v1.py:407-408 | with topk distinct sparse hits the length error cannot fire |

## Left out

- Neural networks, FSDP, GPUs, tokenizers, FAISS, Lucene and SQLite internals: arbitrary functions, maps and sequences here; a backend is assumed to search rows independently.
- Floating point, rounding, log, exp and logsigmoid: real arithmetic only.
- Real time, HTTP, JSON encoding, key files, command lines, logging and plots.
- Configuration, qualification, asset and topology checks: long lists of equality and range tests.
- Prompt selection, the policy loss and the channel-scale mathematics: the two channel updates are arbitrary functions in the transaction.
- The free-text reason of a skip or abort, and the saved random state.
- CheckpointCommit.CrashSafety: does not cover power loss, since subdirectories are not flushed, nor a crash inside a single file write; collectives are assumed reliable, the metadata and name checks to pass alike on all ranks, the name not to be the pointer file's, and writers to write only inside the temporary directory.
- PackedScoring.PackedEqualsSequential: the additive form of the mask and the scoring of logits are not modelled.
- IgWindow.ProbeRouted: the validation of persisted branches and probe fields is not modelled, and one budget flag stands for both modes' flags.
- IgWindow.RoleLocalized: likewise.
- RequestBatching.Worker.Put: check and enqueue are one step, while in the source a request can slip in behind the sentinel and is then never taken; the loop's last lines, for a request deferred at exit, are omitted because nothing is ever deferred there.
- TeacherRollout.Client.CreateOnce: the partial fields of an audited call whose answer was refused, prompt-usage accounting, retries and the shared request budget are not modelled.
- ContinuationChecker.ValidateContinuation: the format test of the request fingerprint and the policy version constant are not modelled; the list of calls is not empty, as its caller checks.
- TrajectoryFormat.ValidateBody: the identifier, type, chat-template and token-budget checks around the body are not modelled.
- LossMask.PreferableIff: the checks on the text as a whole (not empty, trimmed, no chat marker) are one arbitrary predicate, which is part of the condition.
- RolloutScheduler.Run.Execute: finished futures are handled one at a time in any order; the interrupt path, the API budget and the stored records are not modelled.
- UpdateTransaction.AttemptEffects: does not say which of the older checkpoints an operator may choose to restart from; a restart goes back to the last published one.
- AttemptController.RunAttempt: what the runtime calls compute is not modelled, only whether they raise; one wave or one call collects the first pool; metrics calls other than the two after selection and skip are part of their neighbours.
- PromptCredit.ComputeFromColumns: the reasons given for missing information gain, and the tests for infinite and not-a-number values, are not modelled.
- RolloutScheduler.Resume: the checkpoint is bound to its inputs (the configuration check of deepseek_rollout.py:368-380, with the input digest and the first public identifier), so a stored row with an input's public identifier is taken to be that input's own.
- RankFusion.Fuse: titles, texts and the branch label of a document are not modelled.
- The sequential rollout loop, exporting, the answer-quality and evidence checks of a rollout, and the terminal-outcome normalisation.
