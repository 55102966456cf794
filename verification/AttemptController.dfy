/** One attempt as the controller runs it: the calls it makes on the transaction and on the
    training runtime, in order, when any runtime call may raise; and what it does with the
    transaction once something has. */
module AttemptController {
  import opened Outcome
  import opened UpdateTransaction

  datatype RolloutConfig = RolloutConfig(
    initial: int, refill: int, maximum: int, wave: int, minSelected: int, maxSelected: int)

  datatype Decision<!C> = Decision(
    requiresRefill: bool, skip: bool, selected: int, ig: (C, bool) -> C, outcome: (C, bool) -> C)

  /** One collection of prompt groups and the selection decided on the pool after it. */
  datatype Round<!C> = Round(groups: nat, decision: Decision<C>)

  /** The places where a runtime call, or a computation between calls, may raise. */
  datatype Site =
    | Boundary | Preflight | SelectionMetrics | SkipMetrics | Preparation
    | ZeroGradCall | ChecksumCall(k: nat) | BackwardCall(k: nat) | BeforeOptimizer
    | OptimizerCall | SchedulerCall | ProposalInputs | CommitCall
    | RollbackCall | AbortInputs

  /** All that the runtime does in one attempt.  A collection that raises is one that is not
      among the rounds. */
  datatype Runtime<!C> = Runtime(
    versions: Versions, rounds: seq<Round<C>>, fails: Site -> bool,
    microbatches: nat, checksum: nat -> string, cursor: int)

  /** Calls that change the model or its gradients. */
  datatype Action = ZeroGradients | Accumulate | StepOptimizer | StepScheduler | CommitUpdate | RollBack

  datatype End<C> = Returned(state: TrainingState<C>, committed: bool) | Raised

  // -------------------------------------------------------------- configuration

  /** The pool sizes reachable from the initial one by whole refills. */
  function AllowedCounts(c: RolloutConfig): seq<int>
    requires c.refill > 0 && c.maximum >= c.initial
  {
    seq((c.maximum - c.initial) / c.refill + 1, i => c.initial + i * c.refill)
  }

  function TransactionConfig(c: RolloutConfig): Option<Config> {
    if c.refill <= 0 || c.maximum < c.initial || (c.maximum - c.initial) % c.refill != 0 then None
    else
      var cfg := Config(AllowedCounts(c), c.minSelected, c.maxSelected);
      if cfg.Valid() then Some(cfg) else None
  }

  /** The largest allowed pool is the configured maximum. */
  lemma LargestPool(c: RolloutConfig)
    requires TransactionConfig(c).Some?
    ensures Maximum(TransactionConfig(c).value.allowedCounts) == c.maximum
  {
    var counts, k := AllowedCounts(c), (c.maximum - c.initial) / c.refill;
    assert k * c.refill == c.maximum - c.initial;
    assert counts[k] == c.maximum;
    forall n | n in counts ensures n <= c.maximum {
      var i :| 0 <= i < |counts| && counts[i] == n;
      TimesGrows(i, k, c.refill);
    }
  }

  lemma TimesGrows(i: int, k: int, r: int)
    requires i <= k && r > 0
    ensures i * r <= k * r
  {
  }

  // ------------------------------------------------------------------ collection

  datatype Pool<!C> = Pool(size: nat, refills: nat, decision: Decision<C>)

  /** Refill until the decision no longer asks for it; None when something raises. */
  function Refilled<C>(c: RolloutConfig, rounds: seq<Round<C>>, pool: Pool<C>): Option<Pool<C>>
    decreases |rounds|
  {
    if !pool.decision.requiresRefill then Some(pool)
    else if pool.size + c.refill > c.maximum || rounds == [] || pool.size + rounds[0].groups > c.maximum then None
    else Refilled(c, rounds[1..], Pool(pool.size + rounds[0].groups, pool.refills + 1, rounds[0].decision))
  }

  function Collected<C>(c: RolloutConfig, rt: Runtime<C>): Option<Pool<C>> {
    if rt.fails(Preflight) || c.wave == 0 || c.initial % c.wave != 0 then None
    else if rt.rounds == [] || rt.rounds[0].groups > c.maximum then None
    else Refilled(c, rt.rounds[1..], Pool(rt.rounds[0].groups, 0, rt.rounds[0].decision))
  }

  method Collect<C>(c: RolloutConfig, rt: Runtime<C>) returns (r: Option<Pool<C>>)
    ensures r == Collected(c, rt)
  {
    if rt.fails(Preflight) || c.wave == 0 || c.initial % c.wave != 0 { return None; }
    if rt.rounds == [] || rt.rounds[0].groups > c.maximum { return None; }
    var pool, k := Pool(rt.rounds[0].groups, 0, rt.rounds[0].decision), 1;
    while pool.decision.requiresRefill
      invariant 1 <= k <= |rt.rounds|
      invariant Refilled(c, rt.rounds[k..], pool) == Collected(c, rt)
      decreases |rt.rounds| - k
    {
      if pool.size + c.refill > c.maximum || k == |rt.rounds| || pool.size + rt.rounds[k].groups > c.maximum {
        return None;
      }
      assert rt.rounds[k..][1..] == rt.rounds[k + 1..];
      pool := Pool(pool.size + rt.rounds[k].groups, pool.refills + 1, rt.rounds[k].decision);
      k := k + 1;
    }
    return Some(pool);
  }

  // ---------------------------------------------------------------- the backward stage

  predicate MicrobatchFine<C>(rt: Runtime<C>, k: nat) {
    !rt.fails(ChecksumCall(k)) && rt.checksum(k) == rt.checksum(0) && !rt.fails(BackwardCall(k))
  }

  predicate GradientsFine<C>(rt: Runtime<C>) {
    && !rt.fails(ZeroGradCall) && rt.microbatches > 0
    && MicrobatchesFine(rt, rt.microbatches)
    && !rt.fails(ChecksumCall(rt.microbatches)) && rt.checksum(rt.microbatches) == rt.checksum(0)
  }

  /** No optimizer step and no roll-back among these calls. */
  predicate HarmlessLog(log: seq<Action>) { StepOptimizer !in log && RollBack !in log }

  /** The transaction in phase Selected after `k` accepted micro-batches. */
  ghost predicate Accumulated<C>(rt: Runtime<C>, tx: StrictUpdateTransaction<C>, k: nat)
    reads tx
  {
    && tx.Valid() && tx.Unraised() && tx.record.phase == Selected
    && tx.record.zeroGradCalls == 1 && tx.record.microbatches == k == |tx.record.checksums|
    && (k > 0 ==> tx.record.checksums[0] == rt.checksum(0))
    && tx.record.optimizerSteps == tx.record.schedulerSteps == 0
  }

  /** A transaction whose calls so far were all accepted, up to the selection. */
  ghost predicate JustSelected<C>(tx: StrictUpdateTransaction<C>)
    reads tx
  {
    && tx.Valid() && tx.Unraised() && tx.record.phase == Selected
    && tx.record.zeroGradCalls == tx.record.microbatches == 0 && tx.record.checksums == []
    && tx.record.optimizerSteps == tx.record.schedulerSteps == 0
  }

  method AccumulateOne<C>(rt: Runtime<C>, tx: StrictUpdateTransaction<C>, k: nat) returns (ok: bool, called: bool)
    requires Accumulated(rt, tx, k)
    modifies tx
    ensures ok <==> MicrobatchFine(rt, k)
    ensures ok ==> Accumulated(rt, tx, k + 1) && called
    ensures !ok ==> tx.Valid() && tx.record.phase == Selected
  {
    if rt.fails(ChecksumCall(k)) { return false, false; }
    var recorded := tx.RecordBackwardMicrobatch(rt.checksum(k));
    if recorded.Err? { return false, false; }
    return !rt.fails(BackwardCall(k)), true;
  }

  method Zero<C>(rt: Runtime<C>, tx: StrictUpdateTransaction<C>) returns (ok: bool)
    requires JustSelected(tx)
    modifies tx
    ensures ok <==> !rt.fails(ZeroGradCall)
    ensures if ok then Accumulated(rt, tx, 0) else tx.Valid() && tx.record.phase == Selected
  {
    if rt.fails(ZeroGradCall) { return false; }
    var zeroed := tx.RecordZeroGrad();
    return true;
  }

  method CloseBackward<C>(rt: Runtime<C>, tx: StrictUpdateTransaction<C>) returns (ok: bool)
    requires Accumulated(rt, tx, rt.microbatches)
    modifies tx
    ensures ok <==>
      rt.microbatches > 0 && !rt.fails(ChecksumCall(rt.microbatches)) && rt.checksum(rt.microbatches) == rt.checksum(0)
    ensures if ok then ReadyToStep(tx) else tx.Valid() && tx.record.phase == Selected
  {
    if rt.fails(ChecksumCall(rt.microbatches)) { return false; }
    var done := tx.CompleteBackwardStage(rt.checksum(rt.microbatches));
    return done.Ok?;
  }

  function Times(k: nat): (log: seq<Action>)
    ensures HarmlessLog(log)
  {
    if k == 0 then [] else Times(k - 1) + [Accumulate]
  }

  predicate MicrobatchesFine<C>(rt: Runtime<C>, n: nat) { forall k | 0 <= k < n :: MicrobatchFine(rt, k) }

  lemma OneMoreFine<C>(rt: Runtime<C>, k: nat)
    requires MicrobatchesFine(rt, k) && MicrobatchFine(rt, k)
    ensures MicrobatchesFine(rt, k + 1)
  {
  }

  method AccumulateAll<C>(rt: Runtime<C>, tx: StrictUpdateTransaction<C>) returns (ok: bool, made: nat)
    requires Accumulated(rt, tx, 0)
    modifies tx
    ensures ok <==> MicrobatchesFine(rt, rt.microbatches)
    ensures ok ==> Accumulated(rt, tx, rt.microbatches) && made == rt.microbatches
    ensures !ok ==> tx.Valid() && tx.record.phase == Selected
  {
    for k := 0 to rt.microbatches
      invariant Accumulated(rt, tx, k) && MicrobatchesFine(rt, k)
    {
      var called;
      ok, called := AccumulateOne(rt, tx, k);
      if !ok { return false, k + if called then 1 else 0; }
      OneMoreFine(rt, k);
    }
    return true, rt.microbatches;
  }

  /** One zero_grad, the micro-batches, and the final checksum. */
  method Backpropagate<C>(rt: Runtime<C>, tx: StrictUpdateTransaction<C>) returns (ok: bool, log: seq<Action>)
    requires JustSelected(tx)
    modifies tx
    ensures ok <==> GradientsFine(rt)
    ensures ok ==> ReadyToStep(tx) && log == [ZeroGradients] + Times(rt.microbatches)
    ensures !ok ==> tx.Valid() && tx.record.phase == Selected
    ensures HarmlessLog(log)
  {
    log := [ZeroGradients];
    ok := Zero(rt, tx);
    if ok {
      var made;
      ok, made := AccumulateAll(rt, tx);
      log := log + Times(made);
      if ok { ok := CloseBackward(rt, tx); }
    }
  }

  // ------------------------------------------------------------- the optimizer stage

  ghost predicate ReadyToStep<C>(tx: StrictUpdateTransaction<C>)
    reads tx
  {
    && tx.Valid() && tx.Unraised() && tx.record.phase == BackwardComplete
    && tx.record.optimizerSteps == tx.record.schedulerSteps == 0
  }

  predicate StepsFine<C>(rt: Runtime<C>) {
    && !rt.fails(BeforeOptimizer) && !rt.fails(OptimizerCall) && !rt.fails(SchedulerCall)
    && !rt.fails(ProposalInputs) && !rt.fails(CommitCall)
  }

  /** What the optimizer stage leaves when it raises: the optimizer may have stepped exactly
      when the transaction says so. */
  ghost predicate StoppedInStage<C>(tx: StrictUpdateTransaction<C>, log: seq<Action>)
    reads tx
  {
    && tx.Valid() && RollBack !in log
    && (if StepOptimizer in log then PastStep(tx.record.phase) else tx.record.phase == BackwardComplete)
  }

  /** The transaction is between the stages, all calls accepted so far. */
  ghost predicate Between<C>(tx: StrictUpdateTransaction<C>, phase: Phase, optimizer: nat, scheduler: nat)
    reads tx
  {
    && tx.Valid() && tx.Unraised() && tx.record.phase == phase
    && tx.record.optimizerSteps == optimizer && tx.record.schedulerSteps == scheduler
  }

  method StepTheOptimizer<C>(rt: Runtime<C>, tx: StrictUpdateTransaction<C>) returns (ok: bool)
    requires Between(tx, BackwardComplete, 0, 0)
    modifies tx
    ensures ok <==> !rt.fails(OptimizerCall)
    ensures if ok then Between(tx, OptimizerStepped, 1, 0) else tx.Valid() && PastStep(tx.record.phase)
  {
    var begun := tx.BeginOptimizerStep();
    if rt.fails(OptimizerCall) { return false; }
    var stepped := tx.RecordOptimizerStep();
    return true;
  }

  method StepTheScheduler<C>(rt: Runtime<C>, tx: StrictUpdateTransaction<C>) returns (ok: bool)
    requires Between(tx, OptimizerStepped, 1, 0)
    modifies tx
    ensures ok <==> !rt.fails(SchedulerCall)
    ensures if ok then Between(tx, SchedulerStepped, 1, 1) else tx.Valid() && PastStep(tx.record.phase)
  {
    var begun := tx.BeginSchedulerStep();
    if rt.fails(SchedulerCall) { return false; }
    var stepped := tx.RecordSchedulerStep();
    return true;
  }

  method ProposeAndCommit<C>(rt: Runtime<C>, tx: StrictUpdateTransaction<C>, decision: Decision<C>)
    returns (end: End<C>, log: seq<Action>)
    requires Between(tx, SchedulerStepped, 1, 1)
    modifies tx
    ensures end.Returned? <==> !rt.fails(ProposalInputs) && !rt.fails(CommitCall)
    ensures end.Returned? ==>
      && Between(tx, Committed, 1, 1) && end.committed && log == [CommitUpdate]
      && Handed(tx.cfg, tx.start, tx.history) == Some(end.state)
    ensures end.Raised? ==> tx.Valid() && PastStep(tx.record.phase) && (log == [] || log == [CommitUpdate])
  {
    if rt.fails(ProposalInputs) { return Raised, []; }
    var next := tx.ProposeCommit(decision.ig, decision.outcome, rt.cursor);
    if rt.fails(CommitCall) { return Raised, [CommitUpdate]; }
    var recorded := tx.RecordCommitSuccess();
    return Returned(next.value.value, true), [CommitUpdate];
  }

  method StepAndCommit<C>(rt: Runtime<C>, tx: StrictUpdateTransaction<C>, decision: Decision<C>)
    returns (end: End<C>, log: seq<Action>)
    requires ReadyToStep(tx)
    modifies tx
    ensures end.Returned? <==> StepsFine(rt)
    ensures end.Returned? ==>
      && tx.Valid() && tx.Unraised() && tx.record.phase == Committed && end.committed
      && Handed(tx.cfg, tx.start, tx.history) == Some(end.state) && log == [StepOptimizer, StepScheduler, CommitUpdate]
    ensures end.Raised? ==> StoppedInStage(tx, log)
  {
    if rt.fails(BeforeOptimizer) { return Raised, []; }
    var ok := StepTheOptimizer(rt, tx);
    if !ok { return Raised, [StepOptimizer]; }
    ok := StepTheScheduler(rt, tx);
    if !ok { return Raised, [StepOptimizer, StepScheduler]; }
    var rest;
    end, rest := ProposeAndCommit(rt, tx, decision);
    log := [StepOptimizer, StepScheduler] + rest;
  }

  // --------------------------------------------------------------- a whole attempt

  predicate Selects<C>(c: RolloutConfig, rt: Runtime<C>, cfg: Config) {
    && Collected(c, rt).Some? && !rt.fails(SelectionMetrics)
    && Collected(c, rt).value.size in cfg.allowedCounts
  }

  /** The runs that are skipped, and those that commit. */
  predicate WillSkip<C>(c: RolloutConfig, rt: Runtime<C>, cfg: Config)
    requires cfg.Valid()
  {
    && Selects(c, rt, cfg) && Collected(c, rt).value.decision.skip
    && Collected(c, rt).value.size == Maximum(cfg.allowedCounts) && !rt.fails(SkipMetrics)
  }

  predicate WillCommit<C>(c: RolloutConfig, rt: Runtime<C>, cfg: Config) {
    && Selects(c, rt, cfg) && !Collected(c, rt).value.decision.skip
    && cfg.minSelected <= Collected(c, rt).value.decision.selected <= cfg.maxSelected
    && !rt.fails(Preparation) && GradientsFine(rt) && StepsFine(rt)
  }

  /** What the guarded part leaves when it raises. */
  ghost predicate StoppedSomewhere<C>(tx: StrictUpdateTransaction<C>, log: seq<Action>)
    reads tx
  {
    && tx.Valid() && RollBack !in log
    && !tx.record.phase.Committed? && !tx.record.phase.Aborted? && !tx.record.phase.Untrusted?
    && (StepOptimizer in log <==> PastStep(tx.record.phase))
  }

  /** What it leaves when it returns. */
  ghost predicate ReturnedWith<C>(
      rt: Runtime<C>, tx: StrictUpdateTransaction<C>, state: TrainingState<C>, committed: bool, log: seq<Action>)
    reads tx
  {
    && tx.Valid() && tx.Unraised() && Handed(tx.cfg, tx.start, tx.history) == Some(state)
    && (if committed then
          && tx.record.phase == Committed
          && log == [ZeroGradients] + Times(rt.microbatches) + [StepOptimizer, StepScheduler, CommitUpdate]
        else tx.record.phase == Skipped && log == [])
  }

  ghost predicate Frozen<C>(tx: StrictUpdateTransaction<C>)
    reads tx
  {
    && tx.Valid() && tx.Unraised() && tx.record == Fresh.(phase := SnapshotFrozen, snapshots := tx.record.snapshots)
  }

  ghost predicate AtScored<C>(tx: StrictUpdateTransaction<C>, candidates: int)
    reads tx
  {
    && tx.Valid() && tx.Unraised() && tx.record.phase == Scored && tx.record.candidates == candidates
    && tx.record.zeroGradCalls == tx.record.microbatches == 0 && tx.record.checksums == []
    && tx.record.optimizerSteps == tx.record.schedulerSteps == 0
  }

  method Score<C>(tx: StrictUpdateTransaction<C>, pool: Pool<C>) returns (ok: bool)
    requires Frozen(tx)
    modifies tx
    ensures ok <==> pool.size in tx.cfg.allowedCounts
    ensures if ok then AtScored(tx, pool.size) else StoppedSomewhere(tx, [])
  {
    var rolled := tx.CompleteRolloutStage(pool.size, pool.refills);
    if rolled.Err? { return false; }
    var scored := tx.CompleteScoringStage();
    return true;
  }

  method SkipIt<C>(rt: Runtime<C>, tx: StrictUpdateTransaction<C>, candidates: int) returns (end: End<C>)
    requires AtScored(tx, candidates) && tx.cfg.Valid()
    modifies tx
    ensures end.Returned? <==> candidates == Maximum(tx.cfg.allowedCounts) && !rt.fails(SkipMetrics)
    ensures if end.Returned? then !end.committed && ReturnedWith(rt, tx, end.state, false, [])
            else StoppedSomewhere(tx, [])
  {
    var skipped := tx.SkipAttempt(rt.cursor);
    if skipped.Err? || rt.fails(SkipMetrics) { return Raised; }
    return Returned(skipped.value.value, false);
  }

  method Choose<C>(rt: Runtime<C>, tx: StrictUpdateTransaction<C>, pool: Pool<C>) returns (end: Option<End<C>>)
    requires Frozen(tx) && tx.cfg.Valid()
    modifies tx
    ensures end.None? <==> pool.size in tx.cfg.allowedCounts && !pool.decision.skip
                           && tx.cfg.minSelected <= pool.decision.selected <= tx.cfg.maxSelected
    ensures end.None? ==> JustSelected(tx)
    ensures end.Some? && end.value.Returned? <==>
      && pool.size in tx.cfg.allowedCounts && pool.decision.skip
      && pool.size == Maximum(tx.cfg.allowedCounts) && !rt.fails(SkipMetrics)
    ensures end.Some? && end.value.Returned? ==>
      !end.value.committed && ReturnedWith(rt, tx, end.value.state, false, [])
    ensures end.Some? && end.value.Raised? ==> StoppedSomewhere(tx, [])
  {
    var ok := Score(tx, pool);
    if !ok { return Some(Raised); }
    if pool.decision.skip {
      var skipped := SkipIt(rt, tx, pool.size);
      return Some(skipped);
    }
    var selected := tx.SelectPrompts(pool.decision.selected);
    return if selected.Err? then Some(Raised) else None;
  }

  method TrainSelected<C>(rt: Runtime<C>, tx: StrictUpdateTransaction<C>, decision: Decision<C>)
    returns (end: End<C>, log: seq<Action>)
    requires JustSelected(tx)
    modifies tx
    ensures end.Returned? <==> GradientsFine(rt) && StepsFine(rt)
    ensures if end.Returned? then end.committed && ReturnedWith(rt, tx, end.state, true, log)
            else StoppedSomewhere(tx, log)
  {
    var ok, gradients := Backpropagate(rt, tx);
    if !ok { return Raised, gradients; }
    var steps;
    end, steps := StepAndCommit(rt, tx, decision);
    log := gradients + steps;
  }

  /** Everything inside the controller's try block. */
  method Guarded<C>(c: RolloutConfig, rt: Runtime<C>, tx: StrictUpdateTransaction<C>)
    returns (end: End<C>, log: seq<Action>)
    requires Frozen(tx)
    modifies tx
    ensures end.Returned? ==> end.committed == WillCommit(c, rt, tx.cfg)
    ensures end.Returned? <==> WillCommit(c, rt, tx.cfg) || WillSkip(c, rt, tx.cfg)
    ensures end.Returned? ==> ReturnedWith(rt, tx, end.state, end.committed, log)
    ensures end.Raised? ==> StoppedSomewhere(tx, log)
  {
    var pool := Collect(c, rt);
    if pool.None? || rt.fails(SelectionMetrics) { return Raised, []; }
    var chosen := Choose(rt, tx, pool.value);
    if chosen.Some? { return chosen.value, []; }
    if rt.fails(Preparation) { return Raised, []; }
    end, log := TrainSelected(rt, tx, pool.value.decision);
  }

  predicate CanRollBack(p: Phase) {
    p in {Created, SnapshotFrozen, RolloutComplete, Scored, Selected, BackwardComplete}
  }

  /** What the controller does with a raised exception: roll back if no step has begun, and
      then abort the transaction. */
  method Recover<C>(rt: Runtime<C>, tx: StrictUpdateTransaction<C>, log: seq<Action>) returns (after: seq<Action>)
    requires StoppedSomewhere(tx, log)
    modifies tx
    ensures tx.Valid() && Failed(rt, tx, after)
  {
    after := log;
    if CanRollBack(tx.record.phase) {
      after := after + [RollBack];
      if rt.fails(RollbackCall) { return; }
    }
    if rt.fails(AbortInputs) { return; }
    var aborted := tx.AbortAttempt(Some(rt.cursor));
  }

  /** MAIN GUARANTEE of a failed attempt: it is not committed; gradients were rolled back
      exactly when no optimizer step had begun and the attempt was not already skipped; and
      unless the recovery itself raised, it is untrusted exactly when the optimizer step had
      begun, and otherwise aborted or skipped. */
  ghost predicate Failed<C>(rt: Runtime<C>, tx: StrictUpdateTransaction<C>, log: seq<Action>)
    reads tx
  {
    var phase := tx.record.phase;
    && !phase.Committed?
    && (RollBack in log <==> StepOptimizer !in log && !phase.Skipped?)
    && (StepOptimizer in log ==> phase.Untrusted? || (rt.fails(AbortInputs) && PastStep(phase)))
    && (StepOptimizer !in log ==>
          phase.Aborted? || phase.Skipped? || ((rt.fails(RollbackCall) || rt.fails(AbortInputs)) && CanRollBack(phase)))
  }

  /** MAIN RESULT: one attempt, whatever raises where.  It commits exactly when nothing fails
      on the way and the pool, selection and checksums are in order; it is skipped exactly
      when the decision skips the largest pool.  A committed attempt made exactly the calls of
      a commit trace on the transaction and exactly one zero_grad, the micro-batches, one
      optimizer step, one scheduler step and one commit on the runtime.  A failed attempt
      leaves the transaction as Failed says. */
  method RunAttempt<C>(c: RolloutConfig, start: TrainingState<C>, rt: Runtime<C>)
    returns (end: End<C>, tx: StrictUpdateTransaction?<C>, log: seq<Action>)
    ensures tx == null <==> TransactionConfig(c).None?
    ensures tx == null ==> end.Raised? && log == []
    ensures tx != null ==> fresh(tx) && tx.Valid() && tx.start == start && Some(tx.cfg) == TransactionConfig(c)
    ensures end.Returned? && end.committed <==>
      tx != null && !rt.fails(Boundary) && rt.versions.Parity() && WillCommit(c, rt, tx.cfg)
    ensures end.Returned? && !end.committed <==>
      tx != null && !rt.fails(Boundary) && rt.versions.Parity() && tx.cfg.Valid() && WillSkip(c, rt, tx.cfg)
    ensures end.Returned? ==> ReturnedWith(rt, tx, end.state, end.committed, log)
    ensures end.Returned? && end.committed ==> CommitTrace(tx.cfg, tx.history) && Proposed(start, end.state)
    ensures end.Returned? && !end.committed ==> OnlyAdvanced(start, end.state)
    ensures end.Returned? ==> Possible(tx.cfg, start, Attempt(tx.history, false, false))
    ensures end.Raised? && tx != null ==>
      Failed(rt, tx, log) || (tx.record == Fresh && log == [] && (rt.fails(Boundary) || !rt.versions.Parity()))
  {
    log := [];
    var cfg := TransactionConfig(c);
    if cfg.None? { return Raised, null, log; }
    var t := new StrictUpdateTransaction(start, cfg.value);
    tx := t;
    if rt.fails(Boundary) { return Raised, t, log; }
    var frozen := t.FreezeSnapshot(rt.versions);
    if frozen.Err? { return Raised, t, log; }
    end, log := Guarded(c, rt, t);
    if end.Raised? {
      log := Recover(rt, t, log);
    } else {
      t.CommittedIff();
      t.HandedState();
    }
  }

  // ------------------------------------------------------------ the training loop

  datatype LoopError = AttemptRaised | BudgetExceeded | NotOneStep

  /** Attempts until the target number of successful updates is reached.  The loop's own
      check that a committed attempt advanced exactly one update can never fail. */
  method Train<C>(c: RolloutConfig, start: TrainingState<C>, runtimes: nat -> Runtime<C>, target: nat)
    returns (r: Result<TrainingState<C>, LoopError>, attempts: nat, commits: nat)
    ensures r.Ok? ==>
      && r.value.successfulUpdateStep
         == (if start.successfulUpdateStep < target then target else start.successfulUpdateStep)
      && r.value.successfulUpdateStep == start.successfulUpdateStep + commits
      && r.value.attemptId == start.attemptId + attempts
    ensures commits <= attempts <= 20 * target
    ensures r != Err(NotOneStep)
  {
    var state := start;
    attempts, commits := 0, 0;
    while state.successfulUpdateStep < target
      invariant commits <= attempts <= 20 * target
      invariant state.successfulUpdateStep == start.successfulUpdateStep + commits
      invariant state.successfulUpdateStep <= target || attempts == 0
      invariant state.attemptId == start.attemptId + attempts
      decreases 20 * target - attempts
    {
      if attempts >= 20 * target { return Err(BudgetExceeded), attempts, commits; }
      var end, tx, log := RunAttempt(c, state, runtimes(attempts));
      if end.Raised? { return Err(AttemptRaised), attempts, commits; }
      if end.committed && end.state.successfulUpdateStep != state.successfulUpdateStep + 1 {
        return Err(NotOneStep), attempts, commits;
      }
      commits := commits + if end.committed then 1 else 0;
      state, attempts := end.state, attempts + 1;
    }
    return Ok(state), attempts, commits;
  }
}
