/** One training attempt as a phase machine, and whole runs of attempts.

    The channel-scale update itself is not part of this model: a channel state is any value
    and the committed update any function of it. */
module UpdateTransaction {
  import opened Outcome

  datatype Phase =
    | Created | SnapshotFrozen | RolloutComplete | Scored | Selected | BackwardComplete
    | OptimizerStepInProgress | OptimizerStepped | SchedulerStepInProgress | SchedulerStepped
    | CommitInProgress | Committed | Skipped | Aborted | Untrusted

  datatype TransactionError =
    | InvalidTransition | SnapshotMismatch | CandidateCount | SelectionBounds | SkipTooEarly
    | ZeroGradTwice | BackwardBeforeZeroGrad | ParametersChanged | NoMicrobatch
    | SteppedTwice | NotSteppedOnce | AlreadyFinal | UntrustedPostStep

  datatype Versions = Versions(actor: int, rollout: int, oldPolicy: int, rewardPolicy: int) {
    predicate Parity() { actor == rollout == oldPolicy == rewardPolicy }
  }

  datatype TrainingState<C> = TrainingState(
    attemptId: int, successfulUpdateStep: int, dataCursor: int, igChannel: C, outcomeChannel: C)

  datatype Config = Config(allowedCounts: seq<int>, minSelected: int, maxSelected: int) {
    predicate Valid() {
      && allowedCounts != [] && (forall c | c in allowedCounts :: c > 0)
      && 0 < minSelected <= maxSelected
    }
  }

  function Maximum(s: seq<int>): (m: int)
    requires s != []
    ensures m in s && forall x | x in s :: x <= m
  {
    if |s| == 1 then s[0]
    else
      assert s == s[..|s| - 1] + [s[|s| - 1]];
      var rest := Maximum(s[..|s| - 1]);
      if rest >= s[|s| - 1] then rest else s[|s| - 1]
  }

  datatype Record = Record(
    phase: Phase, snapshots: Option<Versions>, candidates: int, selected: int, refills: int,
    optimizerSteps: nat, schedulerSteps: nat, zeroGradCalls: nat, microbatches: nat, checksums: seq<string>)

  const Fresh := Record(Created, None, 0, 0, 0, 0, 0, 0, 0, [])

  /** The calls a controller makes on one transaction. */
  datatype Op<!C> =
    | Freeze(versions: Versions)
    | CompleteRollout(candidates: int, refills: int)
    | CompleteScoring
    | Select(count: int)
    | Skip(cursor: int)
    | ZeroGrad
    | Backward(checksum: string)
    | CompleteBackward(final: string)
    | BeginOptimizer | RecordOptimizer | BeginScheduler | RecordScheduler
    | Propose(update: (C, bool) -> C, outcomeUpdate: (C, bool) -> C, cursor: int)
    | CommitSuccess
    | Abort(resumeAt: Option<int>)

  /** What one call does to the record (also when it raises), and the training state it returns. */
  datatype Effect<C> = Effect(record: Record, outcome: Result<Option<TrainingState<C>>, TransactionError>)

  function Raise<C>(record: Record, e: TransactionError): Effect<C> { Effect(record, Err(e)) }
  function Move<C>(record: Record): Effect<C> { Effect(record, Ok(None)) }

  /** The optimizer may have stepped and the attempt is not committed. */
  predicate PastStep(p: Phase) {
    || p.OptimizerStepInProgress? || p.OptimizerStepped?
    || p.SchedulerStepInProgress? || p.SchedulerStepped? || p.CommitInProgress?
  }

  predicate Finalized(p: Phase) { p.Committed? || p.Skipped? || p.Untrusted? }

  function Step<C>(cfg: Config, start: TrainingState<C>, r: Record, op: Op<C>): Effect<C>
    requires cfg.Valid()
  {
    match op
    case Freeze(v) =>
      if !r.phase.Created? then Raise(r, InvalidTransition)
      else if !v.Parity() then Raise(r, SnapshotMismatch)
      else Move(r.(snapshots := Some(v), phase := SnapshotFrozen))
    case CompleteRollout(c, n) =>
      if !r.phase.SnapshotFrozen? then Raise(r, InvalidTransition)
      else if c !in cfg.allowedCounts then Raise(r, CandidateCount)
      else Move(r.(candidates := c, refills := n, phase := RolloutComplete))
    case CompleteScoring =>
      if !r.phase.RolloutComplete? then Raise(r, InvalidTransition)
      else Move(r.(phase := Scored))
    case Select(n) =>
      if !r.phase.Scored? then Raise(r, InvalidTransition)
      else if !(cfg.minSelected <= n <= cfg.maxSelected) then Raise(r, SelectionBounds)
      else Move(r.(selected := n, phase := Selected))
    case Skip(cursor) =>
      if !r.phase.Scored? then Raise(r, InvalidTransition)
      else if r.candidates != Maximum(cfg.allowedCounts) then Raise(r, SkipTooEarly)
      else Effect(r.(phase := Skipped), Ok(Some(start.(attemptId := start.attemptId + 1, dataCursor := cursor))))
    case ZeroGrad =>
      if !r.phase.Selected? then Raise(r, InvalidTransition)
      else
        var r' := r.(zeroGradCalls := r.zeroGradCalls + 1);
        if r'.zeroGradCalls > 1 then Raise(r', ZeroGradTwice) else Move(r')
    case Backward(sum) =>
      if !r.phase.Selected? then Raise(r, InvalidTransition)
      else if r.zeroGradCalls != 1 then Raise(r, BackwardBeforeZeroGrad)
      else if r.checksums != [] && sum != r.checksums[0] then Raise(r, ParametersChanged)
      else Move(r.(checksums := r.checksums + [sum], microbatches := r.microbatches + 1))
    case CompleteBackward(sum) =>
      if !r.phase.Selected? then Raise(r, InvalidTransition)
      else if r.microbatches < 1 then Raise(r, NoMicrobatch)
      else if r.checksums == [] || sum != r.checksums[0] then Raise(r, ParametersChanged)
      else Move(r.(phase := BackwardComplete))
    case BeginOptimizer =>
      if !r.phase.BackwardComplete? then Raise(r, InvalidTransition)
      else if r.optimizerSteps != 0 then Raise(r, SteppedTwice)
      else Move(r.(phase := OptimizerStepInProgress))
    case RecordOptimizer =>
      if !r.phase.OptimizerStepInProgress? then Raise(r, InvalidTransition)
      else
        var r' := r.(optimizerSteps := r.optimizerSteps + 1);
        if r'.optimizerSteps != 1 then Raise(r', SteppedTwice) else Move(r'.(phase := OptimizerStepped))
    case BeginScheduler =>
      if !r.phase.OptimizerStepped? then Raise(r, InvalidTransition)
      else if r.schedulerSteps != 0 then Raise(r, SteppedTwice)
      else Move(r.(phase := SchedulerStepInProgress))
    case RecordScheduler =>
      if !r.phase.SchedulerStepInProgress? then Raise(r, InvalidTransition)
      else
        var r' := r.(schedulerSteps := r.schedulerSteps + 1);
        if r'.schedulerSteps != 1 then Raise(r', SteppedTwice) else Move(r'.(phase := SchedulerStepped))
    case Propose(ig, outcome, cursor) =>
      if !r.phase.SchedulerStepped? then Raise(r, InvalidTransition)
      else if r.optimizerSteps != 1 || r.schedulerSteps != 1 then Raise(r, NotSteppedOnce)
      else
        var first := start.successfulUpdateStep == 0;
        Effect(r.(phase := CommitInProgress), Ok(Some(TrainingState(
          start.attemptId + 1, start.successfulUpdateStep + 1, cursor,
          ig(start.igChannel, first), outcome(start.outcomeChannel, first)))))
    case CommitSuccess =>
      if !r.phase.CommitInProgress? then Raise(r, InvalidTransition)
      else Move(r.(phase := Committed))
    case Abort(cursor) =>
      if PastStep(r.phase) then Raise(r.(phase := Untrusted), UntrustedPostStep)
      else if Finalized(r.phase) then Raise(r, AlreadyFinal)
      else Effect(r.(phase := Aborted), Ok(Some(start.(
             attemptId := start.attemptId + 1,
             dataCursor := if cursor.Some? then cursor.value else start.dataCursor))))
  }

  /** The source's class: one record, updated in place by every call.  The ghost history is
      the calls made so far; the record is always the one they lead to. */
  class StrictUpdateTransaction<C> {
    const cfg: Config
    const start: TrainingState<C>
    var record: Record
    ghost var history: seq<Op<C>>

    ghost predicate Valid()
      reads this
    {
      cfg.Valid() && record == Run(cfg, start, history)
    }

    /** No call has raised. */
    ghost predicate Unraised()
      requires Valid()
      reads this
    {
      Clean(cfg, start, history)
    }

    /** `op` was the last call after those in `before`, and `r` is what it gave. */
    ghost predicate Called(before: seq<Op<C>>, op: Op<C>, r: Result<Option<TrainingState<C>>, TransactionError>)
      requires cfg.Valid()
      reads this
    {
      && history == before + [op] && Effect(record, r) == Step(cfg, start, Run(cfg, start, before), op)
      && Handed(cfg, start, history) == (if r.Ok? && r.value.Some? then r.value else Handed(cfg, start, before))
      && (Clean(cfg, start, before) && r.Ok? ==> Clean(cfg, start, history))
    }

    constructor (start: TrainingState<C>, cfg: Config)
      requires cfg.Valid()
      ensures Valid() && this.start == start && this.cfg == cfg && history == []
    {
      this.start, this.cfg, this.record, this.history := start, cfg, Fresh, [];
    }

    /** MAIN RESULT, on the object: it is committed and no call has raised exactly when the
        calls made on it are a commit trace; and whatever raised, its record is sound. */
    lemma CommittedIff()
      requires Valid()
      ensures record.phase == Committed && Unraised() <==> CommitTrace(cfg, history)
      ensures SoundRecord(cfg, record)
    {
      CommittedIffCommitTrace(cfg, start, history);
      RunSound(cfg, start, history);
    }

    /** The object's last state is the one its phase stands for. */
    lemma HandedState()
      requires Valid()
      ensures HandedFits(start, record.phase, Handed(cfg, start, history))
    {
      RunHanded(cfg, start, history);
    }

    ghost method Note(op: Op<C>)
      requires Valid()
      modifies this`history
      ensures history == old(history) + [op]
      ensures Run(cfg, start, history) == Step(cfg, start, record, op).record
      ensures Last(cfg, start, history) == Step(cfg, start, record, op)
      ensures Handed(cfg, start, history) ==
        var o := Step(cfg, start, record, op).outcome;
        if o.Ok? && o.value.Some? then o.value else old(Handed(cfg, start, history))
      ensures old(Clean(cfg, start, history)) && Step(cfg, start, record, op).outcome.Ok? ==> Clean(cfg, start, history)
    {
      OneMoreCall(cfg, start, history, op);
      history := history + [op];
    }

    method FreezeSnapshot(versions: Versions) returns (r: Result<Option<TrainingState<C>>, TransactionError>)
      requires Valid()
      modifies this
      ensures Valid() && Called(old(history), Freeze(versions), r)
    {
      Note(Freeze(versions));
      if record.phase != Created { return Err(InvalidTransition); }
      if !versions.Parity() { return Err(SnapshotMismatch); }
      record := record.(snapshots := Some(versions));
      record := record.(phase := SnapshotFrozen);
      return Ok(None);
    }

    method CompleteRolloutStage(candidates: int, refills: int)
      returns (r: Result<Option<TrainingState<C>>, TransactionError>)
      requires Valid()
      modifies this
      ensures Valid() && Called(old(history), CompleteRollout(candidates, refills), r)
    {
      Note(CompleteRollout(candidates, refills));
      if record.phase != SnapshotFrozen { return Err(InvalidTransition); }
      if candidates !in cfg.allowedCounts { return Err(CandidateCount); }
      record := record.(candidates := candidates);
      record := record.(refills := refills);
      record := record.(phase := RolloutComplete);
      return Ok(None);
    }

    method CompleteScoringStage() returns (r: Result<Option<TrainingState<C>>, TransactionError>)
      requires Valid()
      modifies this
      ensures Valid() && Called(old(history), CompleteScoring, r)
    {
      Note(CompleteScoring);
      if record.phase != RolloutComplete { return Err(InvalidTransition); }
      record := record.(phase := Scored);
      return Ok(None);
    }

    method SelectPrompts(count: int) returns (r: Result<Option<TrainingState<C>>, TransactionError>)
      requires Valid()
      modifies this
      ensures Valid() && Called(old(history), Select(count), r)
    {
      Note(Select(count));
      if record.phase != Scored { return Err(InvalidTransition); }
      if !(cfg.minSelected <= count <= cfg.maxSelected) { return Err(SelectionBounds); }
      record := record.(selected := count);
      record := record.(phase := Selected);
      return Ok(None);
    }

    method SkipAttempt(cursor: int) returns (r: Result<Option<TrainingState<C>>, TransactionError>)
      requires Valid()
      modifies this
      ensures Valid() && Called(old(history), Skip(cursor), r)
    {
      Note(Skip(cursor));
      if record.phase != Scored { return Err(InvalidTransition); }
      if record.candidates != Maximum(cfg.allowedCounts) { return Err(SkipTooEarly); }
      record := record.(phase := Skipped);
      return Ok(Some(start.(attemptId := start.attemptId + 1, dataCursor := cursor)));
    }

    method RecordZeroGrad() returns (r: Result<Option<TrainingState<C>>, TransactionError>)
      requires Valid()
      modifies this
      ensures Valid() && Called(old(history), ZeroGrad, r)
    {
      Note(ZeroGrad);
      if record.phase != Selected { return Err(InvalidTransition); }
      record := record.(zeroGradCalls := record.zeroGradCalls + 1);
      if record.zeroGradCalls > 1 { return Err(ZeroGradTwice); }
      return Ok(None);
    }

    method RecordBackwardMicrobatch(checksum: string) returns (r: Result<Option<TrainingState<C>>, TransactionError>)
      requires Valid()
      modifies this
      ensures Valid() && Called(old(history), Backward(checksum), r)
    {
      Note(Backward(checksum));
      if record.phase != Selected { return Err(InvalidTransition); }
      if record.zeroGradCalls != 1 { return Err(BackwardBeforeZeroGrad); }
      if record.checksums != [] && checksum != record.checksums[0] { return Err(ParametersChanged); }
      record := record.(checksums := record.checksums + [checksum]);
      record := record.(microbatches := record.microbatches + 1);
      return Ok(None);
    }

    method CompleteBackwardStage(final: string) returns (r: Result<Option<TrainingState<C>>, TransactionError>)
      requires Valid()
      modifies this
      ensures Valid() && Called(old(history), CompleteBackward(final), r)
    {
      Note(CompleteBackward(final));
      if record.phase != Selected { return Err(InvalidTransition); }
      if record.microbatches < 1 { return Err(NoMicrobatch); }
      if record.checksums == [] || final != record.checksums[0] { return Err(ParametersChanged); }
      record := record.(phase := BackwardComplete);
      return Ok(None);
    }

    method BeginOptimizerStep() returns (r: Result<Option<TrainingState<C>>, TransactionError>)
      requires Valid()
      modifies this
      ensures Valid() && Called(old(history), BeginOptimizer, r)
    {
      Note(BeginOptimizer);
      if record.phase != BackwardComplete { return Err(InvalidTransition); }
      if record.optimizerSteps != 0 { return Err(SteppedTwice); }
      record := record.(phase := OptimizerStepInProgress);
      return Ok(None);
    }

    method RecordOptimizerStep() returns (r: Result<Option<TrainingState<C>>, TransactionError>)
      requires Valid()
      modifies this
      ensures Valid() && Called(old(history), RecordOptimizer, r)
    {
      Note(RecordOptimizer);
      if record.phase != OptimizerStepInProgress { return Err(InvalidTransition); }
      record := record.(optimizerSteps := record.optimizerSteps + 1);
      if record.optimizerSteps != 1 { return Err(SteppedTwice); }
      record := record.(phase := OptimizerStepped);
      return Ok(None);
    }

    method BeginSchedulerStep() returns (r: Result<Option<TrainingState<C>>, TransactionError>)
      requires Valid()
      modifies this
      ensures Valid() && Called(old(history), BeginScheduler, r)
    {
      Note(BeginScheduler);
      if record.phase != OptimizerStepped { return Err(InvalidTransition); }
      if record.schedulerSteps != 0 { return Err(SteppedTwice); }
      record := record.(phase := SchedulerStepInProgress);
      return Ok(None);
    }

    method RecordSchedulerStep() returns (r: Result<Option<TrainingState<C>>, TransactionError>)
      requires Valid()
      modifies this
      ensures Valid() && Called(old(history), RecordScheduler, r)
    {
      Note(RecordScheduler);
      if record.phase != SchedulerStepInProgress { return Err(InvalidTransition); }
      record := record.(schedulerSteps := record.schedulerSteps + 1);
      if record.schedulerSteps != 1 { return Err(SteppedTwice); }
      record := record.(phase := SchedulerStepped);
      return Ok(None);
    }

    method ProposeCommit(update: (C, bool) -> C, outcomeUpdate: (C, bool) -> C, cursor: int)
      returns (r: Result<Option<TrainingState<C>>, TransactionError>)
      requires Valid()
      modifies this
      ensures Valid() && Called(old(history), Propose(update, outcomeUpdate, cursor), r)
    {
      Note(Propose(update, outcomeUpdate, cursor));
      if record.phase != SchedulerStepped { return Err(InvalidTransition); }
      if record.optimizerSteps != 1 || record.schedulerSteps != 1 { return Err(NotSteppedOnce); }
      var first := start.successfulUpdateStep == 0;
      var next := TrainingState(start.attemptId + 1, start.successfulUpdateStep + 1, cursor,
                                update(start.igChannel, first), outcomeUpdate(start.outcomeChannel, first));
      record := record.(phase := CommitInProgress);
      return Ok(Some(next));
    }

    method RecordCommitSuccess() returns (r: Result<Option<TrainingState<C>>, TransactionError>)
      requires Valid()
      modifies this
      ensures Valid() && Called(old(history), CommitSuccess, r)
    {
      Note(CommitSuccess);
      if record.phase != CommitInProgress { return Err(InvalidTransition); }
      record := record.(phase := Committed);
      return Ok(None);
    }

    method AbortAttempt(cursor: Option<int>) returns (r: Result<Option<TrainingState<C>>, TransactionError>)
      requires Valid()
      modifies this
      ensures Valid() && Called(old(history), Abort(cursor), r)
    {
      Note(Abort(cursor));
      if PastStep(record.phase) {
        record := record.(phase := Untrusted);
        return Err(UntrustedPostStep);
      }
      if Finalized(record.phase) { return Err(AlreadyFinal); }
      record := record.(phase := Aborted);
      var resume := if cursor.None? then start.dataCursor else cursor.value;
      return Ok(Some(start.(attemptId := start.attemptId + 1, dataCursor := resume)));
    }
  }

  // --------------------------------------------------------- one whole attempt

  /** The record after a sequence of calls, raises ignored by the caller. */
  function Run<C>(cfg: Config, start: TrainingState<C>, ops: seq<Op<C>>): Record
    requires cfg.Valid()
    decreases |ops|
  {
    if ops == [] then Fresh
    else Step(cfg, start, Run(cfg, start, ops[..|ops| - 1]), ops[|ops| - 1]).record
  }

  function Last<C>(cfg: Config, start: TrainingState<C>, ops: seq<Op<C>>): Effect<C>
    requires cfg.Valid() && ops != []
  {
    Step(cfg, start, Run(cfg, start, ops[..|ops| - 1]), ops[|ops| - 1])
  }

  /** No call raised. */
  ghost predicate Clean<C>(cfg: Config, start: TrainingState<C>, ops: seq<Op<C>>)
    requires cfg.Valid()
  {
    forall n | 0 < n <= |ops| :: Last(cfg, start, ops[..n]).outcome.Ok?
  }

  /** The training state the calls have handed out last. */
  function Handed<C>(cfg: Config, start: TrainingState<C>, ops: seq<Op<C>>): Option<TrainingState<C>>
    requires cfg.Valid()
    decreases |ops|
  {
    if ops == [] then None
    else
      var o := Last(cfg, start, ops).outcome;
      if o.Ok? && o.value.Some? then o.value else Handed(cfg, start, ops[..|ops| - 1])
  }

  lemma OneMoreCall<C>(cfg: Config, start: TrainingState<C>, ops: seq<Op<C>>, op: Op<C>)
    requires cfg.Valid()
    ensures var longer, e := ops + [op], Step(cfg, start, Run(cfg, start, ops), op);
      && Run(cfg, start, longer) == e.record && Last(cfg, start, longer) == e
      && Handed(cfg, start, longer)
         == (if e.outcome.Ok? && e.outcome.value.Some? then e.outcome.value else Handed(cfg, start, ops))
      && (Clean(cfg, start, ops) && e.outcome.Ok? ==> Clean(cfg, start, longer))
  {
    var longer := ops + [op];
    assert longer[..|longer| - 1] == ops && longer[..|longer|] == longer;
    forall n | 0 < n <= |ops| ensures longer[..n] == ops[..n] {
    }
  }

  /** The only call that may stand at place `i` of a committing attempt with `m`
      micro-batches and parameter checksum `sum`. */
  predicate Slot<C>(cfg: Config, m: nat, sum: string, i: nat, op: Op<C>) {
    if i == 0 then op.Freeze? && op.versions.Parity()
    else if i == 1 then op.CompleteRollout? && op.candidates in cfg.allowedCounts
    else if i == 2 then op.CompleteScoring?
    else if i == 3 then op.Select? && cfg.minSelected <= op.count <= cfg.maxSelected
    else if i == 4 then op.ZeroGrad?
    else if i < 5 + m then op.Backward? && op.checksum == sum
    else if i == 5 + m then op.CompleteBackward? && op.final == sum
    else if i == 6 + m then op.BeginOptimizer?
    else if i == 7 + m then op.RecordOptimizer?
    else if i == 8 + m then op.BeginScheduler?
    else if i == 9 + m then op.RecordScheduler?
    else if i == 10 + m then op.Propose?
    else i == 11 + m && op.CommitSuccess?
  }

  /** The calls of a committing attempt: snapshot, rollout, scoring, selection, one
      zero_grad, m >= 1 micro-batches under one checksum, one optimizer step, one scheduler
      step, one proposal and one commit, in this order and nothing else. */
  ghost predicate CommitTrace<C>(cfg: Config, ops: seq<Op<C>>) {
    exists sum :: CommitTraceWith(cfg, sum, ops)
  }

  ghost predicate CommitTraceWith<C>(cfg: Config, sum: string, ops: seq<Op<C>>) {
    |ops| >= 13 && AllSlots(cfg, |ops| - 12, sum, ops)
  }

  ghost predicate AllSlots<C>(cfg: Config, m: nat, sum: string, ops: seq<Op<C>>) {
    forall i | 0 <= i < |ops| :: Slot(cfg, m, sum, i, ops[i])
  }

  function PhaseAt(n: nat, m: nat): Phase {
    if n == 0 then Created else if n == 1 then SnapshotFrozen else if n == 2 then RolloutComplete
    else if n == 3 then Scored else if n <= 5 + m then Selected
    else if n == 6 + m then BackwardComplete else if n == 7 + m then OptimizerStepInProgress
    else if n == 8 + m then OptimizerStepped else if n == 9 + m then SchedulerStepInProgress
    else if n == 10 + m then SchedulerStepped else if n == 11 + m then CommitInProgress else Committed
  }

  /** The record after `n` raise-free calls, `m` of them micro-batches so far. */
  ghost predicate At(r: Record, n: nat, m: nat, sum: string) {
    && r.phase == PhaseAt(n, m) && n <= 12 + m
    && (n < 5 ==> m == 0) && (n >= 5 ==> n >= 5 + m) && (n > 5 + m ==> m > 0)
    && r.microbatches == m == |r.checksums| && (m > 0 ==> r.checksums[0] == sum)
    && r.zeroGradCalls == (if n < 5 then 0 else 1)
    && r.optimizerSteps == (if n < 8 + m then 0 else 1)
    && r.schedulerSteps == (if n < 10 + m then 0 else 1)
  }

  predicate Stopped(phase: Phase) { phase.Skipped? || phase.Aborted? || phase.Untrusted? }

  /** A raise-free call from a known place is the call that belongs there, or it stops the attempt. */
  lemma StepForward<C>(cfg: Config, start: TrainingState<C>, r: Record, n: nat, m: nat, sum: string, op: Op<C>)
    requires cfg.Valid() && At(r, n, m, sum) && Step(cfg, start, r, op).outcome.Ok?
    ensures var r' := Step(cfg, start, r, op).record;
      Stopped(r'.phase)
      || (op.Backward? && n == 5 + m && (m > 0 ==> op.checksum == sum) && At(r', n + 1, m + 1, op.checksum))
      || (!op.Backward? && Slot(cfg, m, sum, n, op) && At(r', n + 1, m, sum))
  {
  }

  lemma SlotRuns<C>(cfg: Config, start: TrainingState<C>, r: Record, n: nat, m: nat, all: nat, sum: string, op: Op<C>)
    requires cfg.Valid() && At(r, n, m, sum) && all >= 1
    requires m == (if n < 5 then 0 else if n - 5 < all then n - 5 else all)
    requires Slot(cfg, all, sum, n, op)
    ensures Step(cfg, start, r, op).outcome.Ok?
    ensures At(Step(cfg, start, r, op).record, n + 1, if 5 <= n < 5 + all then m + 1 else m, sum)
  {
  }

  lemma StoppedStaysStopped<C>(cfg: Config, start: TrainingState<C>, r: Record, op: Op<C>)
    requires cfg.Valid() && Stopped(r.phase)
    ensures Stopped(Step(cfg, start, r, op).record.phase)
  {
  }

  lemma SlotsWithoutMicrobatch<C>(cfg: Config, m: nat, sum: string, ops: seq<Op<C>>, op: Op<C>)
    requires AllSlots(cfg, m, sum, ops) && Slot(cfg, m, sum, |ops|, op)
    ensures AllSlots(cfg, m, sum, ops + [op])
  {
  }

  lemma SlotsWithMicrobatch<C>(cfg: Config, m: nat, sum: string, ops: seq<Op<C>>, op: Op<C>)
    requires AllSlots(cfg, m, sum, ops) && |ops| == 5 + m && op.Backward? && (m > 0 ==> op.checksum == sum)
    ensures AllSlots(cfg, m + 1, op.checksum, ops + [op])
  {
    forall i | 0 <= i < |ops| ensures Slot(cfg, m + 1, op.checksum, i, ops[i]) {
      assert Slot(cfg, m, sum, i, ops[i]);
    }
  }

  /** What every raise-free history has been, unless it was skipped or aborted. */
  lemma {:induction false} CleanHistory<C>(cfg: Config, start: TrainingState<C>, ops: seq<Op<C>>)
    returns (m: nat, sum: string)
    requires cfg.Valid() && Clean(cfg, start, ops)
    ensures Stopped(Run(cfg, start, ops).phase)
         || (At(Run(cfg, start, ops), |ops|, m, sum) && AllSlots(cfg, m, sum, ops))
    decreases |ops|
  {
    m, sum := 0, "";
    if ops != [] {
      var front := ops[..|ops| - 1];
      CleanFront(cfg, start, ops, front);
      m, sum := CleanHistory(cfg, start, front);
      m, sum := HistoryGrows(cfg, start, ops, front, m, sum);
    }
  }

  lemma CleanFront<C>(cfg: Config, start: TrainingState<C>, ops: seq<Op<C>>, front: seq<Op<C>>)
    requires cfg.Valid() && Clean(cfg, start, ops) && ops != [] && front == ops[..|ops| - 1]
    ensures Clean(cfg, start, front) && Step(cfg, start, Run(cfg, start, front), ops[|ops| - 1]).outcome.Ok?
  {
    assert ops[..|ops|] == ops;
    assert Last(cfg, start, ops[..|ops|]).outcome.Ok?;
    forall n | 0 < n <= |front| ensures Last(cfg, start, front[..n]).outcome.Ok? {
      assert front[..n] == ops[..n];
    }
  }

  lemma HistoryGrows<C>(cfg: Config, start: TrainingState<C>, ops: seq<Op<C>>, front: seq<Op<C>>, m: nat, sum: string)
    returns (m': nat, sum': string)
    requires cfg.Valid() && ops != [] && front == ops[..|ops| - 1]
    requires Step(cfg, start, Run(cfg, start, front), ops[|ops| - 1]).outcome.Ok?
    requires
      || Stopped(Run(cfg, start, front).phase)
      || (At(Run(cfg, start, front), |front|, m, sum) && AllSlots(cfg, m, sum, front))
    ensures
      || Stopped(Run(cfg, start, ops).phase)
      || (At(Run(cfg, start, ops), |ops|, m', sum') && AllSlots(cfg, m', sum', ops))
  {
    var r, op := Run(cfg, start, front), ops[|ops| - 1];
    assert ops == front + [op] && Run(cfg, start, ops) == Step(cfg, start, r, op).record;
    m', sum' := m, sum;
    if Stopped(r.phase) {
      StoppedStaysStopped(cfg, start, r, op);
    } else {
      StepForward(cfg, start, r, |front|, m, sum, op);
      if Stopped(Step(cfg, start, r, op).record.phase) {
      } else if op.Backward? {
        SlotsWithMicrobatch(cfg, m, sum, front, op);
        m', sum' := m + 1, op.checksum;
      } else {
        SlotsWithoutMicrobatch(cfg, m, sum, front, op);
      }
    }
  }

  lemma {:induction false} CommitTraceRuns<C>(
      cfg: Config, start: TrainingState<C>, ops: seq<Op<C>>, all: nat, sum: string, n: nat)
    requires cfg.Valid() && all >= 1 && |ops| == 12 + all && AllSlots(cfg, all, sum, ops) && n <= |ops|
    ensures n > 0 ==> Last(cfg, start, ops[..n]).outcome.Ok?
    ensures At(Run(cfg, start, ops[..n]), n, if n < 5 then 0 else if n - 5 < all then n - 5 else all, sum)
    decreases n
  {
    if n > 0 {
      CommitTraceRuns(cfg, start, ops, all, sum, n - 1);
      var m := if n < 6 then 0 else if n - 6 < all then n - 6 else all;
      var front := ops[..n - 1];
      SlotRuns(cfg, start, Run(cfg, start, front), n - 1, m, all, sum, ops[n - 1]);
      NextRun(cfg, start, ops, n);
    }
  }

  lemma NextRun<C>(cfg: Config, start: TrainingState<C>, ops: seq<Op<C>>, n: nat)
    requires cfg.Valid() && 0 < n <= |ops|
    ensures Run(cfg, start, ops[..n]) == Step(cfg, start, Run(cfg, start, ops[..n - 1]), ops[n - 1]).record
    ensures Last(cfg, start, ops[..n]) == Step(cfg, start, Run(cfg, start, ops[..n - 1]), ops[n - 1])
  {
    assert ops[..n][..n - 1] == ops[..n - 1];
  }

  /** MAIN RESULT: a raise-free sequence of calls ends committed exactly when it is a commit trace. */
  lemma CommittedIffCommitTrace<C>(cfg: Config, start: TrainingState<C>, ops: seq<Op<C>>)
    requires cfg.Valid()
    ensures Clean(cfg, start, ops) && Run(cfg, start, ops).phase == Committed <==> CommitTrace(cfg, ops)
  {
    assert ops[..|ops|] == ops;
    if Clean(cfg, start, ops) && Run(cfg, start, ops).phase == Committed {
      var m, sum := CleanHistory(cfg, start, ops);
      assert CommitTraceWith(cfg, sum, ops);
    }
    if sum :| CommitTraceWith(cfg, sum, ops) {
      forall n | 0 < n <= |ops| ensures Last(cfg, start, ops[..n]).outcome.Ok? {
        CommitTraceRuns(cfg, start, ops, |ops| - 12, sum, n);
      }
      CommitTraceRuns(cfg, start, ops, |ops| - 12, sum, |ops|);
      assert Run(cfg, start, ops).phase == Committed;
    }
  }

  /** Calls refused because zero_grad had already been recorded. */
  function RefusedZeroGrads<C>(cfg: Config, start: TrainingState<C>, ops: seq<Op<C>>): nat
    requires cfg.Valid()
    decreases |ops|
  {
    if ops == [] then 0
    else RefusedZeroGrads(cfg, start, ops[..|ops| - 1])
         + if Last(cfg, start, ops).outcome == Err(ZeroGradTwice) then 1 else 0
  }

  /** How far a phase has come; a stopped attempt keeps what it must have passed. */
  function Progress(phase: Phase): int {
    match phase
    case Created => 0 case SnapshotFrozen => 1 case RolloutComplete => 2 case Scored => 3 case Selected => 4
    case BackwardComplete => 5 case OptimizerStepInProgress => 6 case OptimizerStepped => 7
    case SchedulerStepInProgress => 8 case SchedulerStepped => 9 case CommitInProgress => 10 case Committed => 11
    case Skipped => 3 case Aborted => 0 case Untrusted => 6
  }

  /** What every record satisfies, whatever calls raised and were ignored: the snapshot has
      parity, the candidate and selection counts are allowed ones, and a committed record
      shows one optimizer step, one scheduler step and at least one micro-batch. */
  ghost predicate SoundRecord(cfg: Config, r: Record)
    requires cfg.Valid()
  {
    && r.microbatches == |r.checksums| && (forall i | 0 <= i < |r.checksums| :: r.checksums[i] == r.checksums[0])
    && (r.microbatches >= 1 ==> r.zeroGradCalls >= 1)
    && (Progress(r.phase) >= 1 ==> r.snapshots.Some? && r.snapshots.value.Parity())
    && (Progress(r.phase) >= 2 ==> r.candidates in cfg.allowedCounts)
    && (Progress(r.phase) >= 4 ==> cfg.minSelected <= r.selected <= cfg.maxSelected)
    && (r.phase.Skipped? ==> r.candidates == Maximum(cfg.allowedCounts))
    && (Progress(r.phase) >= 5 ==> r.microbatches >= 1)
    && (!r.phase.Untrusted? ==> r.optimizerSteps == (if Progress(r.phase) >= 7 then 1 else 0))
    && (!r.phase.Untrusted? ==> r.schedulerSteps == (if Progress(r.phase) >= 9 then 1 else 0))
  }

  lemma StepSound<C>(cfg: Config, start: TrainingState<C>, r: Record, op: Op<C>)
    requires cfg.Valid() && SoundRecord(cfg, r)
    ensures SoundRecord(cfg, Step(cfg, start, r, op).record)
  {
  }

  lemma {:induction false} RunSound<C>(cfg: Config, start: TrainingState<C>, ops: seq<Op<C>>)
    requires cfg.Valid()
    ensures SoundRecord(cfg, Run(cfg, start, ops))
    decreases |ops|
  {
    if ops != [] {
      RunSound(cfg, start, ops[..|ops| - 1]);
      StepSound(cfg, start, Run(cfg, start, ops[..|ops| - 1]), ops[|ops| - 1]);
    }
  }

  /** A committed record's zero_grad counter is one exactly when no zero_grad was refused. */
  lemma {:induction false} ZeroGradCounter<C>(cfg: Config, start: TrainingState<C>, ops: seq<Op<C>>)
    requires cfg.Valid()
    ensures var z := Run(cfg, start, ops).zeroGradCalls;
      z == RefusedZeroGrads(cfg, start, ops) + if z == 0 then 0 else 1
    ensures Run(cfg, start, ops).phase.Committed? ==>
      (Run(cfg, start, ops).zeroGradCalls == 1 <==> RefusedZeroGrads(cfg, start, ops) == 0)
    decreases |ops|
  {
    RunSound(cfg, start, ops);
    if ops != [] {
      var front := ops[..|ops| - 1];
      ZeroGradCounter(cfg, start, front);
      ZeroGradStep(cfg, start, Run(cfg, start, front), RefusedZeroGrads(cfg, start, front), ops[|ops| - 1]);
    }
  }

  lemma ZeroGradStep<C>(cfg: Config, start: TrainingState<C>, r: Record, refused: nat, op: Op<C>)
    requires cfg.Valid() && r.zeroGradCalls == refused + if r.zeroGradCalls == 0 then 0 else 1
    ensures var e := Step(cfg, start, r, op);
      var after := refused + if e.outcome == Err(ZeroGradTwice) then 1 else 0;
      e.record.zeroGradCalls == after + if e.record.zeroGradCalls == 0 then 0 else 1
  {
  }

  lemma Extend<C>(cfg: Config, start: TrainingState<C>, ops: seq<Op<C>>, op: Op<C>, r: Record)
    returns (longer: seq<Op<C>>)
    requires cfg.Valid() && Step(cfg, start, Run(cfg, start, ops), op).record == r
    ensures Run(cfg, start, longer) == r
  {
    longer := ops + [op];
    assert longer[..|longer| - 1] == ops;
  }

  /** A caller that swallows the refusal can still commit: the zero_grad counter is then 2. */
  lemma RefusedZeroGradCanCommit<C>(start: TrainingState<C>)
    ensures exists cfg: Config, ops: seq<Op<C>> ::
      cfg.Valid() && Run(cfg, start, ops).phase == Committed && Run(cfg, start, ops).zeroGradCalls == 2
  {
    var cfg := Config([64], 1, 1);
    var ops, r := BackwardOne(cfg, start);
    r := r.(zeroGradCalls := 2);
    ops := Extend(cfg, start, ops, ZeroGrad, r);
    r := r.(phase := BackwardComplete);
    ops := Extend(cfg, start, ops, CompleteBackward("x"), r);
    ops := ProposeFromBackward(cfg, start, ops, r);
    r := r.(phase := Committed, optimizerSteps := 1, schedulerSteps := 1);
    ops := Extend(cfg, start, ops, CommitSuccess, r);
  }

  lemma BackwardOne<C>(cfg: Config, start: TrainingState<C>) returns (ops: seq<Op<C>>, r: Record)
    requires cfg == Config([64], 1, 1)
    ensures cfg.Valid() && Run(cfg, start, ops) == r && r.phase == Selected && r.zeroGradCalls == 1
    ensures r.optimizerSteps == r.schedulerSteps == 0 && r.microbatches == 1 && r.checksums == ["x"]
  {
    ops, r := SelectOne(cfg, start);
    r := r.(zeroGradCalls := 1);
    ops := Extend(cfg, start, ops, ZeroGrad, r);
    r := r.(microbatches := 1, checksums := ["x"]);
    ops := Extend(cfg, start, ops, Backward("x"), r);
  }

  lemma SelectOne<C>(cfg: Config, start: TrainingState<C>) returns (ops: seq<Op<C>>, r: Record)
    requires cfg == Config([64], 1, 1)
    ensures cfg.Valid() && Run(cfg, start, ops) == r
    ensures r == Fresh.(phase := Selected, snapshots := Some(Versions(0, 0, 0, 0)), candidates := 64, selected := 1)
  {
    var v := Versions(0, 0, 0, 0);
    r := Fresh.(phase := SnapshotFrozen, snapshots := Some(v));
    ops := Extend(cfg, start, [], Freeze(v), r);
    r := r.(phase := RolloutComplete, candidates := 64);
    ops := Extend(cfg, start, ops, CompleteRollout(64, 0), r);
    r := r.(phase := Scored);
    ops := Extend(cfg, start, ops, CompleteScoring, r);
    r := r.(phase := Selected, selected := 1);
    ops := Extend(cfg, start, ops, Select(1), r);
  }

  lemma ProposeFromBackward<C>(cfg: Config, start: TrainingState<C>, ops: seq<Op<C>>, r: Record)
    returns (longer: seq<Op<C>>)
    requires cfg.Valid() && Run(cfg, start, ops) == r && r.phase.BackwardComplete?
    requires r.optimizerSteps == r.schedulerSteps == 0
    ensures Run(cfg, start, longer) == r.(phase := CommitInProgress, optimizerSteps := 1, schedulerSteps := 1)
  {
    var keep := (c: C, first: bool) => c;
    longer := Extend(cfg, start, ops, BeginOptimizer, r.(phase := OptimizerStepInProgress));
    var s := r.(phase := OptimizerStepped, optimizerSteps := 1);
    longer := Extend(cfg, start, longer, RecordOptimizer, s);
    longer := Extend(cfg, start, longer, BeginScheduler, s.(phase := SchedulerStepInProgress));
    s := s.(phase := SchedulerStepped, schedulerSteps := 1);
    longer := Extend(cfg, start, longer, RecordScheduler, s);
    longer := Extend(cfg, start, longer, Propose(keep, keep, 0), s.(phase := CommitInProgress));
  }

  // ------------------------------------------------- what an attempt hands out

  /** A skip or an abort changes the attempt number and the cursor only. */
  predicate OnlyAdvanced<C(==)>(start: TrainingState<C>, s: TrainingState<C>) {
    s == start.(attemptId := start.attemptId + 1, dataCursor := s.dataCursor)
  }

  predicate Proposed<C>(start: TrainingState<C>, s: TrainingState<C>) {
    s.attemptId == start.attemptId + 1 && s.successfulUpdateStep == start.successfulUpdateStep + 1
  }

  /** The state handed out last, by the phase reached, whatever calls raised on the way. */
  predicate HandedFits<C(==)>(start: TrainingState<C>, phase: Phase, handed: Option<TrainingState<C>>) {
    if phase.CommitInProgress? || phase.Committed? then handed.Some? && Proposed(start, handed.value)
    else if phase.Untrusted? then handed.Some? ==> Proposed(start, handed.value)
    else if phase.Skipped? || phase.Aborted? then handed.Some? && OnlyAdvanced(start, handed.value)
    else handed.None?
  }

  lemma StepHanded<C>(cfg: Config, start: TrainingState<C>, r: Record, handed: Option<TrainingState<C>>, op: Op<C>)
    requires cfg.Valid() && HandedFits(start, r.phase, handed)
    ensures var e := Step(cfg, start, r, op);
      HandedFits(start, e.record.phase, if e.outcome.Ok? && e.outcome.value.Some? then e.outcome.value else handed)
  {
  }

  lemma {:induction false} RunHanded<C>(cfg: Config, start: TrainingState<C>, ops: seq<Op<C>>)
    requires cfg.Valid()
    ensures HandedFits(start, Run(cfg, start, ops).phase, Handed(cfg, start, ops))
    decreases |ops|
  {
    if ops != [] {
      var front := ops[..|ops| - 1];
      RunHanded(cfg, start, front);
      StepHanded(cfg, start, Run(cfg, start, front), Handed(cfg, start, front), ops[|ops| - 1]);
    }
  }

  ghost predicate CursorNonNegative<C>(op: Op<C>) {
    && (op.Skip? || op.Propose? ==> op.cursor >= 0)
    && (op.Abort? && op.resumeAt.Some? ==> op.resumeAt.value >= 0)
  }

  ghost predicate CursorsNonNegative<C>(ops: seq<Op<C>>) {
    forall op | op in ops :: CursorNonNegative(op)
  }

  lemma {:induction false} HandedCursor<C>(cfg: Config, start: TrainingState<C>, ops: seq<Op<C>>)
    requires cfg.Valid() && CursorsNonNegative(ops) && start.dataCursor >= 0
    ensures Handed(cfg, start, ops).Some? ==> Handed(cfg, start, ops).value.dataCursor >= 0
    decreases |ops|
  {
    if ops != [] {
      assert CursorNonNegative(ops[|ops| - 1]);
      HandedCursor(cfg, start, ops[..|ops| - 1]);
    }
  }

  // ------------------------------------------------------- campaigns of attempts

  /** What survives between attempts: the state the next attempt starts from, and the one
      on disk, which is what a restart goes back to. */
  datatype Durable<C> = Durable(current: TrainingState<C>, checkpoint: TrainingState<C>)

  /** One attempt: its calls, whether the proposed state was published as a checkpoint, and
      whether the process ended with it, by an exception or a crash, and was restarted. */
  datatype Attempt<!C> = Attempt(ops: seq<Op<C>>, published: bool, restart: bool)

  /** Which attempts can happen: calls may raise at will, but only an accepted proposal is
      published, and the process goes on only with an attempt that ended in good order. */
  ghost predicate Possible<C>(cfg: Config, start: TrainingState<C>, a: Attempt<C>)
    requires cfg.Valid()
  {
    var phase := Run(cfg, start, a.ops).phase;
    && (a.published ==> Handed(cfg, start, a.ops).Some? && phase in {CommitInProgress, Committed, Untrusted})
    && (!a.restart ==> phase in {Committed, Skipped, Aborted})
  }

  ghost function Next<C>(cfg: Config, d: Durable<C>, a: Attempt<C>): Durable<C>
    requires cfg.Valid() && Possible(cfg, d.current, a)
  {
    RunHanded(cfg, d.current, a.ops);
    var disk := if a.published then Handed(cfg, d.current, a.ops).value else d.checkpoint;
    Durable(if a.restart then disk else Handed(cfg, d.current, a.ops).value, disk)
  }

  /** Every attempt is possible from where the ones before it have led. */
  ghost predicate Orderly<C>(cfg: Config, d: Durable<C>, attempts: seq<Attempt<C>>)
    requires cfg.Valid()
    decreases |attempts|, 0
  {
    attempts == [] ||
    var front := attempts[..|attempts| - 1];
    Orderly(cfg, d, front) && Possible(cfg, Campaign(cfg, d, front).current, attempts[|attempts| - 1])
  }

  ghost function Campaign<C>(cfg: Config, d: Durable<C>, attempts: seq<Attempt<C>>): Durable<C>
    requires cfg.Valid() && Orderly(cfg, d, attempts)
    decreases |attempts|, 1
  {
    if attempts == [] then d
    else Next(cfg, Campaign(cfg, d, attempts[..|attempts| - 1]), attempts[|attempts| - 1])
  }

  /** The counter checks of checkpoint metadata validation. */
  predicate MetadataCountersValid<C>(s: TrainingState<C>) {
    0 <= s.successfulUpdateStep <= s.attemptId && s.dataCursor >= 0
  }

  /** How one attempt changes the live state and the checkpoint. */
  lemma AttemptEffects<C>(cfg: Config, d: Durable<C>, a: Attempt<C>)
    requires cfg.Valid() && Possible(cfg, d.current, a)
    ensures var d', phase := Next(cfg, d, a), Run(cfg, d.current, a.ops).phase;
      && (if a.published then Proposed(d.current, d'.checkpoint) else d'.checkpoint == d.checkpoint)
      && (a.restart ==> d'.current == d'.checkpoint)
      && (!a.restart && phase.Committed? ==>
            Proposed(d.current, d'.current) && (a.published ==> d'.current == d'.checkpoint))
      && (!a.restart && !phase.Committed? ==> OnlyAdvanced(d.current, d'.current) && !a.published)
  {
    RunHanded(cfg, d.current, a.ops);
  }

  lemma AttemptCursors<C>(cfg: Config, d: Durable<C>, a: Attempt<C>)
    requires cfg.Valid() && Possible(cfg, d.current, a) && CursorsNonNegative(a.ops)
    requires d.current.dataCursor >= 0 && d.checkpoint.dataCursor >= 0
    ensures Next(cfg, d, a).current.dataCursor >= 0 && Next(cfg, d, a).checkpoint.dataCursor >= 0
  {
    RunHanded(cfg, d.current, a.ops);
    HandedCursor(cfg, d.current, a.ops);
  }

  /** MAIN RESULT: over every campaign - any mix of commits, skips and aborts, of attempts in
      which calls raised, of failures before and after the checkpoint was published, and of
      restarts - the counters of the live state and of the state on disk always satisfy
      checkpoint metadata validation. */
  lemma {:induction false} CampaignKeepsCounters<C>(cfg: Config, d: Durable<C>, attempts: seq<Attempt<C>>)
    requires cfg.Valid() && MetadataCountersValid(d.current) && MetadataCountersValid(d.checkpoint)
    requires Orderly(cfg, d, attempts) && forall a | a in attempts :: CursorsNonNegative(a.ops)
    ensures MetadataCountersValid(Campaign(cfg, d, attempts).current)
    ensures MetadataCountersValid(Campaign(cfg, d, attempts).checkpoint)
    decreases |attempts|
  {
    if attempts != [] {
      var front, last := attempts[..|attempts| - 1], attempts[|attempts| - 1];
      CampaignKeepsCounters(cfg, d, front);
      assert last in attempts;
      AttemptEffects(cfg, Campaign(cfg, d, front), last);
      AttemptCursors(cfg, Campaign(cfg, d, front), last);
    }
  }

  /** The attempts whose proposal was published. */
  function Publications<C>(attempts: seq<Attempt<C>>): nat {
    if attempts == [] then 0
    else Publications(attempts[..|attempts| - 1]) + if attempts[|attempts| - 1].published then 1 else 0
  }

  predicate AnyRestart<C>(attempts: seq<Attempt<C>>) {
    exists i :: 0 <= i < |attempts| && attempts[i].restart
  }

  /** The attempts that ended committed. */
  ghost function Commits<C>(cfg: Config, d: Durable<C>, attempts: seq<Attempt<C>>): nat
    requires cfg.Valid() && Orderly(cfg, d, attempts)
    decreases |attempts|
  {
    if attempts == [] then 0
    else
      var front := attempts[..|attempts| - 1];
      Commits(cfg, d, front)
      + if Run(cfg, Campaign(cfg, d, front).current, attempts[|attempts| - 1].ops).phase.Committed? then 1 else 0
  }

  /** The attempts that failed after their proposal was published. */
  ghost function LateFailures<C>(cfg: Config, d: Durable<C>, attempts: seq<Attempt<C>>): nat
    requires cfg.Valid() && Orderly(cfg, d, attempts)
    decreases |attempts|
  {
    if attempts == [] then 0
    else
      var front, last := attempts[..|attempts| - 1], attempts[|attempts| - 1];
      LateFailures(cfg, d, front)
      + if last.published && !Run(cfg, Campaign(cfg, d, front).current, last.ops).phase.Committed? then 1 else 0
  }

  /** Every attempt that commits has published its checkpoint. */
  ghost predicate CommitsPublish<C>(cfg: Config, d: Durable<C>, attempts: seq<Attempt<C>>)
    requires cfg.Valid() && Orderly(cfg, d, attempts)
    decreases |attempts|
  {
    attempts == [] ||
    var front, last := attempts[..|attempts| - 1], attempts[|attempts| - 1];
    CommitsPublish(cfg, d, front)
    && (Run(cfg, Campaign(cfg, d, front).current, last.ops).phase.Committed? ==> last.published)
  }

  /** The live state and the checkpoint differ in the attempt number and the cursor only. */
  predicate SameTraining<C(==)>(a: TrainingState<C>, b: TrainingState<C>) {
    a == b.(attemptId := a.attemptId, dataCursor := a.dataCursor)
  }

  /** MAIN RESULT: when commits publish their checkpoints, the success counter counts the
      published proposals exactly, whatever failed, was skipped or was restarted in between;
      and neither a skip, an abort nor a restart ever changes a channel. */
  lemma {:induction false} CampaignAccounting<C>(cfg: Config, s: TrainingState<C>, attempts: seq<Attempt<C>>)
    requires cfg.Valid() && Orderly(cfg, Durable(s, s), attempts) && CommitsPublish(cfg, Durable(s, s), attempts)
    ensures var d := Campaign(cfg, Durable(s, s), attempts);
      && d.current.successfulUpdateStep == s.successfulUpdateStep + Publications(attempts)
      && SameTraining(d.checkpoint, d.current)
    decreases |attempts|
  {
    if attempts != [] {
      var front := attempts[..|attempts| - 1];
      CampaignAccounting(cfg, s, front);
      AttemptEffects(cfg, Campaign(cfg, Durable(s, s), front), attempts[|attempts| - 1]);
    }
  }

  /** Published proposals are those of committed attempts and of late failures. */
  lemma {:induction false} PublicationsAreCommits<C>(cfg: Config, d: Durable<C>, attempts: seq<Attempt<C>>)
    requires cfg.Valid() && Orderly(cfg, d, attempts) && CommitsPublish(cfg, d, attempts)
    ensures Publications(attempts) == Commits(cfg, d, attempts) + LateFailures(cfg, d, attempts)
    decreases |attempts|
  {
    if attempts != [] { PublicationsAreCommits(cfg, d, attempts[..|attempts| - 1]); }
  }

  /** MAIN RESULT: the success counter counts the committed attempts exactly when no attempt
      failed after publishing its checkpoint. */
  lemma CounterCountsCommits<C>(cfg: Config, s: TrainingState<C>, attempts: seq<Attempt<C>>)
    requires cfg.Valid() && Orderly(cfg, Durable(s, s), attempts) && CommitsPublish(cfg, Durable(s, s), attempts)
    ensures var d := Durable(s, s);
      Campaign(cfg, d, attempts).current.successfulUpdateStep == s.successfulUpdateStep + Commits(cfg, d, attempts)
      <==> LateFailures(cfg, d, attempts) == 0
  {
    CampaignAccounting(cfg, s, attempts);
    PublicationsAreCommits(cfg, Durable(s, s), attempts);
  }

  /** Whatever is published and whenever the process restarts, the checkpoint is never ahead
      of the live state, and the attempt number advances by one an attempt until a restart. */
  lemma {:induction false} CampaignBounds<C>(cfg: Config, s: TrainingState<C>, attempts: seq<Attempt<C>>)
    requires cfg.Valid() && Orderly(cfg, Durable(s, s), attempts)
    ensures var d := Campaign(cfg, Durable(s, s), attempts);
      && s.successfulUpdateStep <= d.checkpoint.successfulUpdateStep <= d.current.successfulUpdateStep
      && s.attemptId <= d.checkpoint.attemptId <= d.current.attemptId <= s.attemptId + |attempts|
      && (!AnyRestart(attempts) ==>
            && d.current.attemptId == s.attemptId + |attempts|
            && d.current.successfulUpdateStep == s.successfulUpdateStep + Commits(cfg, Durable(s, s), attempts))
    decreases |attempts|
  {
    if attempts != [] {
      var front, last := attempts[..|attempts| - 1], attempts[|attempts| - 1];
      CampaignBounds(cfg, s, front);
      AttemptEffects(cfg, Campaign(cfg, Durable(s, s), front), last);
      assert AnyRestart(attempts) <==> AnyRestart(front) || last.restart by {
        RestartSplits(attempts);
      }
    }
  }

  lemma RestartSplits<C>(attempts: seq<Attempt<C>>)
    requires attempts != []
    ensures AnyRestart(attempts) <==> AnyRestart(attempts[..|attempts| - 1]) || attempts[|attempts| - 1].restart
  {
    var front := attempts[..|attempts| - 1];
    assert forall i | 0 <= i < |front| :: front[i] == attempts[i];
    if AnyRestart(front) {
      var i :| 0 <= i < |front| && front[i].restart;
      assert attempts[i].restart;
    }
  }

  /** An attempt can publish, fail and be restarted one step on without ever committing. */
  lemma LateFailureHappens<C>(s: TrainingState<C>)
    ensures exists cfg: Config, a: Attempt<C> ::
      && cfg.Valid() && Possible(cfg, s, a) && a.published && a.restart && Run(cfg, s, a.ops).phase == Untrusted
      && Next(cfg, Durable(s, s), a).current.successfulUpdateStep == s.successfulUpdateStep + 1
  {
    var cfg := Config([64], 1, 1);
    var ops, r := BackwardOne(cfg, s);
    r := r.(phase := BackwardComplete);
    ops := Extend(cfg, s, ops, CompleteBackward("x"), r);
    ops := ProposeFromBackward(cfg, s, ops, r);
    FailsAfterPublishing(cfg, s, ops);
  }

  lemma FailsAfterPublishing<C>(cfg: Config, s: TrainingState<C>, ops: seq<Op<C>>)
    requires cfg.Valid() && Run(cfg, s, ops).phase == CommitInProgress
    ensures var a := Attempt(ops + [Abort(None)], true, true);
      && Possible(cfg, s, a) && Run(cfg, s, a.ops).phase == Untrusted
      && Next(cfg, Durable(s, s), a).current.successfulUpdateStep == s.successfulUpdateStep + 1
  {
    RunHanded(cfg, s, ops);
    OneMoreCall(cfg, s, ops, Abort(None));
    AttemptEffects(cfg, Durable(s, s), Attempt(ops + [Abort(None)], true, true));
  }
}
