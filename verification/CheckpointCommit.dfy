/** The distributed checkpoint commit: N ranks, three error gathers and three barriers, and
    rank 0's step-by-step finalisation in the file system.

    A state machine over atomic steps.  A crash may strike between any two steps, so a
    property of every reachable state is a property of every crash point.  Ranks run
    independently between collectives; a collective completes when every rank is in it. */
module CheckpointCommit {
  import opened Outcome

  // ---------------------------------------------------------------- file system

  const METADATA := "metadata.json"
  const INTEGRITY := "integrity.sha256.json"

  datatype Metadata = Metadata(schemaVersion: int, successfulUpdateStep: int, attemptId: int, dataCursor: int) {
    predicate Valid() {
      schemaVersion == 1 && 0 <= successfulUpdateStep <= attemptId && dataCursor >= 0
    }
  }

  /** File contents.  A digest is modelled as injective: it is the content itself. */
  datatype Blob =
    | Data(bytes: string)
    | MetadataFile(meta: Metadata)
    | IntegrityFile(digests: map<string, Blob>)

  /** A directory: its files by relative path, and its top-level entries. */
  datatype Dir = Dir(files: map<string, Blob>, entries: set<string>)

  const Required := {"actor", "optimizer", "scheduler"}

  datatype Pointer = Pointer(checkpoint: string, step: int)

  /** The checkpoint root: its directories and the latest-checkpoint file. */
  datatype FS = FS(dirs: map<string, Dir>, latest: Option<Pointer>)

  /** Reading a checkpoint back: both files there, every recorded digest matching, sound metadata. */
  function Validate(d: Dir): Option<Metadata> {
    if INTEGRITY !in d.files || METADATA !in d.files then None
    else if !d.files[INTEGRITY].IntegrityFile? then None
    else if exists f | f in d.files[INTEGRITY].digests ::
              f !in d.files || d.files[f] != d.files[INTEGRITY].digests[f] then None
    else if !d.files[METADATA].MetadataFile? || !d.files[METADATA].meta.Valid() then None
    else Some(d.files[METADATA].meta)
  }

  /** A complete checkpoint: the three required states, this call's metadata, and an
      integrity file that records every other file with its digest. */
  ghost predicate Complete(d: Dir, meta: Metadata) {
    && Required <= d.entries
    && METADATA in d.files && d.files[METADATA] == MetadataFile(meta)
    && INTEGRITY in d.files && d.files[INTEGRITY].IntegrityFile?
    && var digests := d.files[INTEGRITY].digests;
       && (forall f | f in d.files && f != INTEGRITY :: f in digests && digests[f] == d.files[f])
       && (forall f | f in digests && f != INTEGRITY :: f in d.files)
  }

  /** A complete checkpoint reads back exactly when its integrity file does not record
      itself, that is, when the distributed writer left no file of that name. */
  lemma CompleteReadsBack(d: Dir, meta: Metadata)
    requires Complete(d, meta) && meta.Valid()
    ensures Validate(d) == (if INTEGRITY in d.files[INTEGRITY].digests then None else Some(meta))
  {
    var digests := d.files[INTEGRITY].digests;
    if INTEGRITY in digests { NoSelfDigest(digests, INTEGRITY); }
    assert METADATA != INTEGRITY by { assert METADATA[0] != INTEGRITY[0]; }
  }

  lemma NoSelfDigest(digests: map<string, Blob>, f: string)
    requires f in digests
    ensures digests[f] != IntegrityFile(digests)
  {
  }

  // ---------------------------------------------------------------------- ranks

  datatype Stage = Setup | Write | Finalize

  datatype Rank =
    | Begin
    | AtGather(stage: Stage, failed: bool)
    | AtBarrier(stage: Stage)
    | Writing
    | Finalizing(next: nat)
    | Cleaning(stage: Stage)
    | Returned
    | Raised(stage: Stage)

  datatype Config = Config(name: string, meta: Metadata, start: FS) {
    function Tmp(): string { name + ".tmp" }
  }

  /** `created`: this call made the temporary directory. */
  datatype State = State(ranks: seq<Rank>, fs: FS, created: bool)

  function Initial(c: Config, n: nat): State { State(seq(n, _ => Begin), c.start, false) }

  datatype Step =
    | SetUp(rank: nat, ioFails: bool)
    | WriteFile(rank: nat, path: string, blob: Blob, entry: string)
    | FinishWriting(rank: nat, fails: bool)
    | FinalizeStep(ioFails: bool)
    | Gather(stage: Stage)
    | Barrier(stage: Stage)
    | Clean(leftover: Option<Dir>)

  function MoveRank(s: State, i: nat, r: Rank): State
    requires i < |s.ranks|
  {
    s.(ranks := s.ranks[i := r])
  }

  predicate AllAtGather(s: State, stage: Stage) {
    forall i | 0 <= i < |s.ranks| :: s.ranks[i].AtGather? && s.ranks[i].stage == stage
  }

  predicate AnyFailed(s: State) {
    exists i :: 0 <= i < |s.ranks| && s.ranks[i].AtGather? && s.ranks[i].failed
  }

  /** Rank 0's finalisation, one file-system operation per step; each may fail. */
  function FinalizeOp(c: Config, fs: FS, k: nat, ioFails: bool): Result<FS, ()> {
    if c.Tmp() !in fs.dirs && k <= 3 then Err(())
    else if k == 0 then if ioFails || !(Required <= fs.dirs[c.Tmp()].entries) then Err(()) else Ok(fs)
    else if k == 1 then WriteInto(c, fs, METADATA, MetadataFile(c.meta), ioFails)
    else if k == 2 then WriteInto(c, fs, INTEGRITY, IntegrityFile(fs.dirs[c.Tmp()].files), ioFails)
    else if k == 3 then
      if ioFails || c.name in fs.dirs then Err(())
      else Ok(fs.(dirs := (fs.dirs - {c.Tmp()})[c.name := fs.dirs[c.Tmp()]]))
    else if k == 4 then if ioFails then Err(()) else Ok(fs)
    else if k == 5 then
      if ioFails || c.name !in fs.dirs || Validate(fs.dirs[c.name]).None? then Err(()) else Ok(fs)
    else if k == 6 then if ioFails then Err(()) else Ok(fs)
    else if ioFails then Err(())
    else Ok(fs.(latest := Some(Pointer(c.name, c.meta.successfulUpdateStep))))
  }

  function WriteInto(c: Config, fs: FS, path: string, blob: Blob, ioFails: bool): Result<FS, ()> {
    if ioFails || c.Tmp() !in fs.dirs then Err(())
    else
      var d := fs.dirs[c.Tmp()];
      Ok(fs.(dirs := fs.dirs[c.Tmp() := d.(files := d.files[path := blob])]))
  }

  const FinalizeSteps := 8

  function AfterBarrier(stage: Stage, rank: int): Rank {
    match stage
    case Setup => Writing
    case Write => if rank == 0 then Finalizing(0) else AtGather(Finalize, false)
    case Finalize => Returned
  }

  /** The state after a step, or None when the step is not enabled. */
  function Apply(c: Config, s: State, step: Step): (r: Option<State>)
    ensures r.Some? ==> |r.value.ranks| == |s.ranks|
  {
    var n := |s.ranks|;
    match step
    case SetUp(i, ioFails) =>
      if i >= n || s.ranks[i] != Begin then None
      else if i != 0 then Some(MoveRank(s, i, AtGather(Setup, false)))
      else if ioFails || c.Tmp() in s.fs.dirs || c.name in s.fs.dirs then Some(MoveRank(s, 0, AtGather(Setup, true)))
      else
        var fs := s.fs.(dirs := s.fs.dirs[c.Tmp() := Dir(map[], {})]);
        Some(MoveRank(s.(fs := fs, created := true), 0, AtGather(Setup, false)))
    case WriteFile(i, path, blob, entry) =>
      if i >= n || s.ranks[i] != Writing || c.Tmp() !in s.fs.dirs then None
      else
        var d := s.fs.dirs[c.Tmp()];
        var d' := Dir(d.files[path := blob], d.entries + {entry});
        Some(s.(fs := s.fs.(dirs := s.fs.dirs[c.Tmp() := d'])))
    case FinishWriting(i, fails) =>
      if i >= n || s.ranks[i] != Writing then None else Some(MoveRank(s, i, AtGather(Write, fails)))
    case FinalizeStep(ioFails) =>
      if n == 0 || !s.ranks[0].Finalizing? then None
      else
        var k := s.ranks[0].next;
        if k >= FinalizeSteps then Some(MoveRank(s, 0, AtGather(Finalize, false)))
        else
          var done := FinalizeOp(c, s.fs, k, ioFails);
          if done.Err? then Some(MoveRank(s, 0, AtGather(Finalize, true)))
          else Some(MoveRank(s.(fs := done.value), 0, Finalizing(k + 1)))
    case Gather(stage) =>
      if n == 0 || !AllAtGather(s, stage) then None
      else if !AnyFailed(s) then Some(s.(ranks := seq(n, _ => AtBarrier(stage))))
      else if stage == Setup then Some(s.(ranks := seq(n, _ => Raised(Setup))))
      else Some(s.(ranks := seq(n, i => if i == 0 then Cleaning(stage) else Raised(stage))))
    case Barrier(stage) =>
      if n == 0 || exists i | 0 <= i < n :: s.ranks[i] != AtBarrier(stage) then None
      else
        Some(s.(ranks := seq(n, i => AfterBarrier(stage, i))))
    case Clean(leftover) =>
      if n == 0 || !s.ranks[0].Cleaning? then None
      else
        var dirs :=
          if c.Tmp() !in s.fs.dirs then s.fs.dirs
          else if leftover.None? then s.fs.dirs - {c.Tmp()}
          else s.fs.dirs[c.Tmp() := leftover.value];  // removal failed half-way
        Some(MoveRank(s.(fs := s.fs.(dirs := dirs)), 0, Raised(s.ranks[0].stage)))
  }

  /** A run from the initial state; every prefix of a run is a possible crash point. */
  function Exec(c: Config, n: nat, steps: seq<Step>): (r: Option<State>)
    ensures r.Some? ==> |r.value.ranks| == n
    decreases |steps|
  {
    if steps == [] then Some(Initial(c, n))
    else
      var prior := Exec(c, n, steps[..|steps| - 1]);
      if prior.None? then None else Apply(c, prior.value, steps[|steps| - 1])
  }

  // ------------------------------------------------------------------ invariant

  /** The collectives a rank has completed, and how it left the last one. */
  function Segment(r: Rank): nat {
    match r
    case Begin => 0
    case AtGather(stage, _) => (match stage case Setup => 0 case Write => 2 case Finalize => 4)
    case AtBarrier(stage) => (match stage case Setup => 1 case Write => 3 case Finalize => 5)
    case Writing => 2
    case Finalizing(_) => 4
    case Returned => 6
    case Cleaning(stage) => (match stage case Setup => 7 case Write => 8 case Finalize => 9)
    case Raised(stage) => (match stage case Setup => 7 case Write => 8 case Finalize => 9)
  }

  /** Every rank has completed the same collectives; only rank 0 finalises, cleans up, or
      fails in set-up and finalisation. */
  ghost predicate InStep(s: State) {
    && (forall i | 0 <= i < |s.ranks| :: Segment(s.ranks[i]) == Segment(s.ranks[0]))
    && (forall i | 0 < i < |s.ranks| :: !s.ranks[i].Finalizing? && !s.ranks[i].Cleaning?)
    && (forall i | 0 <= i < |s.ranks| :: s.ranks[i].Cleaning? ==> s.ranks[i].stage != Setup)
    && (forall i | 0 < i < |s.ranks| :: s.ranks[i].AtGather? && s.ranks[i].stage != Write ==> !s.ranks[i].failed)
  }

  /** Nothing but this call's own two directory names is ever touched. */
  ghost predicate OthersUntouched(c: Config, fs: FS) {
    forall d | d != c.name && d != c.Tmp() ::
      (d in fs.dirs <==> d in c.start.dirs) && (d in fs.dirs ==> fs.dirs[d] == c.start.dirs[d])
  }

  ghost predicate Published(c: Config, fs: FS) {
    c.name in fs.dirs && Complete(fs.dirs[c.name], c.meta) && c.Tmp() !in fs.dirs
  }

  ghost predicate Pointed(c: Config, fs: FS) {
    && fs.latest == Some(Pointer(c.name, c.meta.successfulUpdateStep))
    && Published(c, fs) && Validate(fs.dirs[c.name]) == Some(c.meta)
  }

  /** The file system when rank 0 is about to perform finalisation step `k`. */
  ghost predicate FinalizingAt(c: Config, k: nat, fs: FS) {
    if k <= 3 then
      && Unpublished(c, fs) && c.Tmp() in fs.dirs
      && (k >= 1 ==> Required <= fs.dirs[c.Tmp()].entries)
      && (k >= 2 ==> HasMetadata(fs.dirs[c.Tmp()], c.meta))
      && (k == 3 ==> Complete(fs.dirs[c.Tmp()], c.meta))
    else if k <= 7 then
      && Published(c, fs) && fs.latest == c.start.latest
      && (k >= 6 ==> Validate(fs.dirs[c.name]) == Some(c.meta))
    else Pointed(c, fs)
  }

  ghost predicate HasMetadata(d: Dir, meta: Metadata) {
    METADATA in d.files && d.files[METADATA] == MetadataFile(meta)
  }

  ghost predicate Unpublished(c: Config, fs: FS) {
    fs.latest == c.start.latest && c.name !in fs.dirs
  }

  /** Finalisation stopped part-way: the pointer is the old one, and the final name, if it
      is there, is a complete checkpoint. */
  ghost predicate Abandoned(c: Config, fs: FS) {
    fs.latest == c.start.latest && (c.name in fs.dirs ==> Published(c, fs))
  }

  /** The file system as rank 0 progresses, once this call has made its temporary directory. */
  ghost predicate Progress(c: Config, r0: Rank, fs: FS) {
    match r0
    case Begin => false
    case AtGather(Setup, failed) => !failed && Unpublished(c, fs) && c.Tmp() in fs.dirs
    case AtGather(Write, _) => Unpublished(c, fs) && c.Tmp() in fs.dirs
    case AtGather(Finalize, failed) => if failed then Abandoned(c, fs) else Pointed(c, fs)
    case AtBarrier(Setup) => Unpublished(c, fs) && c.Tmp() in fs.dirs
    case AtBarrier(Write) => Unpublished(c, fs) && c.Tmp() in fs.dirs
    case AtBarrier(Finalize) => Pointed(c, fs)
    case Writing => Unpublished(c, fs) && c.Tmp() in fs.dirs
    case Finalizing(k) => k <= FinalizeSteps && FinalizingAt(c, k, fs)
    case Cleaning(stage) => stage != Setup && Abandoned(c, fs) && (stage == Write ==> Unpublished(c, fs))
    case Returned => Pointed(c, fs)
    case Raised(stage) => Abandoned(c, fs) && (stage != Finalize ==> Unpublished(c, fs))
  }

  /** Before the temporary directory is made, and when making it failed. */
  ghost predicate NothingDone(c: Config, s: State)
    requires s.ranks != []
  {
    && s.fs == c.start
    && s.ranks[0] in {Begin, AtGather(Setup, true), Raised(Setup)}
  }

  ghost predicate Inv(c: Config, s: State) {
    && s.ranks != [] && InStep(s) && OthersUntouched(c, s.fs)
    && if s.created then c.name !in c.start.dirs && c.Tmp() !in c.start.dirs && Progress(c, s.ranks[0], s.fs)
       else NothingDone(c, s)
  }

  lemma InitialInv(c: Config, n: nat)
    requires n > 0
    ensures Inv(c, Initial(c, n))
  {
  }

  lemma NamesDiffer(c: Config)
    ensures c.Tmp() != c.name && METADATA != INTEGRITY
  {
    assert |c.Tmp()| == |c.name| + 4;
    assert METADATA[0] != INTEGRITY[0];
  }

  lemma FinalizeOpProgress(c: Config, fs: FS, k: nat, ioFails: bool)
    requires c.meta.Valid() && k < FinalizeSteps && FinalizingAt(c, k, fs) && OthersUntouched(c, fs)
    ensures var r := FinalizeOp(c, fs, k, ioFails);
      if r.Err? then Abandoned(c, fs) else FinalizingAt(c, k + 1, r.value) && OthersUntouched(c, r.value)
  {
    NamesDiffer(c);
    if k == 5 && c.name in fs.dirs { CompleteReadsBack(fs.dirs[c.name], c.meta); }
  }

  lemma SetUpKeepsInv(c: Config, s: State, i: nat, f: bool)
    requires c.meta.Valid() && Inv(c, s) && Apply(c, s, SetUp(i, f)).Some?
    ensures Inv(c, Apply(c, s, SetUp(i, f)).value)
  {
    NamesDiffer(c);
  }

  lemma WritingKeepsInv(c: Config, s: State, step: Step)
    requires c.meta.Valid() && Inv(c, s) && Apply(c, s, step).Some?
    requires step.WriteFile? || step.FinishWriting?
    ensures Inv(c, Apply(c, s, step).value)
  {
    NamesDiffer(c);
    assert s.ranks[0].Writing? || s.ranks[0].AtGather?;
  }

  lemma FinalizeKeepsInv(c: Config, s: State, f: bool)
    requires c.meta.Valid() && Inv(c, s) && Apply(c, s, FinalizeStep(f)).Some?
    ensures Inv(c, Apply(c, s, FinalizeStep(f)).value)
  {
    NamesDiffer(c);
    if s.ranks[0].next < FinalizeSteps { FinalizeOpProgress(c, s.fs, s.ranks[0].next, f); }
  }

  lemma GatherKeepsInv(c: Config, s: State, stage: Stage)
    requires c.meta.Valid() && Inv(c, s) && Apply(c, s, Gather(stage)).Some?
    ensures Inv(c, Apply(c, s, Gather(stage)).value)
  {
  }

  lemma BarrierKeepsInv(c: Config, s: State, stage: Stage)
    requires c.meta.Valid() && Inv(c, s) && Apply(c, s, Barrier(stage)).Some?
    ensures Inv(c, Apply(c, s, Barrier(stage)).value)
  {
    assert s.ranks[0] == AtBarrier(stage);
  }

  lemma CleanKeepsInv(c: Config, s: State, leftover: Option<Dir>)
    requires c.meta.Valid() && Inv(c, s) && Apply(c, s, Clean(leftover)).Some?
    ensures Inv(c, Apply(c, s, Clean(leftover)).value)
  {
    NamesDiffer(c);
  }

  lemma StepKeepsInv(c: Config, s: State, step: Step)
    requires c.meta.Valid() && Inv(c, s) && Apply(c, s, step).Some?
    ensures Inv(c, Apply(c, s, step).value)
  {
    match step
    case SetUp(i, f) => SetUpKeepsInv(c, s, i, f);
    case WriteFile(_, _, _, _) => WritingKeepsInv(c, s, step);
    case FinishWriting(_, _) => WritingKeepsInv(c, s, step);
    case FinalizeStep(f) => FinalizeKeepsInv(c, s, f);
    case Gather(stage) => GatherKeepsInv(c, s, stage);
    case Barrier(stage) => BarrierKeepsInv(c, s, stage);
    case Clean(d) => CleanKeepsInv(c, s, d);
  }

  // -------------------------------------------------------------------- all runs

  lemma {:induction false} RunKeepsInv(c: Config, n: nat, steps: seq<Step>)
    requires n > 0 && c.meta.Valid() && Exec(c, n, steps).Some?
    ensures Inv(c, Exec(c, n, steps).value)
  {
    if steps == [] {
      InitialInv(c, n);
    } else {
      var last := |steps| - 1;
      RunKeepsInv(c, n, steps[..last]);
      StepKeepsInv(c, Exec(c, n, steps[..last]).value, steps[last]);
    }
  }

  /** At every crash point: the pointer is the old one or names a checkpoint that reads back;
      a directory this call gave its final name is complete; every other directory is as it
      was, and nothing at all has changed when either name was taken. */
  lemma CrashSafety(c: Config, n: nat, steps: seq<Step>)
    requires n > 0 && c.meta.Valid() && Exec(c, n, steps).Some?
    ensures var fs := Exec(c, n, steps).value.fs;
      && (fs.latest == c.start.latest || Pointed(c, fs))
      && (c.name in fs.dirs && c.name !in c.start.dirs ==> Complete(fs.dirs[c.name], c.meta))
      && OthersUntouched(c, fs)
      && (c.name in c.start.dirs || c.Tmp() in c.start.dirs ==> fs == c.start)
  {
    RunKeepsInv(c, n, steps);
  }

  /** Ranks agree: never two different collectives waited for, one rank returns only if all
      do and the pointer is then the new one, and one rank raises only if all do, at the same
      stage and with the old pointer kept. */
  lemma RanksAgree(c: Config, n: nat, steps: seq<Step>, i: nat, j: nat)
    requires n > 0 && c.meta.Valid() && Exec(c, n, steps).Some? && i < n && j < n
    ensures Agree(c, Exec(c, n, steps).value, i, j)
  {
    RunKeepsInv(c, n, steps);
    StateAgrees(c, Exec(c, n, steps).value, i, j);
  }

  ghost predicate Agree(c: Config, s: State, i: nat, j: nat)
    requires i < |s.ranks| && j < |s.ranks|
  {
    match s.ranks[i]
    case AtGather(stage, _) => (s.ranks[j].AtGather? ==> s.ranks[j].stage == stage) && !s.ranks[j].AtBarrier?
    case AtBarrier(stage) => s.ranks[j] == AtBarrier(stage)
    case Returned => s.ranks[j] == Returned && Pointed(c, s.fs)
    case Raised(stage) =>
      && (s.ranks[j] == Raised(stage) || (j == 0 && s.ranks[j] == Cleaning(stage)))
      && s.fs.latest == c.start.latest
    case _ => true
  }

  lemma StateAgrees(c: Config, s: State, i: nat, j: nat)
    requires Inv(c, s) && i < |s.ranks| && j < |s.ranks|
    ensures Agree(c, s, i, j)
  {
    assert Segment(s.ranks[i]) == Segment(s.ranks[0]) && Segment(s.ranks[j]) == Segment(s.ranks[0]);
    assert j > 0 ==> !s.ranks[j].Cleaning? && !s.ranks[j].Finalizing?;
  }

  // -------------------------------------------- failed writers, and names of files

  /** A writer has failed, and the gather after it has not let anyone past. */
  ghost predicate Doomed(s: State) {
    forall i | 0 <= i < |s.ranks| :: Segment(s.ranks[i]) == 8 || (Segment(s.ranks[i]) == 2 && AnyFailed(s))
  }

  /** A failed writer on any rank stops the call before anything is published. */
  lemma {:induction false} FailedWriterIsFatal(c: Config, n: nat, steps: seq<Step>, k: nat)
    requires n > 0 && c.meta.Valid() && Exec(c, n, steps).Some?
    requires k < |steps| && steps[k].FinishWriting? && steps[k].fails
    ensures var s := Exec(c, n, steps).value;
      Doomed(s) && s.fs.latest == c.start.latest && c.name !in s.fs.dirs
    decreases |steps|
  {
    var last := |steps| - 1;
    var prior := Exec(c, n, steps[..last]).value;
    RunKeepsInv(c, n, steps[..last]);
    RunKeepsInv(c, n, steps);
    if k == last {
      FailingDooms(c, prior, steps[last].rank);
    } else {
      FailedWriterIsFatal(c, n, steps[..last], k);
      DoomedStays(c, prior, steps[last]);
    }
    DoomedPublishesNothing(c, Exec(c, n, steps).value);
  }

  lemma FailingDooms(c: Config, s: State, i: nat)
    requires Inv(c, s) && Apply(c, s, FinishWriting(i, true)).Some?
    ensures Doomed(Apply(c, s, FinishWriting(i, true)).value)
  {
    var s' := Apply(c, s, FinishWriting(i, true)).value;
    assert s'.ranks[i].AtGather? && s'.ranks[i].failed;
    assert Segment(s.ranks[i]) == Segment(s.ranks[0]);
  }

  lemma DoomedStays(c: Config, s: State, step: Step)
    requires Inv(c, s) && Doomed(s) && Apply(c, s, step).Some?
    ensures Doomed(Apply(c, s, step).value)
  {
    var s' := Apply(c, s, step).value;
    if AnyFailed(s) {
      var i :| 0 <= i < |s.ranks| && s.ranks[i].AtGather? && s.ranks[i].failed;
      if !step.Gather? { assert s'.ranks[i] == s.ranks[i]; }
    }
  }

  lemma DoomedPublishesNothing(c: Config, s: State)
    requires Inv(c, s) && Doomed(s)
    ensures s.fs.latest == c.start.latest && c.name !in s.fs.dirs
  {
    assert Segment(s.ranks[0]) in {2, 8};
  }

  /** No directory of this call records a digest of its own integrity file. */
  ghost predicate NoSelfRecord(c: Config, s: State) {
    && (c.Tmp() in s.fs.dirs && !AfterIntegrity(s.ranks) ==> INTEGRITY !in s.fs.dirs[c.Tmp()].files)
    && (s.ranks != [] && s.ranks[0] == Finalizing(3) && c.Tmp() in s.fs.dirs ==> Unrecorded(s.fs.dirs[c.Tmp()]))
    && (c.name in s.fs.dirs ==> Unrecorded(s.fs.dirs[c.name]))
  }

  ghost predicate Unrecorded(d: Dir) {
    INTEGRITY in d.files && d.files[INTEGRITY].IntegrityFile? && INTEGRITY !in d.files[INTEGRITY].digests
  }

  predicate AfterIntegrity(ranks: seq<Rank>) {
    ranks != [] && match ranks[0]
      case Finalizing(k) => k >= 3
      case AtGather(stage, _) => stage == Finalize
      case Begin => false
      case Writing => false
      case AtBarrier(stage) => stage == Finalize
      case _ => true
  }

  lemma NoSelfRecordKept(c: Config, s: State, step: Step)
    requires c.meta.Valid() && Inv(c, s) && NoSelfRecord(c, s) && Apply(c, s, step).Some?
    requires step.WriteFile? ==> step.path != INTEGRITY
    requires c.name !in c.start.dirs && c.Tmp() !in c.start.dirs
    ensures NoSelfRecord(c, Apply(c, s, step).value)
  {
    NamesDiffer(c);
    if step.FinalizeStep? {
      NoSelfRecordFinalize(c, s, step.ioFails);
    } else if step.Clean? {
      assert AfterIntegrity(Apply(c, s, step).value.ranks);
    } else {
      assert step.SetUp? || step.WriteFile? || Apply(c, s, step).value.fs == s.fs;
    }
  }

  lemma NoSelfRecordFinalize(c: Config, s: State, ioFails: bool)
    requires c.meta.Valid() && Inv(c, s) && NoSelfRecord(c, s) && Apply(c, s, FinalizeStep(ioFails)).Some?
    ensures NoSelfRecord(c, Apply(c, s, FinalizeStep(ioFails)).value)
  {
    NamesDiffer(c);
  }

  /** When no writer uses the integrity file's name, whatever this call publishes reads back
      as this call's metadata, at every crash point. */
  lemma {:induction false} PublishedReadsBack(c: Config, n: nat, steps: seq<Step>)
    requires n > 0 && c.meta.Valid() && Exec(c, n, steps).Some?
    requires c.name !in c.start.dirs && c.Tmp() !in c.start.dirs
    requires forall k | 0 <= k < |steps| && steps[k].WriteFile? :: steps[k].path != INTEGRITY
    ensures var s := Exec(c, n, steps).value;
      NoSelfRecord(c, s) && (c.name in s.fs.dirs ==> Validate(s.fs.dirs[c.name]) == Some(c.meta))
    decreases |steps|
  {
    if steps != [] {
      var last := |steps| - 1;
      var prefix := steps[..last];
      assert forall k | 0 <= k < |prefix| :: prefix[k] == steps[k];
      PublishedReadsBack(c, n, prefix);
      RunKeepsInv(c, n, prefix);
      NoSelfRecordKept(c, Exec(c, n, prefix).value, steps[last]);
    }
    CrashSafety(c, n, steps);
    var fs := Exec(c, n, steps).value.fs;
    if c.name in fs.dirs { CompleteReadsBack(fs.dirs[c.name], c.meta); }
  }

  predicate WritesIntegrity(step: Step) { step.WriteFile? && step.path == INTEGRITY }

  predicate SomeWritesIntegrity(steps: seq<Step>) {
    exists k :: 0 <= k < |steps| && WritesIntegrity(steps[k])
  }

  /** A directory whose integrity file records a digest of a file of its own name. */
  predicate Recorded(d: Dir) {
    INTEGRITY in d.files && d.files[INTEGRITY].IntegrityFile? && INTEGRITY in d.files[INTEGRITY].digests
  }

  lemma RecordedIsUnreadable(d: Dir)
    requires Recorded(d)
    ensures Validate(d) == None
  {
    NoSelfDigest(d.files[INTEGRITY].digests, INTEGRITY);
  }

  /** Rank 0 never gets past the reading back. */
  predicate Stuck(r0: Rank) {
    match r0
    case Begin => false
    case Finalizing(k) => k <= 5
    case AtGather(stage, failed) => stage == Write || (stage == Finalize && failed)
    case AtBarrier(stage) => stage == Write
    case Writing => true
    case Cleaning(_) => true
    case Returned => false
    case Raised(_) => true
  }

  /** A writer has left a file of the integrity file's name. */
  ghost predicate SelfRecord(c: Config, s: State) {
    && s.ranks != [] && s.created && Stuck(s.ranks[0]) && s.fs.latest == c.start.latest
    && (c.Tmp() in s.fs.dirs && !AfterIntegrity(s.ranks) ==> INTEGRITY in s.fs.dirs[c.Tmp()].files)
    && (s.ranks[0] == Finalizing(3) && c.Tmp() in s.fs.dirs ==> Recorded(s.fs.dirs[c.Tmp()]))
    && (c.name in s.fs.dirs ==> Recorded(s.fs.dirs[c.name]))
  }

  lemma WriteStartsSelfRecord(c: Config, s: State, step: Step)
    requires c.meta.Valid() && Inv(c, s) && Apply(c, s, step).Some? && WritesIntegrity(step)
    ensures SelfRecord(c, Apply(c, s, step).value)
  {
    NamesDiffer(c);
    assert Segment(s.ranks[step.rank]) == Segment(s.ranks[0]);
  }

  lemma SelfRecordKept(c: Config, s: State, step: Step)
    requires c.meta.Valid() && Inv(c, s) && SelfRecord(c, s) && Apply(c, s, step).Some?
    ensures SelfRecord(c, Apply(c, s, step).value)
  {
    NamesDiffer(c);
    if step.FinalizeStep? {
      SelfRecordFinalize(c, s, step.ioFails);
    } else if step.Gather? {
      assert s.ranks[0] == AtGather(step.stage, s.ranks[0].failed);
      assert s.ranks[0].failed ==> AnyFailed(s);
    } else if step.Barrier? {
      assert s.ranks[0] == AtBarrier(step.stage);
    }
  }

  lemma SelfRecordFinalize(c: Config, s: State, ioFails: bool)
    requires c.meta.Valid() && Inv(c, s) && SelfRecord(c, s) && Apply(c, s, FinalizeStep(ioFails)).Some?
    ensures SelfRecord(c, Apply(c, s, FinalizeStep(ioFails)).value)
  {
    NamesDiffer(c);
    if c.name in s.fs.dirs { RecordedIsUnreadable(s.fs.dirs[c.name]); }
  }

  /** Once a writer has used the integrity file's name, nothing this call publishes ever
      reads back, the pointer never moves and no rank returns. */
  lemma {:induction false} SelfRecordIsFatal(c: Config, n: nat, steps: seq<Step>)
    requires n > 0 && c.meta.Valid() && Exec(c, n, steps).Some? && SomeWritesIntegrity(steps)
    ensures SelfRecord(c, Exec(c, n, steps).value)
    decreases |steps|
  {
    var last := |steps| - 1;
    var prefix := steps[..last];
    RunKeepsInv(c, n, prefix);
    if WritesIntegrity(steps[last]) {
      WriteStartsSelfRecord(c, Exec(c, n, prefix).value, steps[last]);
    } else {
      var k :| 0 <= k < |steps| && WritesIntegrity(steps[k]);
      assert prefix[k] == steps[k];
      SelfRecordIsFatal(c, n, prefix);
      SelfRecordKept(c, Exec(c, n, prefix).value, steps[last]);
    }
  }

  /** MAIN RESULT: at every crash point, what this call has given its final name reads back
      exactly when no writer has used the integrity file's name; when one has, the pointer is
      the old one and no rank returns. */
  lemma ReadsBackIff(c: Config, n: nat, steps: seq<Step>)
    requires n > 0 && c.meta.Valid() && Exec(c, n, steps).Some?
    requires c.name !in c.start.dirs && c.Tmp() !in c.start.dirs
    ensures var s := Exec(c, n, steps).value;
      && (c.name in s.fs.dirs ==>
            Validate(s.fs.dirs[c.name]) == if SomeWritesIntegrity(steps) then None else Some(c.meta))
      && (SomeWritesIntegrity(steps) ==>
            s.fs.latest == c.start.latest && forall i | 0 <= i < n :: s.ranks[i] != Returned)
  {
    var s := Exec(c, n, steps).value;
    if SomeWritesIntegrity(steps) {
      SelfRecordIsFatal(c, n, steps);
      RunKeepsInv(c, n, steps);
      if c.name in s.fs.dirs { RecordedIsUnreadable(s.fs.dirs[c.name]); }
      forall i | 0 <= i < n ensures s.ranks[i] != Returned {
        assert Segment(s.ranks[i]) == Segment(s.ranks[0]);
      }
    } else {
      PublishedReadsBack(c, n, steps);
    }
  }

  /** A run of one rank in which no finalisation step fails on its own. */
  ghost predicate QuietRun(c: Config, steps: seq<Step>, s: State) {
    Exec(c, 1, steps) == Some(s) && forall k | 0 <= k < |steps| && steps[k].FinalizeStep? :: !steps[k].ioFails
  }

  lemma Then(c: Config, steps: seq<Step>, s: State, step: Step) returns (longer: seq<Step>, s': State)
    requires QuietRun(c, steps, s) && Apply(c, s, step).Some? && (step.FinalizeStep? ==> !step.ioFails)
    ensures longer == steps + [step] && s' == Apply(c, s, step).value && QuietRun(c, longer, s')
    ensures SomeWritesIntegrity(steps) || WritesIntegrity(step) ==> SomeWritesIntegrity(longer)
  {
    longer, s' := steps + [step], Apply(c, s, step).value;
    assert longer[..|longer| - 1] == steps && longer[|steps|] == step;
    if k :| 0 <= k < |steps| && WritesIntegrity(steps[k]) { assert WritesIntegrity(longer[k]); }
  }

  lemma OneRankGathers(c: Config, steps: seq<Step>, s: State, stage: Stage) returns (longer: seq<Step>, s': State)
    requires QuietRun(c, steps, s) && s.ranks == [AtGather(stage, false)]
    ensures QuietRun(c, longer, s') && s' == s.(ranks := [AtBarrier(stage)])
    ensures SomeWritesIntegrity(steps) ==> SomeWritesIntegrity(longer)
  {
    assert Apply(c, s, Gather(stage)) == Some(s.(ranks := seq(1, _ => AtBarrier(stage))));
    longer, s' := Then(c, steps, s, Gather(stage));
  }

  lemma OneRankPasses(c: Config, steps: seq<Step>, s: State, stage: Stage) returns (longer: seq<Step>, s': State)
    requires QuietRun(c, steps, s) && s.ranks == [AtBarrier(stage)]
    ensures QuietRun(c, longer, s') && s' == s.(ranks := [AfterBarrier(stage, 0)])
    ensures SomeWritesIntegrity(steps) ==> SomeWritesIntegrity(longer)
  {
    longer, s' := Then(c, steps, s, Barrier(stage));
    assert s'.ranks == [AfterBarrier(stage, 0)];
  }

  /** A single rank that has set up its temporary directory and may write. */
  lemma OneRankWriting(c: Config) returns (steps: seq<Step>, s: State)
    requires c.name !in c.start.dirs && c.Tmp() !in c.start.dirs
    ensures QuietRun(c, steps, s) && s.ranks == [Writing] && c.name !in s.fs.dirs
    ensures c.Tmp() in s.fs.dirs && s.fs.dirs[c.Tmp()] == Dir(map[], {})
  {
    steps, s := OneRankSetsUp(c);
    steps, s := OneRankGathers(c, steps, s, Setup);
    steps, s := OneRankPasses(c, steps, s, Setup);
  }

  lemma OneRankSetsUp(c: Config) returns (steps: seq<Step>, s: State)
    requires c.name !in c.start.dirs && c.Tmp() !in c.start.dirs
    ensures QuietRun(c, steps, s) && s.ranks == [AtGather(Setup, false)] && c.name !in s.fs.dirs
    ensures c.Tmp() in s.fs.dirs && s.fs.dirs[c.Tmp()] == Dir(map[], {})
  {
    NamesDiffer(c);
    assert Initial(c, 1).ranks == [Begin];
    steps, s := Then(c, [], Initial(c, 1), SetUp(0, false));
    assert s.ranks == [AtGather(Setup, false)];
  }

  /** One file for each required state, the first under the integrity file's name. */
  lemma OneRankWritten(c: Config) returns (steps: seq<Step>, s: State)
    requires c.name !in c.start.dirs && c.Tmp() !in c.start.dirs
    ensures QuietRun(c, steps, s) && SomeWritesIntegrity(steps) && s.ranks == [Finalizing(0)]
    ensures c.name !in s.fs.dirs && c.Tmp() in s.fs.dirs && Required <= s.fs.dirs[c.Tmp()].entries
  {
    NamesDiffer(c);
    steps, s := OneRankWriting(c);
    steps, s := Then(c, steps, s, WriteFile(0, INTEGRITY, Data(""), "actor"));
    steps, s := Then(c, steps, s, WriteFile(0, "optimizer/0", Data(""), "optimizer"));
    steps, s := Then(c, steps, s, WriteFile(0, "scheduler/0", Data(""), "scheduler"));
    steps, s := OneRankFinalizes(c, steps, s);
  }

  lemma OneRankFinalizes(c: Config, steps: seq<Step>, s: State) returns (longer: seq<Step>, s': State)
    requires QuietRun(c, steps, s) && SomeWritesIntegrity(steps) && s.ranks == [Writing]
    ensures QuietRun(c, longer, s') && SomeWritesIntegrity(longer) && s' == s.(ranks := [Finalizing(0)])
  {
    longer, s' := Then(c, steps, s, FinishWriting(0, false));
    assert s'.ranks == [AtGather(Write, false)];
    longer, s' := OneRankGathers(c, longer, s', Write);
    longer, s' := OneRankPasses(c, longer, s', Write);
  }

  /** A finalisation step before the reading back succeeds when nothing fails. */
  lemma FinalizeOnce(c: Config, steps: seq<Step>, s: State, k: nat) returns (longer: seq<Step>, s': State)
    requires QuietRun(c, steps, s) && SomeWritesIntegrity(steps) && s.ranks == [Finalizing(k)] && k <= 4
    requires k <= 3 ==> c.name !in s.fs.dirs && c.Tmp() in s.fs.dirs && Required <= s.fs.dirs[c.Tmp()].entries
    ensures QuietRun(c, longer, s') && SomeWritesIntegrity(longer) && s'.ranks == [Finalizing(k + 1)]
    ensures k <= 2 ==> c.name !in s'.fs.dirs && c.Tmp() in s'.fs.dirs && Required <= s'.fs.dirs[c.Tmp()].entries
    ensures k == 3 || (k == 4 && c.name in s.fs.dirs) ==> c.name in s'.fs.dirs
  {
    NamesDiffer(c);
    longer, s' := Then(c, steps, s, FinalizeStep(false));
  }

  /** Such a run exists: nothing fails, the directory gets its final name, and the call is
      then stopped by its own reading back. */
  lemma SelfRecordRun(c: Config)
    requires c.meta.Valid() && c.name !in c.start.dirs && c.Tmp() !in c.start.dirs
    ensures exists steps: seq<Step>, s: State ::
      && QuietRun(c, steps, s) && SomeWritesIntegrity(steps)
      && s.ranks == [AtGather(Finalize, true)] && c.name in s.fs.dirs
  {
    var steps, s := OneRankWritten(c);
    steps, s := FinalizeOnce(c, steps, s, 0);
    steps, s := FinalizeOnce(c, steps, s, 1);
    steps, s := FinalizeOnce(c, steps, s, 2);
    steps, s := FinalizeOnce(c, steps, s, 3);
    steps, s := FinalizeOnce(c, steps, s, 4);
    ReadsBackIff(c, 1, steps);
    steps, s := Then(c, steps, s, FinalizeStep(false));
  }

  // ------------------------------------------------------ progress and termination

  predicate Ended(r: Rank) { r.Returned? || r.Raised? }

  /** A rank that has not ended lets some step happen. */
  lemma NoDeadlock(c: Config, s: State, i: nat) returns (step: Step)
    requires Inv(c, s) && i < |s.ranks| && !Ended(s.ranks[i])
    ensures Apply(c, s, step).Some? && !step.WriteFile?
  {
    assert Segment(s.ranks[i]) == Segment(s.ranks[0]);
    if j :| 0 <= j < |s.ranks| && s.ranks[j] == Begin {
      step := SetUp(j, false);
    } else if j :| 0 <= j < |s.ranks| && s.ranks[j] == Writing {
      step := FinishWriting(j, false);
    } else if s.ranks[0].Finalizing? {
      step := FinalizeStep(false);
    } else if s.ranks[0].Cleaning? {
      step := Clean(None);
    } else {
      step := Meet(s, i);
    }
  }

  lemma Meet(s: State, i: nat) returns (step: Step)
    requires s.ranks != [] && InStep(s) && i < |s.ranks| && !Ended(s.ranks[i])
    requires forall j | 0 <= j < |s.ranks| :: s.ranks[j] != Begin && s.ranks[j] != Writing
    requires !s.ranks[0].Finalizing? && !s.ranks[0].Cleaning?
    ensures step.Gather? || step.Barrier?
    ensures step.Gather? ==> AllAtGather(s, step.stage)
    ensures step.Barrier? ==> forall j | 0 <= j < |s.ranks| :: s.ranks[j] == AtBarrier(step.stage)
  {
    assert Segment(s.ranks[i]) == Segment(s.ranks[0]);
    step := if s.ranks[0].AtGather? then Gather(s.ranks[0].stage) else Barrier(s.ranks[0].stage);
    forall j | 0 <= j < |s.ranks| ensures Segment(s.ranks[j]) == Segment(s.ranks[0]) {
    }
  }

  /** Steps a rank may still take, file writes not counted. */
  function Left(r: Rank): nat {
    match r
    case Begin => 19
    case AtGather(stage, _) => (match stage case Setup => 18 case Write => 15 case Finalize => 3)
    case AtBarrier(stage) => (match stage case Setup => 17 case Write => 14 case Finalize => 2)
    case Writing => 16
    case Finalizing(k) => if k < FinalizeSteps then 12 - k else 4
    case Cleaning(_) => 1
    case Returned => 0
    case Raised(_) => 0
  }

  function TotalLeft(ranks: seq<Rank>): nat {
    if ranks == [] then 0 else Left(ranks[0]) + TotalLeft(ranks[1..])
  }

  lemma {:induction false} TotalShrinks(a: seq<Rank>, b: seq<Rank>, k: nat)
    requires |a| == |b| && forall i | 0 <= i < |a| :: Left(b[i]) <= Left(a[i])
    requires k < |a| ==> Left(b[k]) < Left(a[k])
    ensures TotalLeft(b) <= TotalLeft(a)
    ensures k < |a| ==> TotalLeft(b) < TotalLeft(a)
  {
    if a != [] { TotalShrinks(a[1..], b[1..], if k == 0 then |a| else k - 1); }
  }

  lemma {:induction false} InitialTotal(n: nat)
    ensures TotalLeft(seq(n, _ => Begin)) == 19 * n
  {
    if n > 0 {
      InitialTotal(n - 1);
      assert seq(n, _ => Begin)[1..] == seq(n - 1, _ => Begin);
    }
  }

  lemma StepShrinks(c: Config, s: State, step: Step)
    requires Apply(c, s, step).Some?
    ensures var s' := Apply(c, s, step).value;
      if step.WriteFile? then s'.ranks == s.ranks else TotalLeft(s'.ranks) < TotalLeft(s.ranks)
  {
    if !step.WriteFile? {
      var who := if step.SetUp? || step.FinishWriting? then step.rank else 0;
      TotalShrinks(s.ranks, Apply(c, s, step).value.ranks, who);
    }
  }

  function NonWrites(steps: seq<Step>): nat {
    if steps == [] then 0
    else NonWrites(steps[..|steps| - 1]) + (if steps[|steps| - 1].WriteFile? then 0 else 1)
  }

  /** Apart from the writers' own file writes a run has at most 19 steps per rank, so with
      NoDeadlock every run that is carried on ends with all ranks returned or all raised. */
  lemma {:induction false} RunsAreBounded(c: Config, n: nat, steps: seq<Step>)
    requires Exec(c, n, steps).Some?
    ensures NonWrites(steps) + TotalLeft(Exec(c, n, steps).value.ranks) <= 19 * n
    decreases |steps|
  {
    if steps == [] {
      InitialTotal(n);
    } else {
      var last := |steps| - 1;
      RunsAreBounded(c, n, steps[..last]);
      StepShrinks(c, Exec(c, n, steps[..last]).value, steps[last]);
    }
  }
}
