/** The concurrent rollout scheduler over a resumable checkpoint table: which rows a resumed
    run selects, how work moves from unscheduled to active to committed, and what every
    commit keeps true of the attempt history. */
module RolloutScheduler {
  import opened Outcome

  // -------------------------------------------------------------- checkpoint table

  datatype Status = NeedsReview | Approved | Rejected | Errored

  datatype Entry = Entry(digest: string, publicId: string, status: Status, attempts: nat)

  /** An input row: its identifier, the digest of its content and its public identifier. */
  datatype Input = Input(uid: string, digest: string, publicId: string)

  /** A selected row, with what the table held for it at selection time. */
  datatype Work = Work(input: Input, existing: Option<Entry>)

  class Checkpoint {
    var rollouts: map<string, Entry>
    var history: map<(string, nat), Status>

    constructor ()
      ensures rollouts == map[] && history == map[] && Valid()
    {
      rollouts, history := map[], map[];
    }

    /** `attempts` counts the history rows of an identifier, which are numbered 1 to n; the
        last one has the current status, approval aside, which only follows a pending one.
        No two rows share a public identifier. */
    ghost predicate Valid()
      reads this
    {
      && UniqueIds(rollouts)
      && (forall uid, n | (uid, n) in history :: uid in rollouts)
      && (forall uid | uid in rollouts :: Numbered(uid) && LastMatches(uid))
    }

    ghost predicate Numbered(uid: string)
      requires uid in rollouts
      reads this
    {
      rollouts[uid].attempts >= 1 && forall n: nat :: (uid, n) in history <==> 1 <= n <= rollouts[uid].attempts
    }

    ghost predicate LastMatches(uid: string)
      requires uid in rollouts
      reads this
    {
      (uid, rollouts[uid].attempts) in history
      && history[(uid, rollouts[uid].attempts)]
         == if rollouts[uid].status == Approved then NeedsReview else rollouts[uid].status
    }

    function Lookup(uid: string): Option<Entry>
      reads this
    {
      if uid in rollouts then Some(rollouts[uid]) else None
    }

    /** One transaction: a new history row and the current row.  It fails, and changes
        nothing, when a key or the public identifier is there already. */
    method CommitCandidate(work: Work, status: Status) returns (ok: bool)
      requires status != Approved
      modifies this
      ensures old(Valid()) && old(Lookup(work.input.uid)) == work.existing ==>
        (ok <==> work.existing.Some? || FreeId(old(rollouts), work.input.publicId))
      ensures old(Valid()) && old(Lookup(work.input.uid)) == work.existing ==> Valid()
      ensures !ok ==> rollouts == old(rollouts) && history == old(history)
      ensures ok ==>
        && var n := if work.existing.Some? then work.existing.value.attempts + 1 else 1;
           && (work.input.uid, n) !in old(history)
           && history == old(history)[(work.input.uid, n) := status]
           && rollouts == if work.existing.Some? && work.input.uid !in old(rollouts) then old(rollouts)
                          else old(rollouts)[work.input.uid := Row(old(Lookup(work.input.uid)), work, status, n)]
    {
      var uid := work.input.uid;
      var n := if work.existing.Some? then work.existing.value.attempts + 1 else 1;
      if (uid, n) in history { return false; }
      if work.existing.None? && (uid in rollouts || !FreeId(rollouts, work.input.publicId)) { return false; }
      history := history[(uid, n) := status];
      if work.existing.None? || uid in rollouts {
        rollouts := rollouts[uid := Row(Lookup(uid), work, status, n)];
      }
      return true;
    }

    /** The updated row keeps its digest and public identifier. */
    static function Row(before: Option<Entry>, work: Work, status: Status, n: nat): Entry {
      if before.Some? then before.value.(status := status, attempts := n)
      else Entry(work.input.digest, work.input.publicId, status, n)
    }

    /** All of the identifiers are pending and become approved, or nothing changes. */
    method Approve(ids: set<string>, sound: string -> bool) returns (ok: bool)
      modifies this
      ensures ok <==> forall uid | uid in ids ::
        uid in old(rollouts) && old(rollouts)[uid].status == NeedsReview && sound(uid)
      ensures history == old(history)
      ensures rollouts == if ok then map uid | uid in old(rollouts) ::
          if uid in ids then old(rollouts)[uid].(status := Approved) else old(rollouts)[uid]
        else old(rollouts)
      ensures old(Valid()) ==> Valid()
    {
      if exists uid | uid in ids :: uid !in rollouts || rollouts[uid].status != NeedsReview || !sound(uid) {
        return false;
      }
      rollouts := map uid | uid in rollouts :: if uid in ids then rollouts[uid].(status := Approved) else rollouts[uid];
      return true;
    }

    // ------------------------------------------------------------ resume selection

    /** Whether a resumed run takes a row up again. */
    predicate Selected(input: Input, retry: set<string>)
      reads this
    {
      (retry == {} || input.uid in retry)
      && (input.uid !in rollouts || input.uid in retry || rollouts[input.uid].status == Errored)
    }

    /** A selected row with what is stored of it, never one that is pending or approved. */
    predicate TakenUp(w: Work, retry: set<string>)
      reads this
    {
      && Selected(w.input, retry) && w.existing == Lookup(w.input.uid)
      && (w.existing.Some? ==>
            w.existing.value.status in {Rejected, Errored} && w.existing.value.publicId == w.input.publicId)
    }

    predicate Unchanged(input: Input)
      reads this
    {
      input.uid in rollouts ==>
        rollouts[input.uid].digest == input.digest && rollouts[input.uid].publicId == input.publicId
    }

    /** Retries are only for rows that failed. */
    predicate RetriesOk(retry: set<string>)
      reads this
    {
      forall uid | uid in retry :: uid in rollouts && rollouts[uid].status in {Rejected, Errored}
    }

    ghost predicate Consistent(inputs: seq<Input>, retry: set<string>)
      reads this
    {
      RetriesOk(retry) && AllKnown(inputs, retry)
      && forall i | 0 <= i < |inputs| && (retry == {} || inputs[i].uid in retry) :: Unchanged(inputs[i])
    }

    method SelectWork(inputs: seq<Input>, retry: set<string>) returns (r: Option<seq<Work>>)
      requires DistinctInputs(inputs)
      ensures r.Some? <==> Consistent(inputs, retry)
      ensures r.Some? ==> DistinctWork(r.value)
      ensures r.Some? ==> forall w | w in r.value :: w.input in inputs && TakenUp(w, retry)
      ensures r.Some? ==> forall i | 0 <= i < |inputs| && Selected(inputs[i], retry) ::
        Work(inputs[i], Lookup(inputs[i].uid)) in r.value
    {
      if !AllKnown(inputs, retry) || !RetriesOk(retry) { return None; }
      var work: seq<Work> := [];
      for k := 0 to |inputs|
        invariant forall i | 0 <= i < k && (retry == {} || inputs[i].uid in retry) :: Unchanged(inputs[i])
        invariant DistinctWork(work) && forall w | w in work :: exists i :: 0 <= i < k && inputs[i] == w.input
        invariant forall w | w in work :: TakenUp(w, retry)
        invariant forall i | 0 <= i < k && Selected(inputs[i], retry) :: Work(inputs[i], Lookup(inputs[i].uid)) in work
      {
        var input := inputs[k];
        if retry != {} && input.uid !in retry { continue; }
        var existing := Lookup(input.uid);
        if existing.Some? {
          if existing.value.digest != input.digest || existing.value.publicId != input.publicId { return None; }
          if input.uid !in retry && existing.value.status != Errored { continue; }
        }
        work := work + [Work(input, existing)];
      }
      return Some(work);
    }
  }

  /** No row has this public identifier. */
  predicate FreeId(rollouts: map<string, Entry>, publicId: string) {
    forall uid | uid in rollouts :: rollouts[uid].publicId != publicId
  }

  ghost predicate UniqueIds(rollouts: map<string, Entry>) {
    forall u, v | u in rollouts && v in rollouts && u != v :: rollouts[u].publicId != rollouts[v].publicId
  }

  /** A row that holds an input's public identifier is that input's own. */
  ghost predicate IdsBelong(inputs: seq<Input>, rollouts: map<string, Entry>) {
    forall uid, i | uid in rollouts && 0 <= i < |inputs| && rollouts[uid].publicId == inputs[i].publicId ::
      uid == inputs[i].uid
  }

  /** The new items that are not committed yet find their public identifiers free. */
  ghost predicate IdsFree(work: seq<Work>, committed: seq<nat>, rollouts: map<string, Entry>) {
    forall i: nat | i < |work| && i !in committed && work[i].existing.None? :: FreeId(rollouts, work[i].input.publicId)
  }

  predicate AllKnown(inputs: seq<Input>, retry: set<string>) {
    forall uid | uid in retry :: exists i :: 0 <= i < |inputs| && inputs[i].uid == uid
  }

  ghost predicate DistinctInputs(inputs: seq<Input>) {
    forall i, j | 0 <= i < j < |inputs| :: inputs[i].uid != inputs[j].uid && inputs[i].publicId != inputs[j].publicId
  }

  ghost predicate DistinctWork(work: seq<Work>) {
    forall i, j | 0 <= i < j < |work| ::
      work[i].input.uid != work[j].input.uid && work[i].input.publicId != work[j].input.publicId
  }

  // ------------------------------------------------------------------- scheduling

  /** What evaluating a candidate comes to; an infrastructure failure and a crash of the
      worker are fatal to the run. */
  datatype Evaluation = Sound | Refused | Infrastructure | Crashed

  function StatusOf(e: Evaluation): Status {
    match e
    case Sound => NeedsReview
    case Refused => Rejected
    case _ => Errored
  }

  predicate Fatal(e: Evaluation) { StatusOf(e) == Errored }

  /** A concurrent run.  `active` maps an index into the work to the client that serves it.
      Which active trajectory finishes next, and how, are arbitrary. */
  class Run {
    const work: seq<Work>
    const concurrency: nat
    const table: Checkpoint
    ghost const before: map<string, Entry>
    ghost const beforeHistory: map<(string, nat), Status>
    var next: nat
    var active: map<nat, nat>
    var fatalSeen: bool
    /** How each item turns out. */
    const evaluate: nat -> Evaluation
    /** The committed items, in the order of their commits. */
    ghost var committed: seq<nat>
    /** How many items had been scheduled when the first fatal outcome was seen. */
    ghost var nextAtFatal: nat

    constructor (work: seq<Work>, concurrency: nat, table: Checkpoint, evaluate: nat -> Evaluation)
      requires DistinctWork(work) && table.Valid() && concurrency > 0 && IdsFree(work, [], table.rollouts)
      requires forall w | w in work :: w.existing == table.Lookup(w.input.uid)
      ensures Valid() && this.work == work && this.concurrency == concurrency && this.table == table
      ensures this.evaluate == evaluate && next == 0 && active == map[] && committed == [] && !fatalSeen
      ensures before == table.rollouts && beforeHistory == table.history
    {
      this.work, this.concurrency, this.table, this.evaluate := work, concurrency, table, evaluate;
      before, beforeHistory := table.rollouts, table.history;
      next, active, fatalSeen, committed, nextAtFatal := 0, map[], false, [], 0;
    }

    /** The table holds one more attempt for committed items, with their outcome, and
        nothing new for anything else; no history row is lost or changed. */
    ghost predicate Recorded()
      reads `committed, table
    {
      && table.Valid()
      && AsCommitted(work, evaluate, committed, table.rollouts)
      && IdsFree(work, committed, table.rollouts)
      && OthersKept(work, before, table.rollouts)
      && HistoryKept(beforeHistory, table.history)
    }

    /** After the first fatal outcome nothing more is scheduled. */
    ghost predicate Stopping()
      reads this
    {
      && (fatalSeen <==> SomeFatal(committed, evaluate))
      && (fatalSeen ==> next == nextAtFatal)
    }

    ghost predicate Valid()
      reads this, table
    {
      && concurrency > 0 && DistinctWork(work)
      && Partitioned(|work|, next, active, committed) && OneEach(concurrency, active)
      && Recorded() && Stopping()
    }

    /** Give the next item, if there is one, to a client that is free. */
    method Schedule(client: nat) returns (scheduled: bool)
      requires Valid() && !fatalSeen && client < concurrency && forall i | i in active :: active[i] != client
      modifies this`next, this`active
      ensures Valid() && scheduled == (old(next) < |work|)
      ensures if scheduled then next == old(next) + 1 && active == old(active)[old(next) := client]
              else next == old(next) && active == old(active)
    {
      if next == |work| { return false; }
      active := active[next := client];
      next := next + 1;
      return true;
    }

    /** A trajectory has finished: its outcome is committed, and its client takes the next
        item unless the run is stopping. */
    method Complete(i: nat)
      requires Valid() && i in active
      modifies this`next, this`active, this`fatalSeen, this`committed, this`nextAtFatal, table
      ensures Valid() && committed == old(committed) + [i]
      ensures fatalSeen == (old(fatalSeen) || Fatal(evaluate(i)))
      ensures if !fatalSeen && old(next) < |work|
              then next == old(next) + 1 && active == (old(active) - {i})[old(next) := old(active)[i]]
              else next == old(next) && active == old(active) - {i}
    {
      var client := active[i];
      Commit(i);
      if !fatalSeen {
        var scheduled := Schedule(client);
      }
    }

    /** The item leaves the active ones, and its outcome is in the table. */
    method Record(i: nat)
      requires Valid() && i in active
      modifies this`active, this`committed, table
      ensures Partitioned(|work|, next, active, committed) && OneEach(concurrency, active) && Recorded()
      ensures committed == old(committed) + [i] && active == old(active) - {i}
    {
      Popped(|work|, next, active, committed, i);
      active := active - {i};
      WriteOutcome(i);
      committed := committed + [i];
    }

    /** The outcome of a finished trajectory is written, and noted when it is fatal. */
    method Commit(i: nat)
      requires Valid() && i in active
      modifies this`active, this`fatalSeen, this`committed, this`nextAtFatal, table
      ensures Valid() && committed == old(committed) + [i] && active == old(active) - {i}
      ensures fatalSeen == (old(fatalSeen) || Fatal(evaluate(i)))
    {
      Record(i);
      NoteFatal(i, old(committed));
    }

    method NoteFatal(i: nat, ghost earlier: seq<nat>)
      requires committed == earlier + [i] && (fatalSeen <==> SomeFatal(earlier, evaluate))
      requires fatalSeen ==> next == nextAtFatal
      modifies this`fatalSeen, this`nextAtFatal
      ensures Stopping() && fatalSeen == (old(fatalSeen) || Fatal(evaluate(i)))
    {
      FatalGrows(earlier, i, evaluate);
      if Fatal(evaluate(i)) && !fatalSeen {
        fatalSeen, nextAtFatal := true, next;
      }
    }

    method WriteOutcome(i: nat)
      requires Recorded() && DistinctWork(work) && i < |work| && i !in committed
      modifies table
      ensures table.Valid() && HistoryKept(beforeHistory, table.history) && OthersKept(work, before, table.rollouts)
      ensures AsCommitted(work, evaluate, committed + [i], table.rollouts)
      ensures IdsFree(work, committed + [i], table.rollouts)
    {
      var ok := table.CommitCandidate(work[i], StatusOf(evaluate(i)));
      TableAfter(work, evaluate, committed, i, old(table.rollouts), table.rollouts);
      IdsAfter(work, committed, i, old(table.rollouts), table.rollouts, StatusOf(evaluate(i)));
      OthersAfter(work, i, before, old(table.rollouts), table.rollouts);
    }

    /** Clients with work: all of them, as long as anything is unscheduled and nothing fatal
        has been seen. */
    ghost predicate Busy()
      reads this
    {
      !fatalSeen ==> next == |work| || |active| == concurrency
    }

    /** The whole run.  Without a fatal outcome every item is committed exactly once; after
        one, nothing is scheduled any more and what was active is still committed. */
    method Execute() returns (fatal: bool)
      requires Valid() && next == 0 && active == map[] && committed == [] && !fatalSeen
      modifies this`next, this`active, this`fatalSeen, this`committed, this`nextAtFatal, table
      ensures Valid() && active == map[] && fatal == fatalSeen
      ensures fatal <==> SomeFatal(committed, evaluate)
      ensures !fatal ==> next == |work|
      ensures |committed| == next
      ensures forall i: nat :: i in committed <==> i < next
    {
      Start();
      while active != map[]
        invariant Valid() && Busy() && |committed| + |active| == next
        decreases |work| - next + |active|
      {
        Advance();
      }
      return fatalSeen;
    }

    /** Some active trajectory finishes. */
    method Advance()
      requires Valid() && Busy() && active != map[] && |committed| + |active| == next
      modifies this`next, this`active, this`fatalSeen, this`committed, this`nextAtFatal, table
      ensures Valid() && Busy() && |committed| + |active| == next
      ensures |work| - next + |active| < old(|work| - next + |active|)
    {
      var i :| i in active;
      Complete(i);
    }

    /** One item to each client, as far as the items go. */
    method Start()
      requires Valid() && next == 0 && active == map[] && committed == [] && !fatalSeen
      modifies this`next, this`active
      ensures Valid() && |active| == next && (next == |work| || next == concurrency)
    {
      var client := 0;
      while client < concurrency
        invariant client <= concurrency && Valid() && next == client <= |work| && |active| == client
        invariant forall i | i in active :: active[i] < client
      {
        var scheduled := Schedule(client);
        if !scheduled { return; }
        client := client + 1;
      }
    }
  }

  /** Every item is unscheduled, active or committed, and only one of them. */
  ghost predicate Partitioned(items: nat, next: nat, active: map<nat, nat>, committed: seq<nat>) {
    && next <= items
    && (forall i | i in active :: i < next && i !in committed)
    && (forall i | i in committed :: i < next)
    && (forall i: nat | i < next :: i in active || i in committed)
    && (forall j, k | 0 <= j < k < |committed| :: committed[j] != committed[k])
  }

  /** No client serves two active trajectories. */
  ghost predicate OneEach(concurrency: nat, active: map<nat, nat>) {
    && (forall i | i in active :: active[i] < concurrency)
    && (forall i, j | i in active && j in active && i != j :: active[i] != active[j])
  }

  function Held(rollouts: map<string, Entry>, uid: string): Option<Entry> {
    if uid in rollouts then Some(rollouts[uid]) else None
  }

  ghost predicate AsCommitted(
      work: seq<Work>, evaluate: nat -> Evaluation, committed: seq<nat>, rollouts: map<string, Entry>)
  {
    forall i: nat | i < |work| ::
      var now := Held(rollouts, work[i].input.uid);
      if i in committed then OneMore(work[i], now, StatusOf(evaluate(i))) else now == work[i].existing
  }

  ghost predicate OthersKept(work: seq<Work>, before: map<string, Entry>, rollouts: map<string, Entry>) {
    forall uid | uid !in Uids(work) :: Held(rollouts, uid) == Held(before, uid)
  }

  ghost predicate HistoryKept(before: map<(string, nat), Status>, history: map<(string, nat), Status>) {
    forall key | key in before :: key in history && history[key] == before[key]
  }

  lemma Popped(items: nat, next: nat, active: map<nat, nat>, committed: seq<nat>, i: nat)
    requires Partitioned(items, next, active, committed) && i in active
    ensures Partitioned(items, next, active - {i}, committed + [i])
  {
    assert forall j | j in committed + [i] :: j in committed || j == i;
    forall j: nat | j < next ensures j in active - {i} || j in committed + [i] {
      assert i in committed + [i];
      if j in committed { assert j in committed + [i]; }
    }
  }

  lemma OthersAfter(
      work: seq<Work>, i: nat, before: map<string, Entry>, old_: map<string, Entry>, rollouts: map<string, Entry>)
    requires i < |work| && OthersKept(work, before, old_)
    requires forall uid | uid != work[i].input.uid :: Held(rollouts, uid) == Held(old_, uid)
    ensures OthersKept(work, before, rollouts)
  {
    assert work[i].input.uid in Uids(work);
  }

  ghost predicate SomeFatal(committed: seq<nat>, evaluate: nat -> Evaluation) {
    exists i | i in committed :: Fatal(evaluate(i))
  }

  lemma FatalGrows(committed: seq<nat>, i: nat, evaluate: nat -> Evaluation)
    ensures SomeFatal(committed + [i], evaluate) <==> SomeFatal(committed, evaluate) || Fatal(evaluate(i))
  {
    assert i in committed + [i];
    forall j | j in committed ensures j in committed + [i] {
    }
  }

  function Attempt(w: Work): nat { if w.existing.Some? then w.existing.value.attempts + 1 else 1 }

  lemma TableAfter(work: seq<Work>, evaluate: nat -> Evaluation, committed: seq<nat>, i: nat,
                   old_: map<string, Entry>, rollouts: map<string, Entry>)
    requires DistinctWork(work) && i < |work| && i !in committed && AsCommitted(work, evaluate, committed, old_)
    requires rollouts == old_[work[i].input.uid :=
      Checkpoint.Row(Held(old_, work[i].input.uid), work[i], StatusOf(evaluate(i)), Attempt(work[i]))]
    ensures AsCommitted(work, evaluate, committed + [i], rollouts)
  {
    forall j: nat | j < |work|
      ensures var now := Held(rollouts, work[j].input.uid);
        if j in committed + [i] then OneMore(work[j], now, StatusOf(evaluate(j))) else now == work[j].existing
    {
      if j != i { assert work[j].input.uid != work[i].input.uid; }
    }
  }

  lemma IdsAfter(
      work: seq<Work>, committed: seq<nat>, i: nat, old_: map<string, Entry>, rollouts: map<string, Entry>,
      status: Status)
    requires DistinctWork(work) && i < |work| && i !in committed && IdsFree(work, committed, old_)
    requires Held(old_, work[i].input.uid) == work[i].existing
    requires rollouts == old_[work[i].input.uid := Checkpoint.Row(work[i].existing, work[i], status, Attempt(work[i]))]
    ensures IdsFree(work, committed + [i], rollouts)
  {
    forall j: nat | j < |work| && j !in committed + [i] && work[j].existing.None?
      ensures FreeId(rollouts, work[j].input.publicId)
    {
      assert j !in committed && FreeId(old_, work[j].input.publicId);
      assert i in committed + [i] && j != i;
    }
  }

  ghost function Uids(work: seq<Work>): set<string> {
    set i | 0 <= i < |work| :: work[i].input.uid
  }

  ghost predicate OneMore(work: Work, now: Option<Entry>, status: Status) {
    && now.Some?
    && now.value.attempts == (if work.existing.Some? then work.existing.value.attempts else 0) + 1
    && now.value.status == status
    && now.value.publicId == (if work.existing.Some? then work.existing.value.publicId else work.input.publicId)
    && now.value.digest == (if work.existing.Some? then work.existing.value.digest else work.input.digest)
  }

  // ----------------------------------------------------------------- resumed runs

  /** No row of the window is missing or stands as a failed attempt of the infrastructure. */
  ghost predicate WindowDone(inputs: seq<Input>, rollouts: map<string, Entry>) {
    forall i | 0 <= i < |inputs| :: inputs[i].uid in rollouts && rollouts[inputs[i].uid].status != Errored
  }

  /** Rows that wait for review or are approved. */
  ghost predicate SettledKept(before: map<string, Entry>, rollouts: map<string, Entry>) {
    forall uid | uid in before && before[uid].status in {NeedsReview, Approved} ::
      Held(rollouts, uid) == Some(before[uid])
  }

  /** One resumed run: selection, and the concurrent run over what was selected.  Settled
      rows are never run again, no history row is lost, and a run without retries or a fatal
      outcome completes the window. */
  method Resume(
      table: Checkpoint, inputs: seq<Input>, retry: set<string>, concurrency: nat, evaluate: nat -> Evaluation)
    returns (r: Option<bool>)
    requires table.Valid() && DistinctInputs(inputs) && concurrency > 0 && IdsBelong(inputs, table.rollouts)
    modifies table
    ensures r.Some? <==> old(table.Consistent(inputs, retry))
    ensures r.None? ==> table.rollouts == old(table.rollouts) && table.history == old(table.history)
    ensures table.Valid() && SettledKept(old(table.rollouts), table.rollouts)
    ensures HistoryKept(old(table.history), table.history)
    ensures IdsBelong(inputs, table.rollouts)
    ensures r == Some(false) && retry == {} ==> WindowDone(inputs, table.rollouts)
  {
    var selected := table.SelectWork(inputs, retry);
    if selected.None? { return None; }
    var work := selected.value;
    var run := new Run(work, concurrency, table, evaluate);
    var fatal := run.Execute();
    SettledNotSelected(work, run.before, table.rollouts);
    BelongAfter(inputs, work, evaluate, run.committed, run.before, table.rollouts);
    if !fatal && retry == {} {
      WindowCompletes(inputs, work, evaluate, run.committed, run.before, table.rollouts);
    }
    return Some(fatal);
  }

  /** Without a fatal outcome, all that was selected is committed and the rest was done before. */
  lemma WindowCompletes(
      inputs: seq<Input>, work: seq<Work>, evaluate: nat -> Evaluation, committed: seq<nat>,
      before: map<string, Entry>, rollouts: map<string, Entry>)
    requires OthersKept(work, before, rollouts) && AsCommitted(work, evaluate, committed, rollouts)
    requires DistinctInputs(inputs) && !SomeFatal(committed, evaluate) && forall k: nat | k < |work| :: k in committed
    requires forall i | 0 <= i < |inputs| && Open(before, inputs[i].uid) ::
      Work(inputs[i], Held(before, inputs[i].uid)) in work
    requires forall w | w in work :: w.input.uid in before ==> before[w.input.uid].status == Errored
    ensures WindowDone(inputs, rollouts)
  {
    forall i | 0 <= i < |inputs| ensures inputs[i].uid in rollouts && rollouts[inputs[i].uid].status != Errored {
      if Open(before, inputs[i].uid) {
        var k :| 0 <= k < |work| && work[k] == Work(inputs[i], Held(before, inputs[i].uid));
        CommittedFine(work, evaluate, committed, rollouts, k);
      } else {
        NotSelectedKept(work, before, rollouts, inputs, i);
      }
    }
  }

  /** A row that is missing or failed by the infrastructure: one a plain resumption takes up. */
  predicate Open(rollouts: map<string, Entry>, uid: string) { uid !in rollouts || rollouts[uid].status == Errored }

  lemma BelongAfter(
      inputs: seq<Input>, work: seq<Work>, evaluate: nat -> Evaluation, committed: seq<nat>,
      before: map<string, Entry>, rollouts: map<string, Entry>)
    requires DistinctInputs(inputs) && IdsBelong(inputs, before)
    requires OthersKept(work, before, rollouts) && AsCommitted(work, evaluate, committed, rollouts)
    requires forall w | w in work ::
      w.input in inputs && (w.existing.Some? ==> w.existing.value.publicId == w.input.publicId)
    ensures IdsBelong(inputs, rollouts)
  {
    forall uid, i | uid in rollouts && 0 <= i < |inputs| && rollouts[uid].publicId == inputs[i].publicId
      ensures uid == inputs[i].uid
    {
      if uid in Uids(work) {
        var k :| 0 <= k < |work| && work[k].input.uid == uid;
        assert work[k] in work && Held(rollouts, uid) == Some(rollouts[uid]);
        var j :| 0 <= j < |inputs| && inputs[j] == work[k].input;
      } else {
        assert Held(rollouts, uid) == Held(before, uid);
      }
    }
  }

  lemma SettledNotSelected(work: seq<Work>, before: map<string, Entry>, rollouts: map<string, Entry>)
    requires OthersKept(work, before, rollouts)
    requires forall w | w in work ::
      w.existing == Held(before, w.input.uid) && (w.existing.Some? ==> w.existing.value.status in {Rejected, Errored})
    ensures SettledKept(before, rollouts)
  {
    forall uid | uid in before && before[uid].status in {NeedsReview, Approved}
      ensures Held(rollouts, uid) == Some(before[uid])
    {
      assert uid !in Uids(work);
    }
  }

  lemma CommittedFine(
      work: seq<Work>, evaluate: nat -> Evaluation, committed: seq<nat>, rollouts: map<string, Entry>, k: nat)
    requires k < |work| && AsCommitted(work, evaluate, committed, rollouts) && k in committed
    requires !SomeFatal(committed, evaluate)
    ensures work[k].input.uid in rollouts && rollouts[work[k].input.uid].status != Errored
  {
    assert OneMore(work[k], Held(rollouts, work[k].input.uid), StatusOf(evaluate(k)));
  }

  lemma NotSelectedKept(
      work: seq<Work>, before: map<string, Entry>, rollouts: map<string, Entry>, inputs: seq<Input>, i: nat)
    requires OthersKept(work, before, rollouts) && i < |inputs| && DistinctInputs(inputs)
    requires inputs[i].uid in before && before[inputs[i].uid].status != Errored
    requires forall w | w in work :: w.input.uid in before ==> before[w.input.uid].status == Errored
    ensures inputs[i].uid in rollouts && rollouts[inputs[i].uid].status != Errored
  {
    assert inputs[i].uid !in Uids(work);
    assert Held(rollouts, inputs[i].uid) == Held(before, inputs[i].uid);
  }

  // ------------------------------------------------------------ batched retrieval

  /** The answer to a submitted query: still awaited, the documents, or an exception. */
  datatype Future = Awaited | Documents(docs: string) | Failed

  /** The gateway between concurrent trajectories and the one retriever.  Requests are
      numbered in the order of submission; the queue holds those not yet dispatched. */
  class Coordinator {
    const maxBatch: nat
    var queries: seq<string>
    var futures: seq<Future>
    var taken: nat
    var batchCount: nat
    var queryCount: nat
    var maxObserved: nat

    constructor (maxBatch: nat)
      requires 1 <= maxBatch <= 8
      ensures Valid() && this.maxBatch == maxBatch && queries == [] && queryCount == 0
    {
      this.maxBatch := maxBatch;
      queries, futures, taken, batchCount, queryCount, maxObserved := [], [], 0, 0, 0, 0;
    }

    static predicate AwaitedFrom(futures: seq<Future>, taken: nat) {
      forall i | 0 <= i < |futures| :: futures[i] == Awaited <==> i >= taken
    }

    /** Resolving the next ones leaves the ones behind them awaited. */
    static lemma AwaitedBehind(all: seq<Future>, first: nat, part: seq<Future>)
      requires first + |part| <= |all| && AwaitedFrom(all, first) && Awaited !in part
      ensures AwaitedFrom(Spliced(all, first, part), first + |part|)
    {
    }

    /** Each of the `n` futures from `first` on has received its own answer, or a failure for
        all of them, and no other has changed. */
    static predicate Answered(before: seq<Future>, after: seq<Future>, first: nat, n: nat, answer: Option<seq<string>>)
    {
      && first + n <= |after| == |before|
      && (forall i | 0 <= i < |after| && !(first <= i < first + n) :: after[i] == before[i])
      && (forall i | first <= i < first + n ::
            after[i] == if answer.Some? && |answer.value| == n then Documents(answer.value[i - first]) else Failed)
    }

    /** Exactly the requests still in the queue are awaited. */
    ghost predicate Valid()
      reads this
    {
      && 1 <= maxBatch <= 8 && taken <= |queries| == |futures|
      && AwaitedFrom(futures, taken) && batchCount <= queryCount && maxObserved <= maxBatch
      && (queryCount > 0 ==> maxObserved > 0)
    }

    method Submit(query: string, topk: int) returns (id: Option<nat>)
      requires Valid()
      modifies this`queries, this`futures
      ensures Valid() && (id.Some? <==> 1 <= |query| <= 300 && topk == 3)
      ensures id.Some? ==> id.value == |old(queries)|
      ensures id.Some? ==> queries == old(queries) + [query] && futures == old(futures) + [Awaited]
      ensures id.None? ==> queries == old(queries) && futures == old(futures)
    {
      if !(1 <= |query| <= 300) || topk != 3 { return None; }
      queries, futures := queries + [query], futures + [Awaited];
      return Some(|queries| - 1);
    }

    /** One batch, first come first served: `arriving` is how many requests were there before
        the deadlines passed.  A backend that fails, or answers the wrong number, fails the
        whole batch and nothing else. */
    method Dispatch(arriving: nat, backend: seq<string> -> Option<seq<string>>) returns (n: nat)
      requires Valid()
      modifies this`futures, this`taken, this`batchCount, this`queryCount, this`maxObserved
      ensures Valid() && queries == old(queries)
      ensures n <= maxBatch && n <= |queries| - old(taken) && taken == old(taken) + n
      ensures n == 0 <==> arriving == 0 || old(taken) == |queries|
      ensures queryCount == old(queryCount) + n && batchCount == old(batchCount) + (if n > 0 then 1 else 0)
      ensures Answered(old(futures), futures, old(taken), n, backend(queries[old(taken)..taken]))
    {
      n := Gather(arriving);
      if n == 0 { return; }
      var batch := queries[taken..taken + n];
      batchCount, queryCount, maxObserved := batchCount + 1, queryCount + n, if n > maxObserved then n else maxObserved;
      var answer := backend(batch);
      Resolve(n, answer);
    }

    /** The next futures in order receive their results. */
    method Resolve(n: nat, answer: Option<seq<string>>)
      requires AwaitedFrom(futures, taken) && taken + n <= |futures|
      modifies this`futures, this`taken
      ensures taken == old(taken) + n && Answered(old(futures), futures, old(taken), n, answer)
      ensures AwaitedFrom(futures, taken)
    {
      AwaitedBehind(futures, taken, Resolved(n, answer));
      futures, taken := Spliced(futures, taken, Resolved(n, answer)), taken + n;
    }

    /** How many waiting requests join the batch. */
    method Gather(arriving: nat) returns (n: nat)
      requires Valid()
      ensures n <= maxBatch && n <= arriving && taken + n <= |queries|
      ensures n == maxBatch || n == arriving || taken + n == |queries|
    {
      n := 0;
      while n < maxBatch && n < arriving && taken + n < |queries|
        invariant n <= maxBatch && n <= arriving && taken + n <= |queries|
      {
        n := n + 1;
      }
    }

    static function Spliced(all: seq<Future>, first: nat, part: seq<Future>): (r: seq<Future>)
      requires first + |part| <= |all|
      ensures |r| == |all|
      ensures forall i | 0 <= i < |all| :: r[i] == if first <= i < first + |part| then part[i - first] else all[i]
    {
      all[..first] + part + all[first + |part|..]
    }

    static function Resolved(n: nat, answer: Option<seq<string>>): (r: seq<Future>)
      ensures |r| == n && Awaited !in r
      ensures forall i | 0 <= i < n ::
        r[i] == if answer.Some? && |answer.value| == n then Documents(answer.value[i]) else Failed
    {
      if answer.Some? && |answer.value| == n then seq(n, i requires 0 <= i < n => Documents(answer.value[i]))
      else seq(n, _ => Failed)
    }

    /** Shutdown: nobody is left waiting. */
    method FailPending()
      requires Valid()
      modifies this`futures, this`taken
      ensures Valid() && taken == |queries| && |futures| == |old(futures)|
      ensures forall i | 0 <= i < |futures| :: futures[i] == if i < old(taken) then old(futures)[i] else Failed
    {
      while taken < |queries|
        invariant old(taken) <= taken && Valid() && |futures| == |old(futures)| && queries == old(queries)
        invariant forall i | 0 <= i < |futures| ::
          futures[i] == if old(taken) <= i < taken then Failed else old(futures)[i]
      {
        futures, taken := futures[taken := Failed], taken + 1;
      }
    }
  }
}
