/** The retrieval server's batching worker: one thread takes requests from a queue,
    coalesces them under a query cap, searches them together and hands every request its own
    slice of the results.

    The worker is the queue's only consumer, so a run is determined by the order in which
    messages are put and by which waits time out.  `queue` holds that order, including
    messages that arrive while the worker is running; every wait may nondeterministically
    time out. */
module RequestBatching {
  import opened Outcome
  import opened Sequences

  type Doc = string
  datatype Hits = Hits(docs: seq<Doc>, scores: seq<real>)

  datatype Failure = UnsupportedMode | BackendFailure(code: int)

  /** A group key: effective topk and mode. */
  datatype Key = Key(topk: int, mode: string)

  /** The search engines: dense search of a whole chunk of queries, sparse search of one
      query, and the fusion of one query's two hit lists. */
  datatype Backend = Backend(
    dense: seq<string> -> seq<Hits>, sparse: string -> Hits, fuse: (Hits, Hits, Key) -> Hits,
    chunk: nat, topk: int)
  {
    /** Encoding and index search treat the rows of a chunk independently. */
    ghost predicate RowIndependent() {
      && chunk >= 1
      && (forall qs :: |dense(qs)| == |qs|)
      && (forall qs, i | 0 <= i < |qs| :: dense(qs)[i] == dense([qs[i]])[0])
    }
  }

  predicate Supported(mode: string) { mode == "hybrid" || mode == "dense" || mode == "sparse" }

  const NoHits := Hits([], [])

  /** Searching one query on its own. */
  function SearchOne(b: Backend, key: Key, query: string): Hits
    requires |b.dense([query])| == 1
  {
    b.fuse(if key.mode == "hybrid" || key.mode == "dense" then b.dense([query])[0] else NoHits,
           if key.mode == "hybrid" || key.mode == "sparse" then b.sparse(query) else NoHits,
           key)
  }

  /** Searching queries one at a time. */
  ghost function SearchEach(b: Backend, key: Key, queries: seq<string>): (r: seq<Hits>)
    requires b.RowIndependent()
    ensures |r| == |queries| && forall i | 0 <= i < |r| :: r[i] == SearchOne(b, key, queries[i])
  {
    seq(|queries|, i requires 0 <= i < |queries| => SearchOne(b, key, queries[i]))
  }

  /** Results in wire form: one list of documents and one of scores per query. */
  datatype Answer = Answer(docs: seq<seq<Doc>>, scores: seq<seq<real>>)

  ghost function AnswerOf(hits: seq<Hits>): (a: Answer)
    ensures |a.docs| == |a.scores| == |hits|
    ensures forall i | 0 <= i < |hits| :: a.docs[i] == hits[i].docs && a.scores[i] == hits[i].scores
  {
    Answer(seq(|hits|, i requires 0 <= i < |hits| => hits[i].docs),
           seq(|hits|, i requires 0 <= i < |hits| => hits[i].scores))
  }

  method DenseSearchMany(b: Backend, queries: seq<string>) returns (results: seq<Hits>)
    requires b.RowIndependent()
    ensures |results| == |queries|
    ensures forall i | 0 <= i < |queries| :: results[i] == b.dense([queries[i]])[0]
  {
    results := [];
    var start := 0;
    while start < |queries|
      invariant start >= 0 && |results| == if start < |queries| then start else |queries|
      invariant forall i | 0 <= i < |results| :: results[i] == b.dense([queries[i]])[0]
    {
      var end := if start + b.chunk < |queries| then start + b.chunk else |queries|;
      var hits := b.dense(queries[start..end]);
      for row := 0 to end - start
        invariant |results| == start + row
        invariant forall i | 0 <= i < |results| :: results[i] == b.dense([queries[i]])[0]
      {
        assert queries[start..end][row] == queries[start + row];
        results := results + [hits[row]];
      }
      start := start + b.chunk;
    }
  }

  /** One search of a whole group: it may fail as a whole, but when it succeeds it returns
      what searching the queries one at a time returns. */
  method BatchSearch(b: Backend, queries: seq<string>, key: Key) returns (r: Result<Answer, Failure>)
    requires b.RowIndependent()
    ensures !Supported(key.mode) ==> r == Err(UnsupportedMode)
    ensures r.Ok? ==> r.value == AnswerOf(SearchEach(b, key, queries))
  {
    if !Supported(key.mode) { return Err(UnsupportedMode); }
    if queries == [] { return Ok(Answer([], [])); }
    if * {
      var code: int := *;
      return Err(BackendFailure(code));
    }
    var sparse := seq(|queries|, _ => NoHits);
    if key.mode == "hybrid" || key.mode == "sparse" {
      sparse := seq(|queries|, i requires 0 <= i < |queries| => b.sparse(queries[i]));
    }
    var dense := seq(|queries|, _ => NoHits);
    if key.mode == "hybrid" || key.mode == "dense" {
      dense := DenseSearchMany(b, queries);
    }
    var docs: seq<seq<Doc>>, scores: seq<seq<real>> := [], [];
    ghost var each := SearchEach(b, key, queries);
    for i := 0 to |queries|
      invariant |docs| == |scores| == i
      invariant forall j | 0 <= j < i :: docs[j] == each[j].docs && scores[j] == each[j].scores
    {
      var hits := b.fuse(dense[i], sparse[i], key);
      assert hits == each[i];
      docs, scores := docs + [hits.docs], scores + [hits.scores];
    }
    return Ok(Answer(docs, scores));
  }

  // ------------------------------------------------------------------- requests

  class Request {
    const queries: seq<string>
    const topk: Option<int>
    const mode: string
    var result: Option<Answer>
    var error: Option<Failure>
    var completed: bool
    ghost var completions: nat

    constructor (queries: seq<string>, topk: Option<int>, mode: string)
      ensures this.queries == queries && this.topk == topk && this.mode == mode && Waiting()
    {
      this.queries, this.topk, this.mode := queries, topk, mode;
      result, error, completed, completions := None, None, false, 0;
    }

    ghost predicate Waiting()
      reads this
    {
      result == None && error == None && !completed && completions == 0
    }

    method Complete()
      modifies this
      ensures completed && completions == old(completions) + 1
      ensures result == old(result) && error == old(error)
    {
      completed := true;
      completions := completions + 1;
    }
  }

  /** A missing or zero topk means the server's own. */
  function KeyOf(b: Backend, r: Request): Key {
    Key(if r.topk.None? || r.topk.value == 0 then b.topk else r.topk.value, r.mode)
  }

  /** What a request is owed: the single-query results of its own queries. */
  ghost function Owed(b: Backend, r: Request): Answer
    requires b.RowIndependent()
  {
    AnswerOf(SearchEach(b, KeyOf(b, r), r.queries))
  }

  function QueryCount(batch: seq<Request>): nat {
    if batch == [] then 0 else QueryCount(batch[..|batch| - 1]) + |batch[|batch| - 1].queries|
  }

  function AllQueries(group: seq<Request>): (r: seq<string>)
    ensures |r| == QueryCount(group)
  {
    if group == [] then [] else AllQueries(group[..|group| - 1]) + group[|group| - 1].queries
  }

  ghost predicate Distinct(rs: seq<Request>) { forall i, j | 0 <= i < j < |rs| :: rs[i] != rs[j] }

  /** The queries of the k-th member sit in the flattened list right after those before it. */
  lemma {:induction false} OwnSlice(group: seq<Request>, k: nat)
    requires k < |group|
    ensures QueryCount(group[..k]) + |group[k].queries| == QueryCount(group[..k + 1]) <= QueryCount(group)
    ensures AllQueries(group)[QueryCount(group[..k])..QueryCount(group[..k + 1])] == group[k].queries
    decreases |group|
  {
    assert group[..k + 1][..k] == group[..k];
    if k == |group| - 1 {
      assert group[..k + 1] == group;
    } else {
      var front := group[..|group| - 1];
      assert front[..k] == group[..k] && front[..k + 1] == group[..k + 1] && front[k] == group[k];
      OwnSlice(front, k);
    }
  }

  /** What happened to one group: it failed as a whole, or every member got what it is owed. */
  ghost predicate Settled(b: Backend, r: Request, failed: Option<Failure>)
    requires b.RowIndependent()
    reads r
  {
    match failed
    case Some(e) => r.error == Some(e) && r.result == None
    case None => r.error == None && r.result == Some(Owed(b, r))
  }

  method FailGroup(group: seq<Request>, error: Failure)
    requires forall r | r in group :: r.Waiting()
    modifies group
    ensures forall r | r in group :: r.error == Some(error) && r.result == None && !r.completed && r.completions == 0
  {
    for k := 0 to |group|
      invariant forall j | 0 <= j < k :: group[j].error == Some(error)
      invariant forall r | r in group :: r.result == None && !r.completed && r.completions == 0
    {
      group[k].error := Some(error);
    }
  }

  method SearchGroup(b: Backend, key: Key, group: seq<Request>) returns (ghost failed: Option<Failure>)
    requires b.RowIndependent() && Distinct(group)
    requires forall r | r in group :: KeyOf(b, r) == key && r.Waiting()
    modifies group
    ensures forall r | r in group :: Settled(b, r, failed) && !r.completed && r.completions == 0
    ensures !Supported(key.mode) ==> failed == Some(UnsupportedMode)
  {
    var flattened := AllQueries(group);
    var answer := BatchSearch(b, flattened, key);
    if answer.Err? {
      FailGroup(group, answer.error);
      failed := Some(answer.error);
    } else {
      failed := None;
      var offset := 0;
      for k := 0 to |group|
        invariant offset == QueryCount(group[..k])
        invariant forall r | r in group :: r.error == None && !r.completed && r.completions == 0
        invariant forall j | 0 <= j < k :: group[j].result == Some(Owed(b, group[j]))
      {
        OwnSlice(group, k);
        var end := offset + |group[k].queries|;
        SliceIsOwed(b, key, group, k);
        group[k].result := Some(Answer(answer.value.docs[offset..end], answer.value.scores[offset..end]));
        offset := end;
      }
    }
  }

  lemma SliceIsOwed(b: Backend, key: Key, group: seq<Request>, k: nat)
    requires b.RowIndependent() && k < |group| && KeyOf(b, group[k]) == key
    ensures var from, to := QueryCount(group[..k]), QueryCount(group[..k + 1]);
      var all := AnswerOf(SearchEach(b, key, AllQueries(group)));
      0 <= from <= to <= |all.docs| && Answer(all.docs[from..to], all.scores[from..to]) == Owed(b, group[k])
  {
    OwnSlice(group, k);
    var from, to := QueryCount(group[..k]), QueryCount(group[..k + 1]);
    var all := AnswerOf(SearchEach(b, key, AllQueries(group)));
    forall i | 0 <= i < to - from
      ensures all.docs[from..to][i] == Owed(b, group[k]).docs[i]
      ensures all.scores[from..to][i] == Owed(b, group[k]).scores[i]
    {
      assert AllQueries(group)[from..to][i] == group[k].queries[i];
    }
  }

  // --------------------------------------------------------------------- groups

  function Members(b: Backend, rs: seq<Request>, key: Key): seq<Request> {
    if rs == [] then []
    else
      var last := rs[|rs| - 1];
      Members(b, rs[..|rs| - 1], key) + if KeyOf(b, last) == key then [last] else []
  }

  lemma {:induction false} MembersOfKey(b: Backend, rs: seq<Request>, key: Key)
    ensures forall i | 0 <= i < |Members(b, rs, key)| ::
      Members(b, rs, key)[i] in rs && KeyOf(b, Members(b, rs, key)[i]) == key
    ensures forall i | 0 <= i < |rs| && KeyOf(b, rs[i]) == key :: rs[i] in Members(b, rs, key)
    ensures Distinct(rs) ==> Distinct(Members(b, rs, key))
  {
    if rs != [] { MembersOfKey(b, rs[..|rs| - 1], key); }
  }

  /** The outcome of one batch: for each key its failure, or none. */
  type Outcomes = map<Key, Option<Failure>>

  ghost predicate BatchSettled(b: Backend, r: Request, outcomes: Outcomes)
    requires b.RowIndependent()
    reads r
  {
    KeyOf(b, r) in outcomes && Settled(b, r, outcomes[KeyOf(b, r)])
  }

  /** Groups the batch by key and searches group by group: a failing group leaves every
      other group's members with exactly what they are owed. */
  method SearchBatch(b: Backend, batch: seq<Request>) returns (ghost outcomes: Outcomes)
    requires b.RowIndependent() && Distinct(batch) && forall r | r in batch :: r.Waiting()
    modifies batch
    ensures forall r | r in batch :: BatchSettled(b, r, outcomes) && !r.completed && r.completions == 0
    ensures forall k | k in outcomes && !Supported(k.mode) :: outcomes[k] == Some(UnsupportedMode)
  {
    var grouped := GroupByKey(b, batch);
    var rest := grouped.Keys;
    outcomes := map[];
    while rest != {}
      invariant rest <= grouped.Keys
      invariant forall k :: k in outcomes <==> k in grouped && k !in rest
      invariant forall r | r in batch && KeyOf(b, r) !in rest :: BatchSettled(b, r, outcomes)
      invariant forall r | r in batch && KeyOf(b, r) in rest :: r.Waiting()
      invariant forall r | r in batch :: !r.completed && r.completions == 0
      invariant forall k | k in outcomes && !Supported(k.mode) :: outcomes[k] == Some(UnsupportedMode)
      decreases |rest|
    {
      var key :| key in rest;
      MembersOfKey(b, batch, key);
      ghost var failed := SearchGroup(b, key, grouped[key]);
      outcomes := outcomes[key := failed];
      rest := rest - {key};
    }
  }

  function Group(grouped: map<Key, seq<Request>>, key: Key): seq<Request> {
    if key in grouped then grouped[key] else []
  }

  method GroupByKey(b: Backend, batch: seq<Request>) returns (grouped: map<Key, seq<Request>>)
    ensures forall k | k in grouped :: grouped[k] == Members(b, batch, k)
    ensures forall r | r in batch :: KeyOf(b, r) in grouped
  {
    grouped := map[];
    for i := 0 to |batch|
      invariant forall k :: Group(grouped, k) == Members(b, batch[..i], k)
      invariant forall j | 0 <= j < i :: KeyOf(b, batch[j]) in grouped
    {
      var key := KeyOf(b, batch[i]);
      assert batch[..i + 1][..i] == batch[..i];
      grouped := grouped[key := Group(grouped, key) + [batch[i]]];
    }
    assert batch[..|batch|] == batch;
  }

  // --------------------------------------------------------------------- worker

  datatype Message = Stop | Submit(request: Request)

  function Submits(rs: seq<Request>): (r: seq<Message>)
    ensures |r| == |rs| && forall i | 0 <= i < |r| :: r[i] == Submit(rs[i])
  {
    seq(|rs|, i requires 0 <= i < |rs| => Submit(rs[i]))
  }

  ghost function Requests(q: seq<Message>): set<Request> {
    set m | m in q && m.Submit? :: m.request
  }

  ghost predicate DistinctMessages(q: seq<Message>) {
    forall i, j | 0 <= i < j < |q| && q[i].Submit? && q[j].Submit? :: q[i].request != q[j].request
  }

  datatype Stats = Stats(
    requests: nat, queries: nat, workerBatches: nat, coalesced: nat, maxRequests: nat, maxQueries: nat)

  function Max(a: nat, b: nat): nat { if a >= b then a else b }

  function Record(s: Stats, batch: seq<Request>): Stats {
    Stats(s.requests + |batch|, s.queries + QueryCount(batch), s.workerBatches + 1,
          s.coalesced + (if |batch| > 1 then 1 else 0),
          Max(s.maxRequests, |batch|), Max(s.maxQueries, QueryCount(batch)))
  }

  function RecordAll(s: Stats, batches: seq<seq<Request>>): Stats {
    if batches == [] then s else Record(RecordAll(s, batches[..|batches| - 1]), batches[|batches| - 1])
  }

  /** A batch holds at least one request and exceeds the query cap only when it is alone. */
  ghost predicate Legal(batch: seq<Request>, cap: nat) {
    batch != [] && (QueryCount(batch) <= cap || |batch| == 1)
  }

  class Worker {
    const backend: Backend
    const cap: nat
    var queue: seq<Message>
    var closed: bool
    var gets: nat
    var taskDones: nat
    var stats: Stats

    constructor (backend: Backend, cap: nat)
      ensures this.backend == backend && this.cap == cap
      ensures queue == [] && !closed && gets == taskDones == 0 && stats == Stats(0, 0, 0, 0, 0, 0)
    {
      this.backend, this.cap := backend, cap;
      queue, closed, gets, taskDones, stats := [], false, 0, 0, Stats(0, 0, 0, 0, 0, 0);
    }

    /** The client side of one search: nothing is queued for an empty query list or after closing. */
    method Put(queries: seq<string>, topk: Option<int>, mode: string) returns (r: Option<Request>)
      modifies this`queue
      ensures r.Some? <==> queries != [] && !closed
      ensures r.None? ==> queue == old(queue)
      ensures r.Some? ==> fresh(r.value) && r.value.Waiting() && queue == old(queue) + [Submit(r.value)]
      ensures r.Some? ==> r.value.queries == queries && r.value.topk == topk && r.value.mode == mode
    {
      if queries == [] || closed { return None; }
      var request := new Request(queries, topk, mode);
      queue := queue + [Submit(request)];
      return Some(request);
    }

    /** Closing twice queues one sentinel. */
    method Close()
      modifies this`queue, this`closed
      ensures closed && queue == old(queue) + if old(closed) then [] else [Stop]
    {
      if closed { return; }
      closed := true;
      queue := queue + [Stop];
    }
  
    /** Coalesces onto the first request until the cap is reached, the wait times out, the
        sentinel arrives, or a request would overflow the cap and is deferred. */
    method Coalesce(first: Request)
      returns (batch: seq<Request>, queryCount: nat, deferred: Option<Request>, stop: bool)
      modifies this`queue, this`gets, this`taskDones
      ensures batch != [] && batch[0] == first && queryCount == QueryCount(batch) && Legal(batch, cap)
      ensures !(stop && deferred.Some?)
      ensures [Submit(first)] + old(queue) == Submits(batch) + Behind(deferred, stop, queue)
      ensures gets == old(gets) + |old(queue)| - |queue|
      ensures taskDones == old(taskDones) + if stop then 1 else 0
      ensures deferred.Some? ==> queryCount + |deferred.value.queries| > cap
    {
      batch, queryCount, deferred, stop := [first], |first.queries|, None, false;
      assert batch[..0] == [];
      while queryCount < cap
        invariant batch != [] && batch[0] == first && queryCount == QueryCount(batch) && Legal(batch, cap)
        invariant deferred == None && !stop
        invariant [Submit(first)] + old(queue) == Submits(batch) + queue
        invariant gets == old(gets) + |old(queue)| - |queue| && taskDones == old(taskDones)
        decreases |queue|
      {
        if * { break; }            // the coalescing window has passed
        if queue == [] { break; }  // nothing arrived before it did
        var candidate := queue[0];
        queue := queue[1..];
        gets := gets + 1;
        if candidate.Stop? {
          taskDones := taskDones + 1;
          stop := true;
          break;
        }
        if queryCount + |candidate.request.queries| > cap {
          deferred := Some(candidate.request);
          break;
        }
        assert (batch + [candidate.request])[..|batch|] == batch;
        assert Submits(batch + [candidate.request]) == Submits(batch) + [candidate];
        batch := batch + [candidate.request];
        queryCount := queryCount + |candidate.request.queries|;
      }
    }
  
    method CompleteBatch(batch: seq<Request>, queryCount: nat)
      requires Distinct(batch) && queryCount == QueryCount(batch)
      modifies this`stats, this`taskDones, batch
      ensures stats == Record(old(stats), batch) && taskDones == old(taskDones) + |batch|
      ensures forall r | r in batch ::
        r.completed && r.completions == old(r.completions) + 1 && r.result == old(r.result) && r.error == old(r.error)
    {
      stats := Stats(stats.requests + |batch|, stats.queries + queryCount, stats.workerBatches + 1,
                     stats.coalesced + (if |batch| > 1 then 1 else 0),
                     Max(stats.maxRequests, |batch|), Max(stats.maxQueries, queryCount));
      for i := 0 to |batch|
        invariant stats == Record(old(stats), batch) && taskDones == old(taskDones) + i
        invariant forall r | r in batch :: r.result == old(r.result) && r.error == old(r.error)
        invariant forall j | 0 <= j < i :: batch[j].completed && batch[j].completions == old(batch[j].completions) + 1
        invariant forall j | i <= j < |batch| :: batch[j].completions == old(batch[j].completions)
      {
        batch[i].Complete();
        taskDones := taskDones + 1;
      }
    }

    /** Search, slice, record statistics and complete, for one batch. */
    method Serve(batch: seq<Request>, queryCount: nat) returns (ghost outcome: Outcomes)
      requires backend.RowIndependent() && Distinct(batch) && queryCount == QueryCount(batch)
      requires forall r | r in batch :: r.Waiting()
      modifies this`stats, this`taskDones, batch
      ensures stats == Record(old(stats), batch) && taskDones == old(taskDones) + |batch|
      ensures Served(backend, batch, outcome)
    {
      outcome := SearchBatch(backend, batch);
      CompleteBatch(batch, queryCount);
    }

    /** The next request: the deferred one, or the head of the queue.  None when the head is
        the sentinel (`stop`) or when the worker has to wait. */
    method Take(deferred: Option<Request>) returns (request: Option<Request>, stop: bool)
      modifies this`queue, this`gets, this`taskDones
      ensures request.Some? ==> Behind(deferred, false, old(queue)) == [Submit(request.value)] + queue
      ensures request.Some? ==> !stop
      ensures request.None? ==> deferred == None && old(queue) == Behind(None, stop, queue)
      ensures request.None? && !stop ==> queue == []
      ensures gets == old(gets) + |old(queue)| - |queue| && taskDones == old(taskDones) + if stop then 1 else 0
    {
      if deferred.Some? { return deferred, false; }
      if queue == [] { return None, false; }
      var message := queue[0];
      queue := queue[1..];
      gets := gets + 1;
      if message.Stop? {
        taskDones := taskDones + 1;
        return None, true;
      }
      return Some(message.request), false;
    }

    /** One turn of the loop: coalesce onto the request and serve the batch. */
    method Turn(request: Request)
      returns (batch: seq<Request>, deferred: Option<Request>, stop: bool, ghost outcome: Outcomes)
      requires backend.RowIndependent() && DistinctMessages([Submit(request)] + queue)
      requires forall r | r in Requests([Submit(request)] + queue) :: r.Waiting()
      modifies this`queue, this`gets, this`taskDones, this`stats, Requests([Submit(request)] + queue)
      ensures [Submit(request)] + old(queue) == Submits(batch) + Behind(deferred, stop, queue)
      ensures !(stop && deferred.Some?) && Legal(batch, cap) && Served(backend, batch, outcome)
      ensures gets == old(gets) + |old(queue)| - |queue|
      ensures taskDones == old(taskDones) + |batch| + (if stop then 1 else 0)
      ensures stats == Record(old(stats), batch)
      ensures forall r | r in Requests(Behind(deferred, stop, queue)) :: r.Waiting()
    {
      ghost var ahead := [Submit(request)] + queue;
      var queryCount;
      batch, queryCount, deferred, stop := Coalesce(request);
      ghost var rest := Behind(deferred, stop, queue);
      assert ahead == Submits([]) + Submits(batch) + rest;
      ServedStaysApart(ahead, [], batch, rest);
      RequestsBehind(batch, rest);
      outcome := Serve(batch, queryCount);
    }

    /** What holds at the head of the worker loop: the messages of `all` are the served ones
        followed by everything ahead; every served batch is settled, everything ahead waits. */
    ghost predicate Progress(all: seq<Message>, batches: seq<seq<Request>>, outcomes: seq<Outcomes>,
                             deferred: Option<Request>, stopped: bool)
      requires backend.RowIndependent()
      reads *
    {
      && Accounts(all, batches, Behind(deferred, stopped, queue))
      && |outcomes| == |batches|
      && (forall k | 0 <= k < |batches| :: Legal(batches[k], cap) && Served(backend, batches[k], outcomes[k]))
      && (!stopped ==> forall r | r in Requests(Behind(deferred, stopped, queue)) :: r.Waiting())
    }

    /** One turn keeps the batches served before it. */
    method ServeNext(
        request: Request, ghost all: seq<Message>, ghost batches: seq<seq<Request>>, ghost outcomes: seq<Outcomes>)
      returns (deferred: Option<Request>, stop: bool, ghost bs: seq<seq<Request>>, ghost os: seq<Outcomes>)
      requires backend.RowIndependent() && DistinctMessages(all)
      requires Progress(all, batches, outcomes, Some(request), false)
      modifies this`queue, this`gets, this`taskDones, this`stats, Requests([Submit(request)] + queue)
      ensures Progress(all, bs, os, deferred, stop) && !(stop && deferred.Some?)
      ensures |bs| == |batches| + 1 && bs[..|batches|] == batches
      ensures gets == old(gets) + |old(queue)| - |queue|
      ensures taskDones - old(taskDones) == |Flatten(bs)| - |Flatten(batches)| + if stop then 1 else 0
      ensures stats == Record(old(stats), bs[|batches|])
      ensures |queue| + |Held(deferred)| <= |old(queue)|
    {
      ghost var ahead := [Submit(request)] + queue;
      assert ahead == Behind(Some(request), false, queue);
      StillApart(all, batches, ahead);
      label Before:
      var batch; ghost var outcome;
      batch, deferred, stop, outcome := Turn(request);
      forall k | 0 <= k < |batches| ensures Served(backend, batches[k], outcomes[k]) {
        assert unchanged@Before(batches[k]);
      }
      Advance(all, batches, batch, Behind(deferred, stop, queue));
      bs, os := Extend(backend, cap, batches, outcomes, batch, outcome);
    }

    /** Taking the next request leaves what was served, and all that is still to come. */
    method TakeNext(
        deferred: Option<Request>, ghost all: seq<Message>, ghost batches: seq<seq<Request>>,
        ghost outcomes: seq<Outcomes>)
      returns (request: Option<Request>, stop: bool)
      requires backend.RowIndependent() && DistinctMessages(all)
      requires Progress(all, batches, outcomes, deferred, false)
      modifies this`queue, this`gets, this`taskDones
      ensures Progress(all, batches, outcomes, request, stop)
      ensures request.Some? ==> !stop && Requests([Submit(request.value)] + queue) <= Requests(all)
      ensures request.Some? ==> |queue| + 1 == |old(queue)| + |Held(deferred)|
      ensures request.None? && !stop ==> queue == []
      ensures gets == old(gets) + |old(queue)| - |queue| && taskDones == old(taskDones) + if stop then 1 else 0
    {
      StillApart(all, batches, Behind(deferred, false, queue));
      request, stop := Take(deferred);
      if request.Some? {
        assert Behind(request, false, queue) == [Submit(request.value)] + queue;
      } else {
        assert Behind(None, stop, queue) == old(queue) == Behind(None, false, old(queue));
      }
    }

    /** The worker loop.  `stopped` tells whether the sentinel was met; otherwise the queue is
        empty and the worker waits for more.  The ghost results say how the requests were
        batched and which groups failed. */
    method Run() returns (stopped: bool, ghost batches: seq<seq<Request>>, ghost outcomes: seq<Outcomes>)
      requires backend.RowIndependent() && DistinctMessages(queue)
      requires forall r | r in Requests(queue) :: r.Waiting()
      modifies this`queue, this`gets, this`taskDones, this`stats, Requests(queue)
      ensures old(queue) == Submits(Flatten(batches)) + Behind(None, stopped, queue)
      ensures !stopped ==> queue == []
      ensures gets - old(gets) == taskDones - old(taskDones) == |old(queue)| - |queue|
      ensures stats == RecordAll(old(stats), batches)
      ensures |outcomes| == |batches|
      ensures forall k | 0 <= k < |batches| :: Legal(batches[k], cap) && Served(backend, batches[k], outcomes[k])
    {
      stopped, batches, outcomes := false, [], [];
      ghost var all := queue;
      var deferred: Option<Request> := None;
      assert Behind(None, false, queue) == queue;
      while !stopped
        invariant deferred == None || !stopped
        invariant Progress(all, batches, outcomes, deferred, stopped)
        invariant gets - old(gets) == |all| - |queue|
        invariant taskDones - old(taskDones) == |Flatten(batches)| + if stopped then 1 else 0
        invariant stats == RecordAll(old(stats), batches)
        decreases !stopped, |queue| + |Held(deferred)|
      {
        var request;
        request, stopped := TakeNext(deferred, all, batches, outcomes);
        if request.None? { return; }  // the sentinel, or the worker waits for the next message
        deferred, stopped, batches, outcomes := ServeNext(request.value, all, batches, outcomes);
      }
    }
  }

  /** What is still to come behind the served requests. */
  function Behind(deferred: Option<Request>, stop: bool, queue: seq<Message>): seq<Message> {
    Held(deferred) + (if stop then [Stop] else []) + queue
  }

  /** Served requests, then everything ahead, are the messages the worker started from. */
  ghost predicate Accounts(all: seq<Message>, batches: seq<seq<Request>>, ahead: seq<Message>) {
    all == Submits(Flatten(batches)) + ahead
  }

  lemma Advance(all: seq<Message>, batches: seq<seq<Request>>, batch: seq<Request>, rest: seq<Message>)
    requires Accounts(all, batches, Submits(batch) + rest)
    ensures Accounts(all, batches + [batch], rest)
    ensures |Flatten(batches + [batch])| == |Flatten(batches)| + |batch|
  {
    assert (batches + [batch])[..|batches|] == batches;
    assert Submits(Flatten(batches) + batch) == Submits(Flatten(batches)) + Submits(batch);
  }

  lemma Extend(
      b: Backend, cap: nat, batches: seq<seq<Request>>, outcomes: seq<Outcomes>, batch: seq<Request>, outcome: Outcomes)
    returns (bs: seq<seq<Request>>, os: seq<Outcomes>)
    requires b.RowIndependent() && |batches| == |outcomes| && Legal(batch, cap) && Served(b, batch, outcome)
    requires forall k | 0 <= k < |batches| :: Legal(batches[k], cap) && Served(b, batches[k], outcomes[k])
    ensures bs == batches + [batch] && os == outcomes + [outcome] && bs[..|batches|] == batches
    ensures forall k | 0 <= k < |bs| :: Legal(bs[k], cap) && Served(b, bs[k], os[k])
  {
    bs, os := batches + [batch], outcomes + [outcome];
  }

  lemma RequestsBehind(batch: seq<Request>, rest: seq<Message>)
    ensures Requests(rest) <= Requests(Submits(batch) + rest)
    ensures forall r | r in batch :: r in Requests(Submits(batch) + rest)
  {
    forall r | r in batch ensures r in Requests(Submits(batch) + rest) {
      var i :| 0 <= i < |batch| && batch[i] == r;
      assert (Submits(batch) + rest)[i] == Submit(r);
    }
  }

  lemma {:induction false} InFlattened(batches: seq<seq<Request>>, k: nat, r: Request)
    requires k < |batches| && r in batches[k]
    ensures r in Flatten(batches)
  {
    if k < |batches| - 1 { InFlattened(batches[..|batches| - 1], k, r); }
  }

  /** Requests still ahead are distinct, belong to the original queue, and none of them is in
      a served batch. */
  lemma StillApart(all: seq<Message>, batches: seq<seq<Request>>, ahead: seq<Message>)
    requires DistinctMessages(all) && Accounts(all, batches, ahead)
    ensures DistinctMessages(ahead) && Requests(ahead) <= Requests(all)
    ensures forall k | 0 <= k < |batches| :: forall r | r in batches[k] :: r !in Requests(ahead)
  {
    SuffixOfQueue(all, Submits(Flatten(batches)), ahead);
    forall k, r | 0 <= k < |batches| && r in batches[k] ensures r !in Requests(ahead) {
      InFlattened(batches, k, r);
      DoneIsBehind(all, Flatten(batches), ahead, r);
    }
  }

  lemma SuffixOfQueue(all: seq<Message>, front: seq<Message>, ahead: seq<Message>)
    requires DistinctMessages(all) && all == front + ahead
    ensures DistinctMessages(ahead) && Requests(ahead) <= Requests(all)
  {
    assert forall i | 0 <= i < |ahead| :: all[|front| + i] == ahead[i];
  }

  lemma DoneIsBehind(all: seq<Message>, done: seq<Request>, ahead: seq<Message>, r: Request)
    requires DistinctMessages(all) && all == Submits(done) + ahead && r in done
    ensures r !in Requests(ahead)
  {
    var i :| 0 <= i < |done| && done[i] == r;
    assert all[i] == Submit(r);
    assert forall j | 0 <= j < |ahead| :: all[|done| + j] == ahead[j];
  }

  /** Every member of a batch is completed once, settled as its group was. */
  ghost predicate Served(b: Backend, batch: seq<Request>, outcomes: Outcomes)
    requires b.RowIndependent()
    reads batch
  {
    && (forall r | r in batch :: r.completed && r.completions == 1 && BatchSettled(b, r, outcomes))
    && (forall k | k in outcomes && !Supported(k.mode) :: outcomes[k] == Some(UnsupportedMode))
  }

  /** In a queue of distinct requests, a batch shares no request with those served before it
      or still queued behind it. */
  lemma ServedStaysApart(q: seq<Message>, done: seq<Request>, batch: seq<Request>, rest: seq<Message>)
    requires DistinctMessages(q) && q == Submits(done) + Submits(batch) + rest
    ensures Distinct(batch) && forall r | r in batch :: r !in done && r !in Requests(rest) && r in Requests(q)
  {
    forall i | 0 <= i < |batch|
      ensures batch[i] !in done && batch[i] !in Requests(rest) && batch[i] in Requests(q)
      ensures forall j | i < j < |batch| :: batch[i] != batch[j]
    {
      var at := |done| + i;
      assert q[at] == Submit(batch[i]);
      forall j | 0 <= j < |done| ensures done[j] != batch[i] { assert q[j] == Submit(done[j]); }
      forall j | i < j < |batch| ensures batch[i] != batch[j] { assert q[|done| + j] == Submit(batch[j]); }
      forall j | 0 <= j < |rest| && rest[j].Submit? ensures rest[j].request != batch[i] {
        assert q[|done| + |batch| + j] == rest[j];
      }
    }
  }

  function Held(deferred: Option<Request>): seq<Message> {
    if deferred.Some? then [Submit(deferred.value)] else []
  }

  /** The requests served are exactly those put ahead of the sentinel, in the order they were
      put; a message behind the sentinel is never taken. */
  lemma ServedAreThoseAheadOfStop(
      all: seq<Message>, ahead: seq<Request>, behind: seq<Message>, served: seq<Request>, stopped: bool,
      rest: seq<Message>)
    requires all == Submits(ahead) + [Stop] + behind
    requires all == Submits(served) + Behind(None, stopped, rest) && (!stopped ==> rest == [])
    ensures stopped && served == ahead && rest == behind
  {
    assert all[|ahead|] == Stop && forall i | 0 <= i < |ahead| :: all[i] == Submit(ahead[i]);
    assert forall i | 0 <= i < |served| :: all[i] == Submit(served[i]);
    if stopped { assert all[|served|] == Stop; }
    assert |served| == |ahead|;
    forall i | 0 <= i < |served| ensures served[i] == ahead[i] { assert all[i] == Submit(served[i]); }
    forall i | 0 <= i < |rest| ensures i < |behind| && rest[i] == behind[i] { assert all[|served| + 1 + i] == rest[i]; }
    assert |rest| == |behind|;
  }

  lemma {:induction false} QueryCountAppend(a: seq<Request>, b: seq<Request>)
    ensures QueryCount(a + b) == QueryCount(a) + QueryCount(b)
    decreases |b|
  {
    if b == [] {
      assert a + b == a;
    } else {
      assert (a + b)[..|a + b| - 1] == a + b[..|b| - 1];
      QueryCountAppend(a, b[..|b| - 1]);
    }
  }

  /** What the statistics count: every served request and query once, and no batch above the
      recorded maxima. */
  lemma {:induction false} StatisticsMeaning(batches: seq<seq<Request>>)
    ensures var s := RecordAll(Stats(0, 0, 0, 0, 0, 0), batches);
      && s.requests == |Flatten(batches)| && s.queries == QueryCount(Flatten(batches)) && s.workerBatches == |batches|
      && (forall k | 0 <= k < |batches| :: |batches[k]| <= s.maxRequests && QueryCount(batches[k]) <= s.maxQueries)
  {
    if batches != [] {
      var front, last := batches[..|batches| - 1], batches[|batches| - 1];
      StatisticsMeaning(front);
      QueryCountAppend(Flatten(front), last);
      assert forall k | 0 <= k < |front| :: batches[k] == front[k];
    }
  }

  lemma {:induction false} CoalescedMeaning(batches: seq<seq<Request>>)
    ensures RecordAll(Stats(0, 0, 0, 0, 0, 0), batches).coalesced == |set k | 0 <= k < |batches| && |batches[k]| > 1|
  {
    if batches != [] {
      var front, last := batches[..|batches| - 1], batches[|batches| - 1];
      CoalescedMeaning(front);
      var before := set k | 0 <= k < |front| && |front[k]| > 1;
      assert (set k | 0 <= k < |batches| && |batches[k]| > 1) == before + (if |last| > 1 then {|front|} else {});
    }
  }
}
