/** Reciprocal rank fusion of a sparse and a dense result list. */
module RankFusion {
  import opened Outcome
  import opened Sequences

  // ------------------------------------------------------------ the sparse branch

  datatype Hit = Hit(docId: string, rank: nat)

  /** The first occurrence of each identifier, in order. */
  function FirstOccurrences(ids: seq<string>): (r: seq<string>)
    ensures forall id :: id in r <==> id in ids
  {
    if ids == [] then []
    else
      var prior := FirstOccurrences(ids[..|ids| - 1]);
      var last := ids[|ids| - 1];
      assert ids == ids[..|ids| - 1] + [last];
      if last in prior then prior else prior + [last]
  }

  lemma {:induction false} FirstOccurrencesGrow(a: seq<string>, b: seq<string>)
    ensures FirstOccurrences(a) <= FirstOccurrences(a + b)
    decreases |b|
  {
    if b == [] {
      assert a + b == a;
    } else {
      var last := |b| - 1;
      FirstOccurrencesGrow(a, b[..last]);
      assert (a + b)[..|a + b| - 1] == a + b[..last];
    }
  }

  lemma {:induction false} FirstOccurrencesDistinct(ids: seq<string>)
    ensures forall i, j | 0 <= i < j < |FirstOccurrences(ids)| :: FirstOccurrences(ids)[i] != FirstOccurrences(ids)[j]
  {
    if ids != [] { FirstOccurrencesDistinct(ids[..|ids| - 1]); }
  }

  function Ranked(ids: seq<string>): seq<Hit> {
    seq(|ids|, i requires 0 <= i < |ids| => Hit(ids[i], i + 1))
  }

  function Take(ids: seq<string>, n: nat): seq<string> { if n < |ids| then ids[..n] else ids }

  /** The query expressions are tried in turn; the result is the first `topn` distinct
      identifiers over all of them, with ranks 1, 2, ... */
  method Search(results: seq<seq<string>>, topn: nat) returns (hits: seq<Hit>)
    ensures hits == Ranked(Take(FirstOccurrences(Flatten(results)), topn))
  {
    var rows: seq<string> := [];
    for k := 0 to |results|
      invariant rows == FirstOccurrences(Flatten(results[..k]))
    {
      ghost var whole := Flatten(results[..k]);
      assert results[..k + 1][..k] == results[..k] && Flatten(results[..k + 1]) == whole + results[k];
      var full;
      ghost var now;
      rows, full, now := SearchOne(rows, whole, results[k], topn);
      if full {
        FlattenPrefix(results, k + 1);
        EnoughFound(now, Flatten(results), topn);
        return Ranked(Take(rows, topn));
      }
    }
    assert results[..|results|] == results;
    return Ranked(Take(rows, topn));
  }

  /** The rows of one expression: all of them, or as many as are needed. */
  method SearchOne(before: seq<string>, ghost whole: seq<string>, result: seq<string>, topn: nat)
    returns (rows: seq<string>, full: bool, ghost now: seq<string>)
    requires before == FirstOccurrences(whole)
    ensures whole <= now <= whole + result && rows == FirstOccurrences(now)
    ensures if full then |rows| >= topn else now == whole + result
  {
    rows, full, now := before, false, whole;
    for j := 0 to |result|
      invariant now == whole + result[..j] && rows == FirstOccurrences(now)
    {
      OneMore(now, result[j]);
      NextPrefix(whole, result, j);
      now := now + [result[j]];
      if result[j] !in rows { rows := rows + [result[j]]; }
      if |rows| >= topn { return rows, true, now; }
    }
  }

  lemma OneMore(ids: seq<string>, id: string)
    ensures var prior := FirstOccurrences(ids);
      FirstOccurrences(ids + [id]) == if id in prior then prior else prior + [id]
  {
    assert (ids + [id])[..|ids|] == ids;
  }

  lemma EnoughFound(now: seq<string>, all: seq<string>, topn: nat)
    requires |FirstOccurrences(now)| >= topn && now <= all
    ensures Take(FirstOccurrences(now), topn) == Take(FirstOccurrences(all), topn)
  {
    FirstOccurrencesGrow(now, all[|now|..]);
    assert now + all[|now|..] == all;
  }

  /** What the sparse branch returns: distinct documents with ranks 1 to n, and at most
      `topn` of them, all of them when there are fewer. */
  lemma SearchedHits(results: seq<seq<string>>, topn: nat)
    ensures var hits := Ranked(Take(FirstOccurrences(Flatten(results)), topn));
      && UniqueHits(hits) && RanksWithin(hits, topn)
      && (|hits| < topn ==> forall id :: id in Flatten(results) <==> exists h :: h in hits && h.docId == id)
  {
    var ids := FirstOccurrences(Flatten(results));
    var hits := Ranked(Take(ids, topn));
    FirstOccurrencesDistinct(Flatten(results));
    if |hits| < topn {
      forall id ensures id in Flatten(results) <==> exists h :: h in hits && h.docId == id {
        if id in ids {
          var i :| 0 <= i < |ids| && ids[i] == id;
          assert hits[i] in hits;
        }
      }
    }
  }

  /** Each document once, with a rank of its own. */
  predicate UniqueHits(hits: seq<Hit>) {
    forall i, j | 0 <= i < j < |hits| :: hits[i].docId != hits[j].docId && hits[i].rank != hits[j].rank
  }

  predicate RanksWithin(hits: seq<Hit>, n: nat) {
    forall h | h in hits :: 1 <= h.rank <= n
  }

  // ---------------------------------------------------------------------- fusion

  /** A fused document: its score and its rank in each branch. */
  datatype Entry = Entry(docId: string, score: real, sparse: Option<nat>, dense: Option<nat>)

  function Share(k: nat, rank: nat): real
    requires k + rank > 0
  {
    1.0 / (k + rank) as real
  }

  predicate Positive(hits: seq<Hit>) { forall h | h in hits :: h.rank > 0 }

  function AddSparse(entries: map<string, Entry>, k: nat, h: Hit): map<string, Entry>
    requires h.rank > 0
  {
    var e := if h.docId in entries then entries[h.docId] else Entry(h.docId, 0.0, None, None);
    entries[h.docId := e.(sparse := Some(h.rank), score := e.score + Share(k, h.rank))]
  }

  function AddDense(entries: map<string, Entry>, k: nat, h: Hit): map<string, Entry>
    requires h.rank > 0
  {
    var e := if h.docId in entries then entries[h.docId] else Entry(h.docId, 0.0, None, None);
    entries[h.docId := e.(dense := Some(h.rank), score := e.score + Share(k, h.rank))]
  }

  function CollectSparse(k: nat, hits: seq<Hit>): map<string, Entry>
    requires Positive(hits)
  {
    if hits == [] then map[] else AddSparse(CollectSparse(k, hits[..|hits| - 1]), k, hits[|hits| - 1])
  }

  function Collect(k: nat, sparse: seq<Hit>, dense: seq<Hit>): map<string, Entry>
    requires Positive(sparse) && Positive(dense)
    decreases |dense|
  {
    if dense == [] then CollectSparse(k, sparse)
    else AddDense(Collect(k, sparse, dense[..|dense| - 1]), k, dense[|dense| - 1])
  }

  /** String order: the first difference decides, a proper prefix comes first. */
  predicate StringLess(a: string, b: string) {
    b != [] && (a == [] || a[0] < b[0] || (a[0] == b[0] && StringLess(a[1..], b[1..])))
  }

  lemma {:induction false} StringLessTotal(a: string, b: string)
    ensures a != b ==> StringLess(a, b) || StringLess(b, a)
    ensures !(StringLess(a, b) && StringLess(b, a)) && (StringLess(a, b) ==> a != b)
  {
    if a != [] && b != [] {
      StringLessTotal(a[1..], b[1..]);
      assert a == [a[0]] + a[1..] && b == [b[0]] + b[1..];
    }
  }

  lemma {:induction false} StringLessTransitive(a: string, b: string, c: string)
    requires StringLess(a, b) && StringLess(b, c)
    ensures StringLess(a, c)
  {
    if a != [] && a[0] == b[0] == c[0] { StringLessTransitive(a[1..], b[1..], c[1..]); }
  }

  /** A missing rank counts as infinite. */
  predicate RankLess(a: Option<nat>, b: Option<nat>) { a.Some? && (b.None? || a.value < b.value) }

  /** Higher score first; ties by sparse rank, then dense rank, then identifier. */
  predicate Before(a: Entry, b: Entry) {
    if a.score != b.score then a.score > b.score
    else if a.sparse != b.sparse then RankLess(a.sparse, b.sparse)
    else if a.dense != b.dense then RankLess(a.dense, b.dense)
    else StringLess(a.docId, b.docId)
  }

  /** The order is total on documents: of two different ones exactly one comes first. */
  lemma BeforeTotal(a: Entry, b: Entry)
    ensures a.docId != b.docId ==> Before(a, b) || Before(b, a)
    ensures !(Before(a, b) && Before(b, a))
  {
    StringLessTotal(a.docId, b.docId);
  }

  lemma BeforeTransitive(a: Entry, b: Entry, c: Entry)
    requires Before(a, b) && Before(b, c)
    ensures Before(a, c)
  {
    if StringLess(a.docId, b.docId) && StringLess(b.docId, c.docId) { StringLessTransitive(a.docId, b.docId, c.docId); }
  }

  predicate Sorted(s: seq<Entry>) {
    forall i, j | 0 <= i < j < |s| :: Before(s[i], s[j])
  }

  /** All fused documents, best first. */
  ghost predicate IsRanking(entries: map<string, Entry>, s: seq<Entry>) {
    Sorted(s) && (forall e :: e in s <==> e.docId in entries && entries[e.docId] == e)
  }

  predicate WellKeyed(entries: map<string, Entry>) {
    forall id | id in entries :: entries[id].docId == id
  }

  method Insert(s: seq<Entry>, e: Entry) returns (r: seq<Entry>)
    requires Sorted(s) && forall x | x in s :: x.docId != e.docId
    ensures Sorted(r) && |r| == |s| + 1 && forall x :: x in r <==> x in s || x == e
  {
    var k := 0;
    while k < |s| && Before(s[k], e)
      invariant k <= |s| && forall i | 0 <= i < k :: Before(s[i], e)
    {
      k := k + 1;
    }
    r := s[..k] + [e] + s[k..];
    if k < |s| { TailAfter(s, k, e); }
    InsertMembers(s, k, e);
  }

  lemma InsertMembers(s: seq<Entry>, k: nat, e: Entry)
    requires k <= |s|
    ensures forall x :: x in s[..k] + [e] + s[k..] <==> x in s || x == e
  {
    assert s == s[..k] + s[k..];
  }

  lemma TailAfter(s: seq<Entry>, k: nat, e: Entry)
    requires Sorted(s) && k < |s| && !Before(s[k], e) && s[k].docId != e.docId
    ensures forall i | k <= i < |s| :: Before(e, s[i])
  {
    BeforeTotal(s[k], e);
    forall i | k <= i < |s| ensures Before(e, s[i]) {
      if i > k { BeforeTransitive(e, s[k], s[i]); }
    }
  }

  /** The first `topk` of a ranking. */
  ghost predicate IsTop(entries: map<string, Entry>, topk: nat, s: seq<Entry>) {
    exists ranked :: IsRanking(entries, ranked) && topk <= |ranked| && s == ranked[..topk]
  }

  /** What that means for a reader: `topk` fused documents, best first, and every other one
      comes after all of them. */
  lemma TopMeans(entries: map<string, Entry>, topk: nat, s: seq<Entry>)
    requires WellKeyed(entries) && IsTop(entries, topk, s)
    ensures |s| == topk && Sorted(s) && forall e | e in s :: e.docId in entries && entries[e.docId] == e
    ensures forall id, e | id in entries && entries[id] !in s && e in s :: Before(e, entries[id])
  {
    var ranked :| IsRanking(entries, ranked) && topk <= |ranked| && s == ranked[..topk];
    forall e | e in s ensures e in ranked {
    }
    forall id, e | id in entries && entries[id] !in s && e in s ensures Before(e, entries[id]) {
      BehindTop(ranked, topk, e, entries[id]);
    }
  }

  lemma BehindTop(ranked: seq<Entry>, topk: nat, e: Entry, other: Entry)
    requires Sorted(ranked) && topk <= |ranked| && e in ranked[..topk] && other in ranked && other !in ranked[..topk]
    ensures Before(e, other)
  {
    assert ranked == ranked[..topk] + ranked[topk..];
    var i :| 0 <= i < |ranked| - topk && ranked[topk..][i] == other;
    var j :| 0 <= j < topk && ranked[..topk][j] == e;
    assert ranked[j] == e && ranked[topk + i] == other;
  }

  /** Fusing two result lists: the best `topk` documents, or None when there are fewer. */
  method Fuse(k: nat, sparse: seq<Hit>, dense: seq<Hit>, topk: nat) returns (r: Option<seq<Entry>>)
    requires Positive(sparse) && Positive(dense)
    ensures r.Some? <==> topk <= |Collect(k, sparse, dense)|
    ensures r.Some? ==> IsTop(Collect(k, sparse, dense), topk, r.value)
  {
    var fused: map<string, Entry> := map[];
    for i := 0 to |sparse|
      invariant fused == CollectSparse(k, sparse[..i])
    {
      assert sparse[..i + 1][..i] == sparse[..i];
      fused := AddSparse(fused, k, sparse[i]);
    }
    assert sparse[..|sparse|] == sparse;
    for i := 0 to |dense|
      invariant fused == Collect(k, sparse, dense[..i])
    {
      assert dense[..i + 1][..i] == dense[..i];
      fused := AddDense(fused, k, dense[i]);
    }
    assert dense[..|dense|] == dense;
    CollectKeyed(k, sparse, dense);
    var ranked := Rank(fused);
    if |ranked| < topk { return None; }
    return Some(ranked[..topk]);
  }

  method Rank(fused: map<string, Entry>) returns (list: seq<Entry>)
    requires WellKeyed(fused)
    ensures IsRanking(fused, list) && |list| == |fused|
  {
    list := [];
    var left := fused.Keys;
    while left != {}
      invariant left <= fused.Keys && Sorted(list) && |list| + |left| == |fused|
      invariant forall e :: e in list <==> e.docId in fused && e.docId !in left && fused[e.docId] == e
      decreases |left|
    {
      var id :| id in left;
      list := Insert(list, fused[id]);
      left := left - {id};
    }
  }

  lemma {:induction false} CollectKeyed(k: nat, sparse: seq<Hit>, dense: seq<Hit>)
    requires Positive(sparse) && Positive(dense)
    ensures WellKeyed(Collect(k, sparse, dense))
    decreases |dense|
  {
    if dense == [] { SparseKeyed(k, sparse); } else { CollectKeyed(k, sparse, dense[..|dense| - 1]); }
  }

  lemma {:induction false} SparseKeyed(k: nat, sparse: seq<Hit>)
    requires Positive(sparse)
    ensures WellKeyed(CollectSparse(k, sparse))
  {
    if sparse != [] { SparseKeyed(k, sparse[..|sparse| - 1]); }
  }

  // -------------------------------------------------------------- what fusion means

  function RankIn(hits: seq<Hit>, id: string): Option<nat> {
    if hits == [] then None
    else if hits[|hits| - 1].docId == id then Some(hits[|hits| - 1].rank)
    else RankIn(hits[..|hits| - 1], id)
  }

  function ShareOf(k: nat, rank: Option<nat>): real
    requires rank.Some? ==> rank.value > 0
  {
    if rank.Some? then Share(k, rank.value) else 0.0
  }

  lemma {:induction false} RankInIs(hits: seq<Hit>, id: string)
    ensures RankIn(hits, id).Some? <==> exists h :: h in hits && h.docId == id
    ensures RankIn(hits, id).Some? ==> Hit(id, RankIn(hits, id).value) in hits
  {
    if hits != [] {
      var last := |hits| - 1;
      RankInIs(hits[..last], id);
      assert hits == hits[..last] + [hits[last]];
      assert hits[last] in hits;
    }
  }

  lemma RankOfHit(hits: seq<Hit>, h: Hit)
    requires UniqueHits(hits) && h in hits
    ensures RankIn(hits, h.docId) == Some(h.rank)
  {
    RankInIs(hits, h.docId);
  }

  /** The entry a document should have: a share for each branch that found it. */
  function Fused(k: nat, sparse: seq<Hit>, dense: seq<Hit>, id: string): Entry
    requires Positive(sparse) && Positive(dense)
  {
    RankInIs(sparse, id);
    RankInIs(dense, id);
    var s, d := RankIn(sparse, id), RankIn(dense, id);
    Entry(id, ShareOf(k, s) + ShareOf(k, d), s, d)
  }

  /** With each document once per branch, fusion holds exactly the documents found by either,
      each with its two ranks and the sum of its shares. */
  lemma {:induction false} CollectIs(k: nat, sparse: seq<Hit>, dense: seq<Hit>, id: string)
    requires Positive(sparse) && Positive(dense) && UniqueHits(sparse) && UniqueHits(dense)
    ensures var fused := Collect(k, sparse, dense);
      && (id in fused <==> RankIn(sparse, id).Some? || RankIn(dense, id).Some?)
      && (id in fused ==> fused[id] == Fused(k, sparse, dense, id))
    decreases |dense|
  {
    if dense == [] {
      CollectSparseIs(k, sparse, id);
    } else {
      var last := |dense| - 1;
      var h := dense[last];
      CollectIs(k, sparse, dense[..last], id);
      RankInIs(dense[..last], id);
    }
  }

  lemma {:induction false} CollectSparseIs(k: nat, sparse: seq<Hit>, id: string)
    requires Positive(sparse) && UniqueHits(sparse)
    ensures var fused := CollectSparse(k, sparse);
      && (id in fused <==> RankIn(sparse, id).Some?)
      && (id in fused ==> fused[id] == Fused(k, sparse, [], id))
  {
    if sparse != [] {
      CollectSparseIs(k, sparse[..|sparse| - 1], id);
      RankInIs(sparse[..|sparse| - 1], id);
    }
  }

  // ------------------------------------------------------------------ main results

  ghost predicate SameHits(a: seq<Hit>, b: seq<Hit>) { forall h :: h in a <==> h in b }

  lemma SameRanks(a: seq<Hit>, b: seq<Hit>, id: string)
    requires UniqueHits(a) && UniqueHits(b) && SameHits(a, b)
    ensures RankIn(a, id) == RankIn(b, id)
  {
    RankInIs(a, id);
    RankInIs(b, id);
    if RankIn(a, id).Some? { RankOfHit(b, Hit(id, RankIn(a, id).value)); }
  }

  /** A ranking is determined by what is ranked. */
  lemma {:induction false} RankingUnique(a: seq<Entry>, b: seq<Entry>)
    requires Sorted(a) && Sorted(b) && forall e :: e in a <==> e in b
    ensures a == b
  {
    if a == [] {
      if b != [] { HasMember(b); }
    } else {
      assert a[0] in a && a[0] in b;
      assert b[0] in b && b[0] in a;
      FirstIsFirst(a, b);
      forall e ensures e in a[1..] <==> e in b[1..] {
        TailMembers(a, e);
        TailMembers(b, e);
      }
      RankingUnique(a[1..], b[1..]);
    }
  }

  lemma HasMember(s: seq<Entry>)
    requires s != []
    ensures exists e :: e in s
  {
    assert s[0] in s;
  }

  lemma FirstIsFirst(a: seq<Entry>, b: seq<Entry>)
    requires Sorted(a) && Sorted(b) && a != [] && b != [] && a[0] in b && b[0] in a
    ensures a[0] == b[0]
  {
    BeforeTotal(a[0], b[0]);
  }

  lemma TailMembers(a: seq<Entry>, e: Entry)
    requires Sorted(a) && a != []
    ensures e in a[1..] <==> e in a && e != a[0]
  {
    BeforeTotal(a[0], a[0]);
    assert a == [a[0]] + a[1..];
  }

  /** The order of the two input lists does not matter: the best documents are the same. */
  lemma FusionIsOrderFree(k: nat, sparse: seq<Hit>, dense: seq<Hit>, sparse': seq<Hit>, dense': seq<Hit>,
                          topk: nat, top: seq<Entry>, top': seq<Entry>)
    requires Positive(sparse) && Positive(dense) && UniqueHits(sparse) && UniqueHits(dense)
    requires Positive(sparse') && Positive(dense') && UniqueHits(sparse') && UniqueHits(dense')
    requires SameHits(sparse, sparse') && SameHits(dense, dense')
    requires IsTop(Collect(k, sparse, dense), topk, top) && IsTop(Collect(k, sparse', dense'), topk, top')
    ensures top == top'
  {
    var ranked :| IsRanking(Collect(k, sparse, dense), ranked) && topk <= |ranked| && top == ranked[..topk];
    var ranked' :| IsRanking(Collect(k, sparse', dense'), ranked') && topk <= |ranked'| && top' == ranked'[..topk];
    forall id ensures RankIn(sparse, id) == RankIn(sparse', id) && RankIn(dense, id) == RankIn(dense', id) {
      SameRanks(sparse, sparse', id);
      SameRanks(dense, dense', id);
    }
    forall e: Entry ensures e in ranked <==> e in ranked' {
      CollectIs(k, sparse, dense, e.docId);
      CollectIs(k, sparse', dense', e.docId);
    }
    RankingUnique(ranked, ranked');
  }

  /** A document with two ranks up to `n` scores more than any document with one rank,
      whatever the ranks, exactly when n < k + 2. */
  ghost predicate TwoBeatOne(k: nat, n: nat) {
    forall a: nat, b: nat, c: nat | 1 <= a <= n && 1 <= b <= n && 1 <= c <= n :: Share(k, a) + Share(k, b) > Share(k, c)
  }

  lemma ShareFalls(k: nat, a: nat, b: nat)
    requires 1 <= a <= b
    ensures Share(k, a) >= Share(k, b) > 0.0
  {
    var x, y := (k + a) as real, (k + b) as real;
    assert 1.0 / x - 1.0 / y == (y - x) / (x * y);
  }

  lemma WorstCase(k: nat, n: nat)
    requires n > 0
    ensures Share(k, n) + Share(k, n) > Share(k, 1) <==> n < k + 2
  {
    var x, y := (k + n) as real, (k + 1) as real;
    assert 1.0 / x + 1.0 / x == 2.0 / x;
    TwoOverOne(x, y);
  }

  lemma TwoOverOne(x: real, y: real)
    requires x > 0.0 && y > 0.0
    ensures 2.0 / x > 1.0 / y <==> x < 2.0 * y
  {
    assert 2.0 / x - 1.0 / y == (2.0 * y - x) / (x * y);
    Sign(2.0 * y - x, x * y);
  }

  lemma Sign(p: real, q: real)
    requires q > 0.0
    ensures p / q > 0.0 <==> p > 0.0
  {
    assert p == (p / q) * q;
  }

  lemma TwoBeatOneIff(k: nat, n: nat)
    requires n > 0
    ensures TwoBeatOne(k, n) <==> n < k + 2
  {
    WorstCase(k, n);
    if n < k + 2 {
      forall a: nat, b: nat, c: nat | 1 <= a <= n && 1 <= b <= n && 1 <= c <= n
        ensures Share(k, a) + Share(k, b) > Share(k, c)
      {
        ShareFalls(k, a, n);
        ShareFalls(k, b, n);
        ShareFalls(k, 1, c);
      }
    } else {
      assert !(Share(k, n) + Share(k, n) > Share(k, 1));
    }
  }

  /** Both branches found `a`, only one found `b`, with distinct documents and ranks up to `n`. */
  predicate BothAgainstOne(n: nat, sparse: seq<Hit>, dense: seq<Hit>, a: string, b: string) {
    && UniqueHits(sparse) && UniqueHits(dense) && RanksWithin(sparse, n) && RanksWithin(dense, n)
    && RankIn(sparse, a).Some? && RankIn(dense, a).Some?
    && RankIn(sparse, b).Some? != RankIn(dense, b).Some?
  }

  predicate FusedBefore(k: nat, sparse: seq<Hit>, dense: seq<Hit>, a: string, b: string)
    requires Positive(sparse) && Positive(dense)
  {
    var fused := Collect(k, sparse, dense);
    a in fused && b in fused && Before(fused[a], fused[b])
  }

  /** With ranks up to n < k + 2 (the code: 20 < 62), a document found by both branches
      comes before every document found by one. */
  lemma BothBeforeOne(k: nat, n: nat, sparse: seq<Hit>, dense: seq<Hit>, a: string, b: string)
    requires BothAgainstOne(n, sparse, dense, a, b) && n < k + 2
    ensures FusedBefore(k, sparse, dense, a, b)
  {
    CollectIs(k, sparse, dense, a);
    CollectIs(k, sparse, dense, b);
    RankInIs(sparse, a);
    RankInIs(dense, a);
    RankInIs(sparse, b);
    RankInIs(dense, b);
    TwoBeatOneIff(k, n);
    var c := if RankIn(sparse, b).Some? then RankIn(sparse, b).value else RankIn(dense, b).value;
    assert Share(k, RankIn(sparse, a).value) + Share(k, RankIn(dense, a).value) > Share(k, c);
  }

  /** From n = k + 2 on a document that one branch ranks first comes before one that both rank
      last: at k + 2 the scores tie, and the sparse rank decides. */
  lemma OneBeforeBoth(k: nat, n: nat)
    requires n >= k + 2
    ensures var sparse, dense := [Hit("b", 1), Hit("a", n)], [Hit("a", n)];
      && BothAgainstOne(n, sparse, dense, "a", "b")
      && FusedBefore(k, sparse, dense, "b", "a") && !FusedBefore(k, sparse, dense, "a", "b")
  {
    var sparse, dense := [Hit("b", 1), Hit("a", n)], [Hit("a", n)];
    RankOfHit(sparse, sparse[0]);
    RankOfHit(sparse, sparse[1]);
    RankOfHit(dense, dense[0]);
    RankInIs(dense, "b");
    CollectIs(k, sparse, dense, "a");
    CollectIs(k, sparse, dense, "b");
    WorstCase(k, n);
  }

  /** MAIN RESULT: a document found by both branches comes before every document found by one,
      in all hit lists with ranks up to `n`, exactly when n < k + 2. */
  lemma BothFirstIff(k: nat, n: nat)
    ensures (forall sparse: seq<Hit>, dense: seq<Hit>, a: string, b: string |
               BothAgainstOne(n, sparse, dense, a, b) :: FusedBefore(k, sparse, dense, a, b))
            <==> n < k + 2
  {
    if n < k + 2 {
      forall sparse: seq<Hit>, dense: seq<Hit>, a: string, b: string | BothAgainstOne(n, sparse, dense, a, b)
        ensures FusedBefore(k, sparse, dense, a, b)
      {
        BothBeforeOne(k, n, sparse, dense, a, b);
      }
    } else {
      OneBeforeBoth(k, n);
    }
  }

  /** At least `topk` distinct sparse hits are enough: the length error cannot fire. */
  lemma EnoughSparseHits(k: nat, sparse: seq<Hit>, dense: seq<Hit>)
    requires Positive(sparse) && Positive(dense) && UniqueHits(sparse) && UniqueHits(dense)
    ensures |Collect(k, sparse, dense)| >= |sparse|
  {
    var ids := set i | 0 <= i < |sparse| :: sparse[i].docId;
    var fused := Collect(k, sparse, dense);
    IdsCount(sparse);
    forall i | 0 <= i < |sparse| ensures sparse[i].docId in fused.Keys {
      RankOfHit(sparse, sparse[i]);
      CollectIs(k, sparse, dense, sparse[i].docId);
    }
    SubsetCount(ids, fused.Keys);
  }

  lemma {:induction false} IdsCount(hits: seq<Hit>)
    requires UniqueHits(hits)
    ensures |set i | 0 <= i < |hits| :: hits[i].docId| == |hits|
  {
    if hits != [] {
      var last := |hits| - 1;
      IdsCount(hits[..last]);
      assert (set i | 0 <= i < |hits| :: hits[i].docId)
          == (set i | 0 <= i < last :: hits[..last][i].docId) + {hits[last].docId};
    }
  }
}
