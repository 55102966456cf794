/** The prompt sampler: an endless stream of dataset indices, one fresh permutation of the
    whole dataset per epoch, handed out in pieces of any size. */
module PromptSampler {
  import opened Outcome
  import opened Sequences

  datatype SamplerError =
    | NonPositiveSize
    | CursorOutsideDataset
    | NonPositiveCount
    | PermutationChanged

  /** The shuffle of one generator seed; numpy's generator is any function of seed and size. */
  type Shuffle = (int, nat) -> seq<nat>

  ghost predicate IsPermutation(p: seq<nat>, n: nat) {
    && |p| == n
    && (forall i | 0 <= i < n :: p[i] < n)
    && (forall i, j | 0 <= i < j < n :: p[i] != p[j])
  }

  ghost predicate Shuffles(shuffle: Shuffle) {
    forall seed: int, n: nat :: IsPermutation(shuffle(seed, n), n)
  }

  /** Element `k` of the endless stream of epochs 0, 1, 2, ...: entry k mod n of the
      permutation drawn for epoch k / n. */
  ghost function Stream(shuffle: Shuffle, seed: int, n: nat, k: nat): nat
    requires Shuffles(shuffle) && n > 0
  {
    shuffle(seed + k / n, n)[k % n]
  }

  /** Digests of permutations; a hash is modelled as injective. */
  datatype Digest = Digest(permutation: seq<nat>)

  datatype CursorState = CursorState(epoch: nat, cursor: nat, size: nat, seed: int, digest: Digest)

  /** This process draws, for the saved epoch, the permutation the saved digest names. */
  predicate Restorable(shuffle: Shuffle, saved: CursorState) {
    && 0 < saved.size && saved.cursor <= saved.size
    && Digest(shuffle(saved.seed + saved.epoch, saved.size)) == saved.digest
  }

  class Sampler {
    const shuffle: Shuffle
    const size: nat
    const seed: int
    var epoch: nat
    var cursor: nat
    var permutation: seq<nat>

    ghost predicate Valid()
      reads this
    {
      && Shuffles(shuffle) && size > 0 && cursor <= size
      && permutation == shuffle(seed + epoch, size)
    }

    /** How much of the stream has been handed out. */
    ghost function Position(): nat
      reads this
    {
      epoch * size + cursor
    }

    constructor (shuffle: Shuffle, size: nat, seed: int, epoch: nat, cursor: nat)
      requires Shuffles(shuffle) && size > 0 && cursor <= size
      ensures Valid() && this.shuffle == shuffle && this.size == size && this.seed == seed
      ensures this.epoch == epoch && this.cursor == cursor
    {
      this.shuffle, this.size, this.seed := shuffle, size, seed;
      this.epoch, this.cursor := epoch, cursor;
      this.permutation := shuffle(seed + epoch, size);
    }

    static method Create(shuffle: Shuffle, size: int, seed: int, epoch: nat, cursor: int)
      returns (r: Result<Sampler, SamplerError>)
      requires Shuffles(shuffle)
      ensures r.Ok? <==> size > 0 && 0 <= cursor <= size
      ensures r.Err? ==> r.error == if size <= 0 then NonPositiveSize else CursorOutsideDataset
      ensures r.Ok? ==> fresh(r.value) && r.value.Valid() && r.value.shuffle == shuffle
      ensures r.Ok? ==> (r.value.size, r.value.seed, r.value.epoch, r.value.cursor) == (size, seed, epoch, cursor)
    {
      if size <= 0 { return Err(NonPositiveSize); }
      if !(0 <= cursor <= size) { return Err(CursorOutsideDataset); }
      var s := new Sampler(shuffle, size, seed, epoch, cursor);
      return Ok(s);
    }

    method Allocate(count: int) returns (r: Result<seq<nat>, SamplerError>)
      requires Valid()
      modifies this`epoch, this`cursor, this`permutation
      ensures Valid()
      ensures r.Err? <==> count <= 0
      ensures r.Err? ==> r.error == NonPositiveCount && epoch == old(epoch) && cursor == old(cursor)
      ensures r.Ok? ==> r.value == Segment(shuffle, seed, size, old(Position()), count)
      ensures r.Ok? ==> (epoch, cursor) == Resting(old(Position()) + count, size)
    {
      if count <= 0 { return Err(NonPositiveCount); }
      var drawn: seq<nat> := [];
      while |drawn| < count
        invariant Valid() && |drawn| <= count
        invariant Position() == old(Position()) + |drawn|
        invariant drawn == Segment(shuffle, seed, size, old(Position()), |drawn|)
        invariant cursor == size ==> |drawn| == count || (epoch == old(epoch) && drawn == [])
        invariant |drawn| == count ==> cursor > 0
        decreases count - |drawn|, if cursor == size then 1 else 0
      {
        var remaining := size - cursor;
        var take := if count - |drawn| < remaining then count - |drawn| else remaining;
        Extend(shuffle, seed, size, old(Position()), drawn, epoch, cursor, take);
        drawn := drawn + permutation[cursor..cursor + take];
        cursor := cursor + take;
        if cursor == size && |drawn| < count { NextEpoch(); }
      }
      RestingUnique(epoch, cursor, size);
      return Ok(drawn);
    }

    /** The start of the next epoch is the end of this one. */
    method NextEpoch()
      requires Valid() && cursor == size
      modifies this`epoch, this`cursor, this`permutation
      ensures Valid() && epoch == old(epoch) + 1 && cursor == 0 && Position() == old(Position())
    {
      NextMultiple(epoch, size);
      epoch := epoch + 1;
      cursor := 0;
      permutation := shuffle(seed + epoch, size);
    }

    method State() returns (s: CursorState)
      requires Valid()
      ensures s == CursorState(epoch, cursor, size, seed, Digest(permutation))
      ensures Restorable(shuffle, s)
    {
      return CursorState(epoch, cursor, size, seed, Digest(permutation));
    }

    /** Resuming from a saved state succeeds exactly when this process draws the same
        permutation for the saved epoch, and then continues the saved stream position. */
    static method Restore(shuffle: Shuffle, saved: CursorState) returns (r: Result<Sampler, SamplerError>)
      requires Shuffles(shuffle)
      ensures r.Ok? <==> Restorable(shuffle, saved)
      ensures r.Ok? ==> fresh(r.value) && r.value.Valid() && r.value.shuffle == shuffle
      ensures r.Ok? ==> CursorState(r.value.epoch, r.value.cursor, r.value.size, r.value.seed,
                                    Digest(r.value.permutation)) == saved
    {
      var created := Create(shuffle, saved.size, saved.seed, saved.epoch, saved.cursor);
      if created.Err? { return created; }
      if Digest(created.value.permutation) != saved.digest { return Err(PermutationChanged); }
      return created;
    }
  }

  /** `count` consecutive elements of the stream. */
  ghost function Segment(shuffle: Shuffle, seed: int, n: nat, from: nat, count: nat): (r: seq<nat>)
    requires Shuffles(shuffle) && n > 0
    ensures |r| == count
  {
    seq<nat>(count, k requires k >= 0 => Stream(shuffle, seed, n, from + k))
  }

  /** Epoch and cursor in which a sampler rests after handing out `position` > 0 elements:
      at an epoch's end it keeps the finished epoch rather than opening the next. */
  function Resting(position: nat, n: nat): (nat, nat)
    requires n > 0 && position > 0
  {
    ((position - 1) / n, (position - 1) % n + 1)
  }

  lemma NextMultiple(a: nat, n: nat)
    ensures (a + 1) * n == a * n + n
  {
  }

  lemma {:induction false} MultipleMonotone(a: nat, b: nat, n: nat)
    requires a < b
    ensures a * n + n <= b * n
    decreases b
  {
    NextMultiple(b - 1, n);
    if a < b - 1 { MultipleMonotone(a, b - 1, n); }
  }

  lemma QuotientUnique(a: nat, n: nat, b: nat, q: nat, r: nat)
    requires b < n && r < n && a * n + b == q * n + r
    ensures a == q && b == r
  {
    if a < q { MultipleMonotone(a, q, n); } else if q < a { MultipleMonotone(q, a, n); }
  }

  lemma DivMod(a: nat, n: nat, b: nat)
    requires b < n
    ensures a * n + b >= 0 && (a * n + b) / n == a && (a * n + b) % n == b
  {
    var k := a * n + b;
    var q, r := k / n, k % n;
    assert k == q * n + r;
    QuotientUnique(a, n, b, q, r);
  }

  lemma RestingUnique(epoch: nat, cursor: nat, n: nat)
    requires 0 < cursor <= n
    ensures epoch * n + cursor > 0 && Resting(epoch * n + cursor, n) == (epoch, cursor)
  {
    DivMod(epoch, n, cursor - 1);
  }

  lemma StreamWithin(shuffle: Shuffle, seed: int, n: nat, epoch: nat, k: nat)
    requires Shuffles(shuffle) && k < n
    ensures epoch * n + k >= 0
    ensures Stream(shuffle, seed, n, epoch * n + k) == shuffle(seed + epoch, n)[k]
  {
    DivMod(epoch, n, k);
  }

  lemma SliceOfEpoch(shuffle: Shuffle, seed: int, n: nat, epoch: nat, cursor: nat, take: nat)
    requires Shuffles(shuffle) && n > 0 && cursor + take <= n
    ensures epoch * n + cursor >= 0
    ensures shuffle(seed + epoch, n)[cursor..cursor + take] == Segment(shuffle, seed, n, epoch * n + cursor, take)
  {
    var from := epoch * n + cursor;
    var slice, stretch := shuffle(seed + epoch, n)[cursor..cursor + take], Segment(shuffle, seed, n, from, take);
    forall k | 0 <= k < take ensures slice[k] == stretch[k] {
      StreamWithin(shuffle, seed, n, epoch, cursor + k);
      assert from + k == epoch * n + (cursor + k);
    }
  }

  lemma SegmentAppend(shuffle: Shuffle, seed: int, n: nat, from: nat, a: nat, b: nat)
    requires Shuffles(shuffle) && n > 0
    ensures Segment(shuffle, seed, n, from, a + b)
         == Segment(shuffle, seed, n, from, a) + Segment(shuffle, seed, n, from + a, b)
  {
  }

  /** Appending a slice of the current permutation continues the stream. */
  lemma Extend(shuffle: Shuffle, seed: int, n: nat, from: nat, drawn: seq<nat>, epoch: nat, cursor: nat, take: nat)
    requires Shuffles(shuffle) && n > 0 && cursor + take <= n
    requires drawn == Segment(shuffle, seed, n, from, |drawn|) && epoch * n + cursor == from + |drawn|
    ensures |shuffle(seed + epoch, n)| == n
    ensures drawn + shuffle(seed + epoch, n)[cursor..cursor + take] == Segment(shuffle, seed, n, from, |drawn| + take)
  {
    SliceOfEpoch(shuffle, seed, n, epoch, cursor, take);
    SegmentAppend(shuffle, seed, n, from, |drawn|, take);
  }

  /** What one draw returns and the cursor it leaves, as a function of the stream position. */
  ghost function Draw(shuffle: Shuffle, seed: int, n: nat, position: nat, count: nat): (seq<nat>, (nat, nat))
    requires Shuffles(shuffle) && n > 0 && count > 0
  {
    (Segment(shuffle, seed, n, position, count), Resting(position + count, n))
  }

  /** Drawing a and then b, from the state the first draw leaves, is drawing a + b at once:
      same elements, same final epoch and cursor. */
  lemma DrawsCompose(shuffle: Shuffle, seed: int, n: nat, position: nat, a: nat, b: nat)
    requires Shuffles(shuffle) && n > 0 && a > 0 && b > 0
    ensures var (first, (epoch, cursor)) := Draw(shuffle, seed, n, position, a);
            var (second, rest) := Draw(shuffle, seed, n, epoch * n + cursor, b);
            (first + second, rest) == Draw(shuffle, seed, n, position, a + b)
  {
    SegmentAppend(shuffle, seed, n, position, a, b);
  }

  // ----------------------------------------------------------------- fairness

  function Count(v: nat, s: seq<nat>): nat {
    if s == [] then 0 else Count(v, s[..|s| - 1]) + if s[|s| - 1] == v then 1 else 0
  }

  lemma {:induction false} CountAppend(v: nat, a: seq<nat>, b: seq<nat>)
    ensures Count(v, a + b) == Count(v, a) + Count(v, b)
    decreases |b|
  {
    if b == [] {
      assert a + b == a;
    } else {
      assert (a + b)[..|a + b| - 1] == a + b[..|b| - 1];
      CountAppend(v, a, b[..|b| - 1]);
    }
  }

  lemma {:induction false} CountDistinct(v: nat, s: seq<nat>)
    requires forall i, j | 0 <= i < j < |s| :: s[i] != s[j]
    ensures Count(v, s) == if v in s then 1 else 0
  {
    if s != [] {
      CountDistinct(v, s[..|s| - 1]);
      assert v in s <==> v in s[..|s| - 1] || v == s[|s| - 1];
    }
  }

  /** A permutation of n indices contains every index below n. */
  lemma {:induction false} PermutationCovers(p: seq<nat>, n: nat, v: nat)
    requires IsPermutation(p, n) && v < n
    ensures v in p
  {
    if v !in p {
      var image := set i | 0 <= i < n :: p[i];
      ImageSize(p, n);
      assert image <= Below(n) - {v};
      SubsetCount(image, Below(n) - {v});
    }
  }

  lemma {:induction false} ImageSize(p: seq<nat>, m: nat)
    requires m <= |p| && forall i, j | 0 <= i < j < |p| :: p[i] != p[j]
    ensures |set i | 0 <= i < m :: p[i]| == m
  {
    if m > 0 {
      ImageSize(p, m - 1);
      var smaller := set i | 0 <= i < m - 1 :: p[i];
      assert (set i | 0 <= i < m :: p[i]) == smaller + {p[m - 1]};
    }
  }

  function Below(n: nat): (r: set<nat>)
    ensures |r| == n && forall x: nat :: x in r <==> x < n
  {
    if n == 0 then {} else Below(n - 1) + {n - 1}
  }

  lemma {:induction false} CountInFullEpochs(shuffle: Shuffle, seed: int, n: nat, epochs: nat, v: nat)
    requires Shuffles(shuffle) && n > 0 && v < n
    ensures epochs * n >= 0 && Count(v, Segment(shuffle, seed, n, 0, epochs * n)) == epochs
    decreases epochs
  {
    if epochs > 0 {
      NextMultiple(epochs - 1, n);
      CountInFullEpochs(shuffle, seed, n, epochs - 1, v);
      OneEpoch(shuffle, seed, n, epochs - 1, (epochs - 1) * n, v);
    }
  }

  /** One more epoch hands every index out once more. */
  lemma OneEpoch(shuffle: Shuffle, seed: int, n: nat, epoch: nat, done: nat, v: nat)
    requires Shuffles(shuffle) && n > 0 && v < n && done == epoch * n
    ensures Count(v, Segment(shuffle, seed, n, 0, done + n)) == Count(v, Segment(shuffle, seed, n, 0, done)) + 1
  {
    var last := shuffle(seed + epoch, n);
    SegmentAppend(shuffle, seed, n, 0, done, n);
    SliceOfEpoch(shuffle, seed, n, epoch, 0, n);
    assert last[0..0 + n] == last;
    CountAppend(v, Segment(shuffle, seed, n, 0, done), last);
    CountDistinct(v, last);
    PermutationCovers(last, n, v);
  }

  /** After any number of draws from a fresh start, index `v` has been handed out once per
      finished epoch, plus once more if the current epoch has already reached it. */
  lemma CountInStream(shuffle: Shuffle, seed: int, n: nat, total: nat, v: nat)
    requires Shuffles(shuffle) && n > 0 && v < n
    ensures Count(v, Segment(shuffle, seed, n, 0, total))
         == total / n + if v in shuffle(seed + total / n, n)[..total % n] then 1 else 0
  {
    var epochs, rest, full := Divided(total, n);
    CountSoFar(shuffle, seed, n, epochs, rest, full, v);
  }

  lemma Divided(total: nat, n: nat) returns (epochs: nat, rest: nat, full: nat)
    requires n > 0
    ensures epochs == total / n && rest == total % n < n && full == epochs * n && total == full + rest
  {
    epochs, rest := total / n, total % n;
    full := epochs * n;
  }

  lemma CountSoFar(shuffle: Shuffle, seed: int, n: nat, epochs: nat, rest: nat, full: nat, v: nat)
    requires Shuffles(shuffle) && v < n && rest < n && full == epochs * n
    ensures Count(v, Segment(shuffle, seed, n, 0, full + rest))
         == epochs + if v in shuffle(seed + epochs, n)[..rest] then 1 else 0
  {
    var reached := shuffle(seed + epochs, n)[0..0 + rest];
    CountInFullEpochs(shuffle, seed, n, epochs, v);
    SegmentAppend(shuffle, seed, n, 0, full, rest);
    SliceOfEpoch(shuffle, seed, n, epochs, 0, rest);
    CountAppend(v, Segment(shuffle, seed, n, 0, full), reached);
    CountDistinct(v, reached);
    assert reached == shuffle(seed + epochs, n)[..rest];
  }

  /** At every moment of a run from a fresh start, no index is ahead of another by more than one. */
  lemma Fairness(shuffle: Shuffle, seed: int, n: nat, total: nat, v: nat, w: nat)
    requires Shuffles(shuffle) && n > 0 && v < n && w < n
    ensures -1 <= Count(v, Segment(shuffle, seed, n, 0, total)) - Count(w, Segment(shuffle, seed, n, 0, total)) <= 1
  {
    CountInStream(shuffle, seed, n, total, v);
    CountInStream(shuffle, seed, n, total, w);
  }
}
