/** Packed Exact-IG scoring: one forward pass over the trajectory followed by one target
    copy per prefix, under a structural attention mask.

    A transformer is any list of layers, each any function of a token's own state and of
    the ordered list of states it may attend to.  The reference is the sequential oracle,
    which runs every prefix on its own under the ordinary causal mask. */
module PackedScoring {
  import opened Outcome
  import opened Sequences

  datatype MaskError =
    | LengthsMisaligned
    | EmptyTrajectory
    | EndpointOutOfRange
    | EmptyTarget
    | KeyShapeMismatch
    | KeysNotBinary
    | NegativePosition
    | NonPositiveLimit
    | PositionLimitExceeded
    | AnswerOpensCopy

  // ---------------------------------------------------------------- the model

  /** The states a query sees, in sequence order. */
  function Gather<S>(row: seq<bool>, states: seq<S>): seq<S>
    requires |row| == |states|
  {
    if states == [] then []
    else
      var last := |states| - 1;
      Gather(row[..last], states[..last]) + if row[last] then [states[last]] else []
  }

  ghost predicate Square(mask: seq<seq<bool>>, n: nat) {
    |mask| == n && forall q | 0 <= q < n :: |mask[q]| == n
  }

  function ApplyLayer<S>(layer: (S, seq<S>) -> S, mask: seq<seq<bool>>, states: seq<S>): (r: seq<S>)
    requires |mask| == |states| && forall q | 0 <= q < |mask| :: |mask[q]| == |states|
  {
    seq(|states|, q requires 0 <= q < |states| => layer(states[q], Gather(mask[q], states)))
  }

  function Forward<S>(layers: seq<(S, seq<S>) -> S>, mask: seq<seq<bool>>, states: seq<S>): (r: seq<S>)
    requires |mask| == |states| && forall q | 0 <= q < |mask| :: |mask[q]| == |states|
    ensures |r| == |states|
  {
    if layers == [] then states
    else Forward(layers[1..], mask, ApplyLayer(layers[0], mask, states))
  }

  // ------------------------------------------- running inside a larger sequence

  ghost predicate Increasing(g: seq<nat>, bound: nat) {
    && (forall i | 0 <= i < |g| :: g[i] < bound)
    && (forall i, j | 0 <= i < j < |g| :: g[i] < g[j])
  }

  /** `g` places a small sequence inside a big one so that the two masks agree on the
      image and no placed query sees anything outside it. */
  ghost predicate Embeds(g: seq<nat>, small: seq<seq<bool>>, big: seq<seq<bool>>) {
    && Square(small, |g|) && Square(big, |big|) && Increasing(g, |big|)
    && (forall i, k | 0 <= i < |g| && 0 <= k < |g| :: small[i][k] == big[g[i]][g[k]])
    && (forall i, k | 0 <= i < |g| && 0 <= k < |big| :: big[g[i]][k] ==> k in g)
  }

  lemma {:induction false} GatherThroughEmbedding<S>(
      g: seq<nat>, smallRow: seq<bool>, small: seq<S>, bigRow: seq<bool>, big: seq<S>)
    requires |g| == |smallRow| == |small| && |bigRow| == |big| && Increasing(g, |big|)
    requires forall i | 0 <= i < |g| :: smallRow[i] == bigRow[g[i]] && small[i] == big[g[i]]
    requires forall k | 0 <= k < |big| :: bigRow[k] ==> k in g
    ensures Gather(smallRow, small) == Gather(bigRow, big)
    decreases |big|
  {
    if big == [] {
    } else {
      var last, m := |big| - 1, |g|;
      if m > 0 && g[m - 1] == last {
        WithoutLast(g, bigRow, g[..m - 1], bigRow[..last]);
        GatherThroughEmbedding(g[..m - 1], smallRow[..m - 1], small[..m - 1], bigRow[..last], big[..last]);
      } else {
        LastNotPlaced(g, last);
        GatherThroughEmbedding(g, smallRow, small, bigRow[..last], big[..last]);
      }
    }
  }

  lemma WithoutLast(g: seq<nat>, bigRow: seq<bool>, front: seq<nat>, frontRow: seq<bool>)
    requires bigRow != [] && g != [] && Increasing(g, |bigRow|) && g[|g| - 1] == |bigRow| - 1
    requires forall k | 0 <= k < |bigRow| :: bigRow[k] ==> k in g
    requires front == g[..|g| - 1] && frontRow == bigRow[..|bigRow| - 1]
    ensures forall k | 0 <= k < |frontRow| :: frontRow[k] ==> k in front
    ensures Increasing(front, |frontRow|)
  {
    assert g == front + [g[|g| - 1]];
    forall k | 0 <= k < |frontRow| && frontRow[k] ensures k in front {
      assert bigRow[k] && k in g;
    }
  }

  lemma LastNotPlaced(g: seq<nat>, last: nat)
    requires Increasing(g, last + 1) && (g == [] || g[|g| - 1] != last)
    ensures last !in g && Increasing(g, last)
  {
    forall i | 0 <= i < |g| ensures g[i] < last {
      assert i < |g| - 1 ==> g[i] < g[|g| - 1];
    }
  }

  /** Running the big sequence computes, at every placed index, exactly what running the
      small sequence alone computes there: any number of layers, any layer functions. */
  lemma {:induction false} ForwardThroughEmbedding<S>(
      layers: seq<(S, seq<S>) -> S>, g: seq<nat>,
      smallMask: seq<seq<bool>>, small: seq<S>, bigMask: seq<seq<bool>>, big: seq<S>)
    requires Embeds(g, smallMask, bigMask) && |small| == |g| && |big| == |bigMask|
    requires forall i | 0 <= i < |g| :: small[i] == big[g[i]]
    ensures forall i | 0 <= i < |g| ::
              Forward(layers, smallMask, small)[i] == Forward(layers, bigMask, big)[g[i]]
    decreases |layers|
  {
    if layers == [] {
    } else {
      var small', big' := ApplyLayer(layers[0], smallMask, small), ApplyLayer(layers[0], bigMask, big);
      forall i | 0 <= i < |g| ensures small'[i] == big'[g[i]] {
        GatherThroughEmbedding(g, smallMask[i], small, bigMask[g[i]], big);
      }
      ForwardThroughEmbedding(layers[1..], g, smallMask, small', bigMask, big');
    }
  }

  // --------------------------------------------------------- the packed layout

  /** First index of target copy `s`; `Start(count, lengths, |lengths|)` is the packed length. */
  function Start(count: int, lengths: seq<int>, s: nat): int
    requires s <= |lengths|
    decreases s
  {
    if s == 0 then count else Start(count, lengths, s - 1) + lengths[s - 1]
  }

  ghost predicate Layout(count: int, ends: seq<int>, lengths: seq<int>, keys: seq<int>) {
    && count > 0 && |ends| == |lengths| && |keys| == count
    && (forall s | 0 <= s < |ends| :: 0 < ends[s] <= count)
    && (forall s | 0 <= s < |lengths| :: lengths[s] > 0)
    && (forall k | 0 <= k < |keys| :: keys[k] == 0 || keys[k] == 1)
  }

  lemma {:induction false} StartMonotone(count: int, lengths: seq<int>, s: nat, t: nat)
    requires s <= t <= |lengths| && forall i | 0 <= i < |lengths| :: lengths[i] > 0
    ensures Start(count, lengths, s) <= Start(count, lengths, t)
    ensures s < t ==> Start(count, lengths, s) + lengths[s] <= Start(count, lengths, t)
    decreases t
  {
    if s < t { StartMonotone(count, lengths, s, t - 1); }
  }

  /** Query `q` is a token of copy `s`, and that copy's prefix and causal order admit key `k`. */
  ghost predicate SeenFromCopy(count: int, ends: seq<int>, lengths: seq<int>, keys: seq<int>, s: nat, q: int, k: int)
    requires |ends| == |lengths|
  {
    && s < |lengths|
    && Start(count, lengths, s) <= q < Start(count, lengths, s + 1)
    && ((0 <= k < ends[s] && k < |keys| && keys[k] == 1) || Start(count, lengths, s) <= k <= q)
  }

  /** What the structural mask allows: an original token sees the unpadded original tokens
      up to itself; a copy's token sees the unpadded tokens of its own prefix and the
      copy's tokens up to itself; nothing else is visible. */
  ghost predicate Visible(count: int, ends: seq<int>, lengths: seq<int>, keys: seq<int>, q: int, k: int)
    requires |ends| == |lengths|
  {
    if q < count then 0 <= k <= q && k < |keys| && keys[k] == 1
    else exists s: nat :: SeenFromCopy(count, ends, lengths, keys, s, q, k)
  }

  lemma VisibleFromCopy(count: int, ends: seq<int>, lengths: seq<int>, keys: seq<int>, s: nat, q: int, k: int)
    requires Layout(count, ends, lengths, keys) && s < |lengths|
    requires Start(count, lengths, s) <= q < Start(count, lengths, s + 1)
    ensures Visible(count, ends, lengths, keys, q, k) <==>
              (0 <= k < ends[s] && keys[k] == 1) || Start(count, lengths, s) <= k <= q
  {
    StartMonotone(count, lengths, 0, s);
    if t: nat :| t != s && SeenFromCopy(count, ends, lengths, keys, t, q, k) {
      if t < s { StartMonotone(count, lengths, t + 1, s); } else { StartMonotone(count, lengths, s + 1, t); }
    }
    if (0 <= k < ends[s] && keys[k] == 1) || Start(count, lengths, s) <= k <= q {
      assert SeenFromCopy(count, ends, lengths, keys, s, q, k);
    }
  }

  ghost function PackedMask(count: int, ends: seq<int>, lengths: seq<int>, keys: seq<int>): (r: seq<seq<bool>>)
    requires |ends| == |lengths| && Start(count, lengths, |lengths|) >= 0
    ensures Square(r, Start(count, lengths, |lengths|))
  {
    var n := Start(count, lengths, |lengths|);
    seq(n, q requires 0 <= q < n =>
      seq(n, k requires 0 <= k < n => Visible(count, ends, lengths, keys, q, k)))
  }

  /** Error conditions of the mask builder, in the order the source tests them. */
  function LayoutError(count: int, ends: seq<int>, lengths: seq<int>, keys: seq<int>): (r: Option<MaskError>)
    ensures r == None <==> Layout(count, ends, lengths, keys)
  {
    if |ends| != |lengths| then Some(LengthsMisaligned)
    else if count <= 0 then Some(EmptyTrajectory)
    else if exists s | 0 <= s < |ends| :: ends[s] <= 0 || ends[s] > count then Some(EndpointOutOfRange)
    else if exists s | 0 <= s < |lengths| :: lengths[s] <= 0 then Some(EmptyTarget)
    else if |keys| != count then Some(KeyShapeMismatch)
    else if exists k | 0 <= k < |keys| :: keys[k] != 0 && keys[k] != 1 then Some(KeysNotBinary)
    else None
  }

  function Rows(mask: array2<bool>): (r: seq<seq<bool>>)
    reads mask
    ensures |r| == mask.Length0 && forall q | 0 <= q < |r| :: |r[q]| == mask.Length1
    ensures forall q, k | 0 <= q < mask.Length0 && 0 <= k < mask.Length1 :: r[q][k] == mask[q, k]
  {
    seq(mask.Length0, q requires 0 <= q < mask.Length0 reads mask =>
      seq(mask.Length1, k requires 0 <= k < mask.Length1 reads mask => mask[q, k]))
  }

  method BuildStructuralMask(count: int, ends: seq<int>, lengths: seq<int>, keys: seq<int>)
    returns (r: Result<array2<bool>, MaskError>)
    ensures r.Err? <==> !Layout(count, ends, lengths, keys)
    ensures r.Err? ==> Some(r.error) == LayoutError(count, ends, lengths, keys)
    ensures r.Ok? ==>
      Start(count, lengths, |lengths|) >= 0 && Rows(r.value) == PackedMask(count, ends, lengths, keys)
  {
    var e := LayoutError(count, ends, lengths, keys);
    if e.Some? { return Err(e.value); }
    var total := Start(count, lengths, |lengths|);
    StartMonotone(count, lengths, 0, |lengths|);
    var mask := new bool[total, total]((q, k) => false);
    for q := 0 to count
      invariant forall i, k | 0 <= i < q && 0 <= k < total :: mask[i, k] == Visible(count, ends, lengths, keys, i, k)
      invariant forall i, k | q <= i < total && 0 <= k < total :: !mask[i, k]
    {
      for k := 0 to q + 1
        invariant forall i, j | 0 <= i < q && 0 <= j < total :: mask[i, j] == Visible(count, ends, lengths, keys, i, j)
        invariant forall i, j | q < i < total && 0 <= j < total :: !mask[i, j]
        invariant forall j | 0 <= j < total :: mask[q, j] == (j < k && keys[j] == 1)
      {
        mask[q, k] := keys[k] == 1;
      }
    }
    var segmentStart := count;
    for s := 0 to |lengths|
      invariant segmentStart == Start(count, lengths, s) && count <= segmentStart <= total
      invariant forall i, k | 0 <= i < segmentStart && 0 <= k < total ::
        mask[i, k] == Visible(count, ends, lengths, keys, i, k)
      invariant forall i, k | segmentStart <= i < total && 0 <= k < total :: !mask[i, k]
    {
      var segmentEnd := segmentStart + lengths[s];
      assert segmentEnd == Start(count, lengths, s + 1);
      StartMonotone(count, lengths, s + 1, |lengths|);
      for q := segmentStart to segmentEnd
        invariant forall i, k | 0 <= i < q && 0 <= k < total :: mask[i, k] == Visible(count, ends, lengths, keys, i, k)
        invariant forall i, k | q <= i < total && 0 <= k < total :: !mask[i, k]
      {
        FillCopyRow(mask, q, ends[s], segmentStart, keys);
        forall k | 0 <= k < total ensures mask[q, k] == Visible(count, ends, lengths, keys, q, k) {
          VisibleFromCopy(count, ends, lengths, keys, s, q, k);
        }
      }
      segmentStart := segmentEnd;
    }
    assert Rows(mask) == PackedMask(count, ends, lengths, keys) by {
      forall q | 0 <= q < total ensures Rows(mask)[q] == PackedMask(count, ends, lengths, keys)[q] {
        assert forall k | 0 <= k < total :: Rows(mask)[q][k] == PackedMask(count, ends, lengths, keys)[q][k];
      }
    }
    return Ok(mask);
  }

  /** One row of a target copy: the prefix keys, then the copy up to the query itself. */
  method FillCopyRow(mask: array2<bool>, q: int, end: int, start: int, keys: seq<int>)
    requires 0 <= end <= |keys| <= start <= q < mask.Length0 == mask.Length1
    requires forall k | 0 <= k < mask.Length1 :: !mask[q, k]
    modifies mask
    ensures forall k | 0 <= k < mask.Length1 :: mask[q, k] == ((k < end && keys[k] == 1) || start <= k <= q)
    ensures forall i, k | 0 <= i < mask.Length0 && 0 <= k < mask.Length1 && i != q :: mask[i, k] == old(mask[i, k])
  {
    forall k | 0 <= k < end { mask[q, k] := keys[k] == 1; }
    forall k | start <= k < q + 1 { mask[q, k] := true; }
  }

  // ------------------------------------------------------- logical positions

  /** Consecutive positions first, first + 1, ... of a target of the given length. */
  function Arange(first: int, length: nat): (r: seq<int>)
    ensures |r| == length && forall j | 0 <= j < length :: r[j] == first + j
  {
    seq(length, j => first + j)
  }

  function PackedPositions(original: seq<int>, ends: seq<int>, lengths: seq<int>): seq<int>
    requires |ends| == |lengths|
    requires forall s | 0 <= s < |ends| :: 0 < ends[s] <= |original| && lengths[s] > 0
    decreases |ends|
  {
    if ends == [] then original
    else
      var last := |ends| - 1;
      PackedPositions(original, ends[..last], lengths[..last])
      + Arange(original[ends[last] - 1] + 1, lengths[last])
  }

  ghost predicate PositionsFit(original: seq<int>, ends: seq<int>, lengths: seq<int>, limit: int) {
    && original != [] && |ends| == |lengths| && limit > 0
    && (forall i | 0 <= i < |original| :: 0 <= original[i] < limit)
    && TargetsFit(original, ends, lengths, limit)
  }

  ghost predicate TargetsFit(original: seq<int>, ends: seq<int>, lengths: seq<int>, limit: int) {
    |ends| == |lengths| && forall s | 0 <= s < |ends| :: TargetFits(original, ends[s], lengths[s], limit)
  }

  ghost predicate TargetFits(original: seq<int>, end: int, length: int, limit: int) {
    0 < end <= |original| && length > 0 && original[end - 1] + 1 + length <= limit
  }

  lemma OneMoreTarget(original: seq<int>, ends: seq<int>, lengths: seq<int>, limit: int, s: nat)
    requires s < |ends| == |lengths| && TargetsFit(original, ends[..s], lengths[..s], limit)
    requires TargetFits(original, ends[s], lengths[s], limit)
    ensures TargetsFit(original, ends[..s + 1], lengths[..s + 1], limit)
    ensures PackedPositions(original, ends[..s + 1], lengths[..s + 1])
            == PackedPositions(original, ends[..s], lengths[..s]) + Arange(original[ends[s] - 1] + 1, lengths[s])
  {
    var es, ls := ends[..s + 1], lengths[..s + 1];
    assert es == ends[..s] + [ends[s]] && ls == lengths[..s] + [lengths[s]];
    forall t | 0 <= t < |es| ensures TargetFits(original, es[t], ls[t], limit) {
      if t < s { assert TargetFits(original, ends[..s][t], lengths[..s][t], limit); }
    }
  }

  method BuildLogicalPositions(original: seq<int>, ends: seq<int>, lengths: seq<int>, limit: int)
    returns (r: Result<seq<int>, MaskError>)
    ensures r.Ok? <==> PositionsFit(original, ends, lengths, limit)
    ensures r.Ok? ==> r.value == PackedPositions(original, ends, lengths)
    ensures r.Ok? ==> forall i | 0 <= i < |r.value| :: 0 <= r.value[i] < limit
  {
    if original == [] { return Err(EmptyTrajectory); }
    if |ends| != |lengths| { return Err(LengthsMisaligned); }
    if limit <= 0 { return Err(NonPositiveLimit); }
    if exists i | 0 <= i < |original| :: original[i] < 0 { return Err(NegativePosition); }
    var segments := original;
    for s := 0 to |ends|
      invariant TargetsFit(original, ends[..s], lengths[..s], limit)
      invariant segments == PackedPositions(original, ends[..s], lengths[..s])
      invariant original <= segments
      invariant forall i | |original| <= i < |segments| :: 0 <= segments[i] < limit
    {
      if ends[s] <= 0 || ends[s] > |original| { return Err(EndpointOutOfRange); }
      if lengths[s] <= 0 { return Err(EmptyTarget); }
      var first := original[ends[s] - 1] + 1;
      if first + lengths[s] > limit { return Err(PositionLimitExceeded); }
      OneMoreTarget(original, ends, lengths, limit, s);
      segments := segments + Arange(first, lengths[s]);
    }
    assert ends[..|ends|] == ends && lengths[..|ends|] == lengths;
    if i :| 0 <= i < |segments| && segments[i] >= limit {
      assert original[i] == segments[i];
      return Err(PositionLimitExceeded);
    }
    assert forall i | 0 <= i < |original| :: original[i] == segments[i];
    return Ok(segments);
  }

  // ---------------------------------------------------- packed meets sequential

  function Lengths<T>(targets: seq<seq<T>>): (r: seq<int>)
    ensures |r| == |targets| && forall s | 0 <= s < |r| :: r[s] == |targets[s]|
  {
    seq(|targets|, s requires 0 <= s < |targets| => |targets[s]|)
  }

  /** One task: a trajectory with its padding keys and position ids, and one target per prefix. */
  datatype Task<Token> = Task(
    tokens: seq<Token>, keys: seq<int>, positions: seq<int>,
    ends: seq<int>, targets: seq<seq<Token>>)
  {
    ghost predicate Valid() {
      && |positions| == |tokens|
      && Layout(|tokens|, ends, Lengths(targets), keys)
    }

    /** Index in the packed sequence of token `j` of copy `s`. */
    function CopyIndex(s: nat, j: int): int
      requires s <= |targets|
    {
      Start(|tokens|, Lengths(targets), s) + j
    }
  }

  /** The initial state of each token depends on the token and on its logical position only. */
  function Initial<Token, S>(embed: (Token, int) -> S, tokens: seq<Token>, positions: seq<int>): (r: seq<S>)
    requires |tokens| == |positions|
    ensures |r| == |tokens|
  {
    seq(|tokens|, i requires 0 <= i < |tokens| => embed(tokens[i], positions[i]))
  }

  function CausalMask(keys: seq<int>): (r: seq<seq<bool>>)
    ensures |r| == |keys| && forall q | 0 <= q < |r| :: |r[q]| == |keys|
  {
    seq(|keys|, q requires 0 <= q < |keys| =>
      seq(|keys|, k requires 0 <= k < |keys| => k <= q && keys[k] == 1))
  }

  /** The sequential oracle for one prefix: prefix tokens followed by the target, ordinary
      causal attention with the prefix's padding keys, positions continuing the prefix's last. */
  ghost function OracleRun<Token, S>(
      layers: seq<(S, seq<S>) -> S>, embed: (Token, int) -> S,
      tokens: seq<Token>, keys: seq<int>, positions: seq<int>, end: int, target: seq<Token>): (r: seq<S>)
    requires 0 < end <= |tokens| == |keys| == |positions|
    ensures |r| == end + |target|
  {
    Forward(layers,
            CausalMask(keys[..end] + seq(|target|, _ => 1)),
            Initial(embed, tokens[..end] + target, positions[..end] + Arange(positions[end - 1] + 1, |target|)))
  }

  /** The single packed forward pass. */
  ghost function PackedRun<Token, S>(
      layers: seq<(S, seq<S>) -> S>, embed: (Token, int) -> S, task: Task<Token>): (r: seq<S>)
    requires task.Valid()
    ensures |r| == task.CopyIndex(|task.targets|, 0)
  {
    PackedLengths(task);
    Forward(layers,
            PackedMask(|task.tokens|, task.ends, Lengths(task.targets), task.keys),
            Initial(embed, task.tokens + Flatten(task.targets),
                    PackedPositions(task.positions, task.ends, Lengths(task.targets))))
  }

  lemma {:induction false} PackedLengths<Token>(task: Task<Token>)
    requires task.Valid()
    ensures |task.tokens + Flatten(task.targets)| == task.CopyIndex(|task.targets|, 0)
    ensures |PackedPositions(task.positions, task.ends, Lengths(task.targets))| == task.CopyIndex(|task.targets|, 0)
    ensures task.CopyIndex(|task.targets|, 0) >= |task.tokens|
    decreases |task.targets|
  {
    if task.targets != [] {
      var last := |task.targets| - 1;
      var shorter := task.(ends := task.ends[..last], targets := task.targets[..last]);
      assert Lengths(shorter.targets) == Lengths(task.targets)[..last];
      PackedLengths(shorter);
      StartOfPrefix(|task.tokens|, Lengths(task.targets), last, last);
    }
  }

  lemma {:induction false} StartOfPrefix(count: int, lengths: seq<int>, m: nat, s: nat)
    requires s <= m <= |lengths|
    ensures Start(count, lengths[..m], s) == Start(count, lengths, s)
    decreases s
  {
    if s > 0 { StartOfPrefix(count, lengths, m, s - 1); }
  }

  /** Copy `s` lies inside the packed sequence, after the trajectory. */
  lemma CopyBounds<Token>(task: Task<Token>, s: nat, j: nat)
    requires task.Valid() && s < |task.targets| && j < |task.targets[s]|
    ensures |task.tokens| <= task.CopyIndex(s, j) < task.CopyIndex(|task.targets|, 0)
    ensures |task.tokens + Flatten(task.targets)| == task.CopyIndex(|task.targets|, 0)
    ensures |PackedPositions(task.positions, task.ends, Lengths(task.targets))| == task.CopyIndex(|task.targets|, 0)
  {
    PackedLengths(task);
    StartMonotone(|task.tokens|, Lengths(task.targets), 0, s);
    StartMonotone(|task.tokens|, Lengths(task.targets), s, |task.targets|);
  }

  /** The task without its last target, and what it shares with the whole one. */
  lemma WithoutLastTarget<Token>(task: Task<Token>) returns (shorter: Task<Token>)
    requires task.Valid() && task.targets != []
    ensures var last := |task.targets| - 1;
      && shorter == task.(ends := task.ends[..last], targets := task.targets[..last])
      && shorter.Valid() && Lengths(shorter.targets) == Lengths(task.targets)[..last]
      && (forall s: nat | s <= last :: shorter.CopyIndex(s, 0) == task.CopyIndex(s, 0))
  {
    var last := |task.targets| - 1;
    shorter := task.(ends := task.ends[..last], targets := task.targets[..last]);
    assert Lengths(shorter.targets) == Lengths(task.targets)[..last];
    forall s: nat | s <= last ensures shorter.CopyIndex(s, 0) == task.CopyIndex(s, 0) {
      StartOfPrefix(|task.tokens|, Lengths(task.targets), last, s);
    }
  }

  lemma {:induction false} PackedToken<Token>(task: Task<Token>, s: nat, j: nat)
    requires task.Valid() && s < |task.targets| && j < |task.targets[s]|
    ensures 0 <= task.CopyIndex(s, j) - |task.tokens| < |Flatten(task.targets)|
    ensures Flatten(task.targets)[task.CopyIndex(s, j) - |task.tokens|] == task.targets[s][j]
    decreases |task.targets|
  {
    CopyBounds(task, s, j);
    var shorter := WithoutLastTarget(task);
    PackedLengths(shorter);
    if s < |shorter.targets| {
      assert shorter.CopyIndex(s, 0) == task.CopyIndex(s, 0);
      PackedToken(shorter, s, j);
    } else {
      assert shorter.CopyIndex(|shorter.targets|, 0) == task.CopyIndex(s, 0);
    }
  }

  lemma {:induction false} PackedPosition<Token>(task: Task<Token>, s: nat, j: nat)
    requires task.Valid() && s < |task.targets| && j < |task.targets[s]|
    ensures 0 <= task.CopyIndex(s, j) < |PackedPositions(task.positions, task.ends, Lengths(task.targets))|
    ensures PackedPositions(task.positions, task.ends, Lengths(task.targets))[task.CopyIndex(s, j)]
         == task.positions[task.ends[s] - 1] + 1 + j
    decreases |task.targets|
  {
    CopyBounds(task, s, j);
    var shorter := WithoutLastTarget(task);
    PackedLengths(shorter);
    if s < |shorter.targets| {
      assert shorter.CopyIndex(s, 0) == task.CopyIndex(s, 0);
      PackedPosition(shorter, s, j);
    } else {
      assert shorter.CopyIndex(|shorter.targets|, 0) == task.CopyIndex(s, 0);
    }
  }

  /** Where the packed sequence keeps each token and position: the trajectory first, then
      token `j` of copy `s` at `CopyIndex(s, j)` with a position counted from its own prefix. */
  lemma PackedContents<Token>(task: Task<Token>, s: nat, j: nat)
    requires task.Valid() && s < |task.targets| && j < |task.targets[s]|
    ensures |task.tokens| <= task.CopyIndex(s, j) < task.CopyIndex(|task.targets|, 0)
    ensures |Flatten(task.targets)| == task.CopyIndex(|task.targets|, 0) - |task.tokens|
    ensures |PackedPositions(task.positions, task.ends, Lengths(task.targets))| == task.CopyIndex(|task.targets|, 0)
    ensures (task.tokens + Flatten(task.targets))[task.CopyIndex(s, j)] == task.targets[s][j]
    ensures PackedPositions(task.positions, task.ends, Lengths(task.targets))[task.CopyIndex(s, j)]
         == task.positions[task.ends[s] - 1] + 1 + j
  {
    CopyBounds(task, s, j);
    PackedToken(task, s, j);
    PackedPosition(task, s, j);
  }

  lemma {:induction false} OriginalPositions<Token>(task: Task<Token>, i: nat)
    requires task.Valid() && i < |task.tokens|
    ensures i < |PackedPositions(task.positions, task.ends, Lengths(task.targets))|
    ensures PackedPositions(task.positions, task.ends, Lengths(task.targets))[i] == task.positions[i]
    decreases |task.targets|
  {
    PackedLengths(task);
    if task.targets != [] {
      var last := |task.targets| - 1;
      var shorter := task.(ends := task.ends[..last], targets := task.targets[..last]);
      assert Lengths(shorter.targets) == Lengths(task.targets)[..last];
      OriginalPositions(shorter, i);
    }
  }

  /** Where the oracle's sequence for prefix `s` sits inside the packed sequence. */
  ghost function Placement<Token>(task: Task<Token>, s: nat): (g: seq<nat>)
    requires task.Valid() && s < |task.targets|
    ensures |g| == task.ends[s] + |task.targets[s]|
    ensures forall i | 0 <= i < |g| ::
              g[i] == if i < task.ends[s] then i else task.CopyIndex(s, i - task.ends[s])
  {
    StartMonotone(|task.tokens|, Lengths(task.targets), 0, s);
    var end, start := task.ends[s], task.CopyIndex(s, 0);
    seq(end + |task.targets[s]|, i requires i >= 0 => (if i < end then i else start + (i - end)) as nat)
  }

  /** The packed mask's row at a placed query, entry by entry. */
  lemma PlacedRow<Token>(task: Task<Token>, s: nat, i: nat, k: nat)
    requires task.Valid() && s < |task.targets|
    requires i < |Placement(task, s)| && k < Start(|task.tokens|, Lengths(task.targets), |task.targets|)
    ensures Visible(|task.tokens|, task.ends, Lengths(task.targets), task.keys, Placement(task, s)[i], k) <==>
      if i < task.ends[s] then k <= i && task.keys[k] == 1
      else (k < task.ends[s] && task.keys[k] == 1) || task.CopyIndex(s, 0) <= k <= Placement(task, s)[i]
  {
    var g := Placement(task, s);
    StartMonotone(|task.tokens|, Lengths(task.targets), 0, s);
    if i >= task.ends[s] {
      VisibleFromCopy(|task.tokens|, task.ends, Lengths(task.targets), task.keys, s, g[i], k);
    }
  }

  /** The small causal mask and the packed one agree at placed pairs. */
  lemma PlacedEntry<Token>(task: Task<Token>, s: nat, keys: seq<int>, i: nat, k: nat)
    requires task.Valid() && s < |task.targets| && Start(|task.tokens|, Lengths(task.targets), |task.targets|) >= 0
    requires keys == task.keys[..task.ends[s]] + seq(|task.targets[s]|, _ => 1)
    requires i < |Placement(task, s)| && k < |Placement(task, s)|
    ensures k <= i && keys[k] == 1 <==>
      Visible(|task.tokens|, task.ends, Lengths(task.targets), task.keys, Placement(task, s)[i], Placement(task, s)[k])
  {
    var g, end, start := Placement(task, s), task.ends[s], task.CopyIndex(s, 0);
    PlacementIncreases(task, s);
    StartMonotone(|task.tokens|, Lengths(task.targets), 0, s);
    PlacedRow(task, s, i, g[k]);
    assert g[i] == (if i < end then i else start + (i - end)) && g[k] == (if k < end then k else start + (k - end));
    assert keys[k] == if k < end then task.keys[k] else 1;
  }

  /** A placed query sees placed keys only. */
  lemma SeesPlaced<Token>(task: Task<Token>, s: nat, i: nat, k: nat)
    requires task.Valid() && s < |task.targets| && i < |Placement(task, s)|
    requires k < Start(|task.tokens|, Lengths(task.targets), |task.targets|)
    requires Visible(|task.tokens|, task.ends, Lengths(task.targets), task.keys, Placement(task, s)[i], k)
    ensures k in Placement(task, s)
  {
    var g, end, start := Placement(task, s), task.ends[s], task.CopyIndex(s, 0);
    PlacedRow(task, s, i, k);
    assert g[if k < end then k else k - start + end] == k;
  }

  lemma PlacementIncreases<Token>(task: Task<Token>, s: nat)
    requires task.Valid() && s < |task.targets|
    ensures task.CopyIndex(|task.targets|, 0) >= 0 && Increasing(Placement(task, s), task.CopyIndex(|task.targets|, 0))
  {
    StartMonotone(|task.tokens|, Lengths(task.targets), 0, s);
    StartMonotone(|task.tokens|, Lengths(task.targets), s, |task.targets|);
  }

  lemma PlacementEmbeds<Token>(task: Task<Token>, s: nat)
    requires task.Valid() && s < |task.targets| && Start(|task.tokens|, Lengths(task.targets), |task.targets|) >= 0
    ensures Embeds(Placement(task, s),
                   CausalMask(task.keys[..task.ends[s]] + seq(|task.targets[s]|, _ => 1)),
                   PackedMask(|task.tokens|, task.ends, Lengths(task.targets), task.keys))
  {
    PlacementIncreases(task, s);
    var g, keys := Placement(task, s), task.keys[..task.ends[s]] + seq(|task.targets[s]|, _ => 1);
    var small, big := CausalMask(keys), PackedMask(|task.tokens|, task.ends, Lengths(task.targets), task.keys);
    forall i, k | 0 <= i < |g| && 0 <= k < |big| && big[g[i]][k] ensures k in g {
      SeesPlaced(task, s, i, k);
    }
    forall i, k | 0 <= i < |g| && 0 <= k < |g| ensures small[i][k] == big[g[i]][g[k]] {
      PlacedEntry(task, s, keys, i, k);
    }
  }

  /** Token and position agree along the placement, so the initial states agree. */
  lemma InitialAgrees<Token, S>(embed: (Token, int) -> S, task: Task<Token>, s: nat, i: nat)
    requires task.Valid() && s < |task.targets| && i < task.ends[s] + |task.targets[s]|
    ensures |PackedPositions(task.positions, task.ends, Lengths(task.targets))| == |task.tokens + Flatten(task.targets)|
    ensures Placement(task, s)[i] < |task.tokens + Flatten(task.targets)|
    ensures var end, target := task.ends[s], task.targets[s];
      Initial(embed, task.tokens[..end] + target,
              task.positions[..end] + Arange(task.positions[end - 1] + 1, |target|))[i]
      == Initial(embed, task.tokens + Flatten(task.targets),
                 PackedPositions(task.positions, task.ends, Lengths(task.targets)))[Placement(task, s)[i]]
  {
    PackedLengths(task);
    if i < task.ends[s] { OriginalPositions(task, i); } else { PackedContents(task, s, i - task.ends[s]); }
  }

  /** MAIN RESULT: one packed pass computes, for every prefix, every state of the
      prefix-plus-target run that the sequential oracle performs separately: the
      prefix tokens' states and each target token's state. */
  lemma PackedEqualsSequential<Token, S>(
      layers: seq<(S, seq<S>) -> S>, embed: (Token, int) -> S, task: Task<Token>, s: nat)
    requires task.Valid() && s < |task.targets|
    ensures forall i | 0 <= i < task.ends[s] + |task.targets[s]| ::
      Placement(task, s)[i] < |PackedRun(layers, embed, task)| &&
      OracleRun(layers, embed, task.tokens, task.keys, task.positions, task.ends[s], task.targets[s])[i]
      == PackedRun(layers, embed, task)[Placement(task, s)[i]]
  {
    PackedLengths(task);
    PlacementEmbeds(task, s);
    var end, target, g := task.ends[s], task.targets[s], Placement(task, s);
    var small := Initial(embed, task.tokens[..end] + target,
                         task.positions[..end] + Arange(task.positions[end - 1] + 1, |target|));
    var big := Initial(embed, task.tokens + Flatten(task.targets),
                       PackedPositions(task.positions, task.ends, Lengths(task.targets)));
    forall i | 0 <= i < |g| ensures g[i] < |big| && small[i] == big[g[i]] {
      InitialAgrees(embed, task, s, i);
    }
    ForwardThroughEmbedding(layers, g, CausalMask(task.keys[..end] + seq(|target|, _ => 1)), small,
                            PackedMask(|task.tokens|, task.ends, Lengths(task.targets), task.keys), big);
  }

  /** Copies never influence the trajectory: every original token, also past the last
      prefix end, has the state it has when the trajectory runs without any copy. */
  lemma OriginalTokensUnaffected<Token, S>(
      layers: seq<(S, seq<S>) -> S>, embed: (Token, int) -> S, task: Task<Token>)
    requires task.Valid()
    ensures forall i | 0 <= i < |task.tokens| ::
      PackedRun(layers, embed, task)[i]
      == Forward(layers, CausalMask(task.keys), Initial(embed, task.tokens, task.positions))[i]
  {
    PackedLengths(task);
    var g := seq(|task.tokens|, i requires 0 <= i < |task.tokens| => i as nat);
    var small, big := Initial(embed, task.tokens, task.positions),
                      Initial(embed, task.tokens + Flatten(task.targets),
                              PackedPositions(task.positions, task.ends, Lengths(task.targets)));
    OriginalsEmbed(task, g);
    forall i | 0 <= i < |g| ensures small[i] == big[g[i]] {
      OriginalPositions(task, i);
    }
    ForwardThroughEmbedding(layers, g, CausalMask(task.keys), small,
                            PackedMask(|task.tokens|, task.ends, Lengths(task.targets), task.keys), big);
  }

  lemma OriginalsEmbed<Token>(task: Task<Token>, g: seq<nat>)
    requires task.Valid() && |g| == |task.tokens| <= Start(|task.tokens|, Lengths(task.targets), |task.targets|)
    requires forall i | 0 <= i < |g| :: g[i] == i
    ensures Embeds(g, CausalMask(task.keys), PackedMask(|task.tokens|, task.ends, Lengths(task.targets), task.keys))
  {
    var big := PackedMask(|task.tokens|, task.ends, Lengths(task.targets), task.keys);
    forall i, k | 0 <= i < |g| && 0 <= k < |big| && big[g[i]][k] ensures k in g {
      assert g[k] == k;
    }
  }

  /** Copies never influence one another: two tasks over the same trajectory give the same
      states to any copy with the same prefix end and target, whatever other copies are
      packed around it. */
  lemma CopiesDoNotInteract<Token, S>(
      layers: seq<(S, seq<S>) -> S>, embed: (Token, int) -> S, a: Task<Token>, s: nat, b: Task<Token>, t: nat, j: nat)
    requires a.Valid() && b.Valid() && s < |a.targets| && t < |b.targets|
    requires a.tokens == b.tokens && a.keys == b.keys && a.positions == b.positions
    requires a.ends[s] == b.ends[t] && a.targets[s] == b.targets[t] && j < |a.targets[s]|
    ensures 0 <= a.CopyIndex(s, j) < |PackedRun(layers, embed, a)|
    ensures 0 <= b.CopyIndex(t, j) < |PackedRun(layers, embed, b)|
    ensures PackedRun(layers, embed, a)[a.CopyIndex(s, j)] == PackedRun(layers, embed, b)[b.CopyIndex(t, j)]
  {
    PackedEqualsSequential(layers, embed, a, s);
    PackedEqualsSequential(layers, embed, b, t);
    assert Placement(a, s)[a.ends[s] + j] == a.CopyIndex(s, j);
    assert Placement(b, t)[b.ends[t] + j] == b.CopyIndex(t, j);
  }

  /** The scorer reads the logit of an answer token one index before the token.  That index
      holds the oracle's predicting state for every token but the first of its copy, and for
      the first one only when the copy is the first and its prefix is the whole trajectory. */
  lemma PredictingStates<Token, S>(
      layers: seq<(S, seq<S>) -> S>, embed: (Token, int) -> S, task: Task<Token>, s: nat, j: nat)
    requires task.Valid() && s < |task.targets| && j < |task.targets[s]|
    ensures task.CopyIndex(s, j) - 1 == Placement(task, s)[task.ends[s] + j - 1]
        <==> j > 0 || (s == 0 && task.ends[s] == |task.tokens|)
    ensures j > 0 || (s == 0 && task.ends[s] == |task.tokens|) ==>
      && 0 <= task.CopyIndex(s, j) - 1 < |PackedRun(layers, embed, task)|
      && PackedRun(layers, embed, task)[task.CopyIndex(s, j) - 1]
         == OracleRun(layers, embed, task.tokens, task.keys, task.positions, task.ends[s], task.targets[s])
              [task.ends[s] + j - 1]
  {
    PackedEqualsSequential(layers, embed, task, s);
    StartMonotone(|task.tokens|, Lengths(task.targets), 0, s);
    var g, end := Placement(task, s), task.ends[s];
    assert g[end + j - 1] == if j == 0 then end - 1 else task.CopyIndex(s, j) - 1;
  }

  /** The answer is not empty and does not open its copy. */
  predicate FollowsScaffold(mask: seq<bool>) { true in mask && !mask[0] }

  /** The state that predicts token `j` of a target placed at `start`. */
  ghost function ReadAt<S>(states: seq<S>, start: nat, j: nat): S
    requires 0 < start + j <= |states|
  {
    states[start + j - 1]
  }

  /** The states read for the answer tokens among the first `n` of a target placed at `start`. */
  ghost function AnswerStates<S>(states: seq<S>, start: nat, mask: seq<bool>, n: nat): seq<S>
    requires n <= |mask| && 0 < start && start + n <= |states|
  {
    if n == 0 then []
    else AnswerStates(states, start, mask, n - 1) + if mask[n - 1] then [ReadAt(states, start, n - 1)] else []
  }

  function LogitPositions(start: int, mask: seq<bool>, n: nat): seq<int>
    requires n <= |mask|
  {
    if n == 0 then [] else LogitPositions(start, mask, n - 1) + if mask[n - 1] then [start + n - 2] else []
  }

  ghost predicate Masks<Token>(task: Task<Token>, masks: seq<seq<bool>>) {
    |masks| == |task.targets| && forall s | 0 <= s < |masks| :: |masks[s]| == |task.targets[s]|
  }

  ghost predicate SpanOf<Token>(task: Task<Token>, s: nat, mask: seq<bool>, span: seq<int>)
    requires s <= |task.targets|
  {
    FollowsScaffold(mask) && span == LogitPositions(task.CopyIndex(s, 0), mask, |mask|)
  }

  ghost predicate SpansOf<Token>(task: Task<Token>, masks: seq<seq<bool>>, spans: seq<seq<int>>) {
    |spans| <= |masks| <= |task.targets| && forall s | 0 <= s < |spans| :: SpanOf(task, s, masks[s], spans[s])
  }

  /** The task builder's spans: for every copy the indices its answer is scored at, unless
      some answer is empty or opens its copy. */
  method ScoreSpans<Token>(task: Task<Token>, masks: seq<seq<bool>>) returns (r: Result<seq<seq<int>>, MaskError>)
    requires task.Valid() && Masks(task, masks)
    ensures r.Err? ==> exists s | 0 <= s < |masks| :: !FollowsScaffold(masks[s])
    ensures r.Ok? ==> |r.value| == |masks| && SpansOf(task, masks, r.value)
  {
    var spans: seq<seq<int>> := [];
    var cursor := |task.tokens|;
    for s := 0 to |masks|
      invariant cursor == task.CopyIndex(s, 0) && |spans| == s && SpansOf(task, masks, spans)
    {
      var logits := LogitPositions(cursor, masks[s], |masks[s]|);
      WholeMask(cursor, masks[s]);
      if logits == [] || logits[0] < cursor { return Err(AnswerOpensCopy); }
      OneMoreSpan(task, masks, spans, logits);
      spans := spans + [logits];
      cursor := cursor + |task.targets[s]|;
    }
    return Ok(spans);
  }

  lemma OneMoreSpan<Token>(task: Task<Token>, masks: seq<seq<bool>>, spans: seq<seq<int>>, span: seq<int>)
    requires SpansOf(task, masks, spans) && |spans| < |masks| && SpanOf(task, |spans|, masks[|spans|], span)
    ensures SpansOf(task, masks, spans + [span])
  {
  }

  lemma {:induction false} SomeLogit(start: int, mask: seq<bool>, n: nat)
    requires n <= |mask|
    ensures LogitPositions(start, mask, n) == [] <==> forall j | 0 <= j < n :: !mask[j]
    decreases n
  {
    if n > 0 { SomeLogit(start, mask, n - 1); }
  }

  lemma {:induction false} FirstLogit(start: int, mask: seq<bool>, n: nat)
    requires n <= |mask| && LogitPositions(start, mask, n) != []
    ensures LogitPositions(start, mask, n)[0] < start <==> mask[0]
    decreases n
  {
    if LogitPositions(start, mask, n - 1) == [] {
      SomeLogit(start, mask, n - 1);
    } else {
      FirstLogit(start, mask, n - 1);
    }
  }

  lemma WholeMask(start: int, mask: seq<bool>)
    ensures var logits := LogitPositions(start, mask, |mask|);
      logits != [] && logits[0] >= start <==> FollowsScaffold(mask)
  {
    SomeLogit(start, mask, |mask|);
    if LogitPositions(start, mask, |mask|) != [] { FirstLogit(start, mask, |mask|); }
  }

  /** MAIN RESULT: for any answer that follows its scaffold, the packed scorer and the
      sequential oracle read the same states in the same order, so they score alike. */
  lemma SameStatesAreScored<Token, S>(
      layers: seq<(S, seq<S>) -> S>, embed: (Token, int) -> S, task: Task<Token>, s: nat, mask: seq<bool>)
    requires task.Valid() && s < |task.targets| && |mask| == |task.targets[s]| && FollowsScaffold(mask)
    ensures 0 < task.CopyIndex(s, 0) && task.CopyIndex(s, 0) + |mask| <= |PackedRun(layers, embed, task)|
    ensures AnswerStates(PackedRun(layers, embed, task), task.CopyIndex(s, 0), mask, |mask|)
      == AnswerStates(OracleRun(layers, embed, task.tokens, task.keys, task.positions, task.ends[s], task.targets[s]),
                      task.ends[s], mask, |mask|)
  {
    CopyBounds(task, s, 0);
    CopyBounds(task, s, |mask| - 1);
    forall j: nat | 0 < j < |mask|
      ensures ReadAt(PackedRun(layers, embed, task), task.CopyIndex(s, 0), j)
           == ReadAt(OracleRun(layers, embed, task.tokens, task.keys, task.positions, task.ends[s], task.targets[s]),
                     task.ends[s], j)
    {
      SameStateIsRead(layers, embed, task, s, j);
    }
    SameReadings(PackedRun(layers, embed, task), task.CopyIndex(s, 0),
                 OracleRun(layers, embed, task.tokens, task.keys, task.positions, task.ends[s], task.targets[s]),
                 task.ends[s], mask, |mask|);
  }

  lemma SameStateIsRead<Token, S>(
      layers: seq<(S, seq<S>) -> S>, embed: (Token, int) -> S, task: Task<Token>, s: nat, j: nat)
    requires task.Valid() && s < |task.targets| && 0 < j < |task.targets[s]|
    ensures 0 < task.CopyIndex(s, 0) && task.CopyIndex(s, 0) + j <= |PackedRun(layers, embed, task)|
    ensures ReadAt(PackedRun(layers, embed, task), task.CopyIndex(s, 0), j)
         == ReadAt(OracleRun(layers, embed, task.tokens, task.keys, task.positions, task.ends[s], task.targets[s]),
                   task.ends[s], j)
  {
    CopyBounds(task, s, 0);
    CopyBounds(task, s, j);
    PredictingStates(layers, embed, task, s, j);
  }

  lemma {:induction false} SameReadings<S>(a: seq<S>, i: nat, b: seq<S>, k: nat, mask: seq<bool>, n: nat)
    requires n <= |mask| && 0 < i && i + n <= |a| && 0 < k && k + n <= |b| && mask != [] && !mask[0]
    requires forall j: nat | 0 < j < n :: ReadAt(a, i, j) == ReadAt(b, k, j)
    ensures AnswerStates(a, i, mask, n) == AnswerStates(b, k, mask, n)
    decreases n
  {
    if n > 0 { SameReadings(a, i, b, k, mask, n - 1); }
  }
}
