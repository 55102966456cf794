/** Why the singleton depths of a prompt group form one consecutive tail: information gain
    needs every earlier prefix, so a trajectory's valid searches are an initial run. */
module PrefixChain {
  import opened Outcome
  import opened MicaCredit
  import opened PromptCredit

  /** 0, 1, ..., n - 1: the search indices of a real trajectory. */
  function Range(n: nat): (r: seq<int>)
    ensures |r| == n && forall i | 0 <= i < n :: r[i] == i
  {
    seq(n, i => i)
  }

  /** Once a search has no valid prefix, no later search of the trajectory has one. */
  ghost predicate NoResumption(indices: seq<int>, eligible: map<int, bool>)
    requires forall k | 0 <= k < |indices| :: indices[k] in eligible
  {
    forall i, j | 0 <= i < j < |indices| :: eligible[indices[j]] ==> eligible[indices[i]]
  }

  method ValidateChain(indices: seq<int>, eligible: map<int, bool>) returns (e: Option<CreditError>)
    requires forall k | 0 <= k < |indices| :: indices[k] in eligible
    ensures e == (if NoResumption(indices, eligible) then None else Some(ChainResumed))
  {
    var open := true;
    for j := 0 to |indices|
      invariant open <==> forall i | 0 <= i < j :: eligible[indices[i]]
      invariant forall i, k | 0 <= i < k < j :: eligible[indices[k]] ==> eligible[indices[i]]
    {
      var current := eligible[indices[j]];
      if current && !open { return Some(ChainResumed); }
      open := open && current;
    }
    return None;
  }

  /** A validated trajectory: contiguous search indices and no resumption. */
  ghost predicate Chained(t: Trajectory) {
    && t.WellFormed() && t.indices == Range(|t.indices|)
    && (forall k | 0 <= k < |t.indices| :: t.indices[k] in t.igEligible)
    && NoResumption(t.indices, t.igEligible)
  }

  /** Length of the initial run of eligible searches. */
  function RunLength(t: Trajectory, i: nat): (n: nat)
    requires i <= |t.indices| && forall k | 0 <= k < |t.indices| :: t.indices[k] in t.igEligible
    ensures i <= n <= |t.indices|
    ensures forall k | i <= k < n :: t.igEligible[t.indices[k]]
    ensures n < |t.indices| ==> !t.igEligible[t.indices[n]]
    decreases |t.indices| - i
  {
    if i < |t.indices| && t.igEligible[t.indices[i]] then RunLength(t, i + 1) else i
  }

  /** Number of valid searches; they are searches 0, ..., Depth - 1. */
  ghost function Depth(t: Trajectory): nat
    requires Chained(t)
  {
    RunLength(t, 0)
  }

  lemma ValidSearchesAreInitial(t: Trajectory, d: int)
    requires Chained(t)
    ensures d in t.raw <==> 0 <= d < Depth(t)
  {
    var n := Depth(t);
    assert d in t.indices <==> 0 <= d < |t.indices| by {
      if 0 <= d < |t.indices| { assert t.indices[d] == d; }
    }
    if 0 <= d < |t.indices| {
      assert t.indices[d] == d;
      if d > n { assert t.indices[n] == n; }
    }
  }

  ghost predicate Group(ts: seq<Trajectory>) { forall t | 0 <= t < |ts| :: Chained(ts[t]) }

  lemma {:induction false} PeersNeverIncrease(ts: seq<Trajectory>, d: nat, e: nat)
    requires Group(ts) && d <= e
    ensures |PeersAt(Raws(ts), e)| <= |PeersAt(Raws(ts), d)|
    decreases |ts|
  {
    if ts != [] {
      var front, last := ts[..|ts| - 1], ts[|ts| - 1];
      assert Raws(ts)[..|ts| - 1] == Raws(front);
      PeersNeverIncrease(front, d, e);
      ValidSearchesAreInitial(last, d);
      ValidSearchesAreInitial(last, e);
    }
  }

  /** Two different members of one depth make its group at least two strong. */
  lemma {:induction false} TwoMembers(maps: seq<map<int, real>>, d: int, t: nat, u: nat)
    requires t < u < |maps| && d in maps[t] && d in maps[u]
    ensures |PeersAt(maps, d)| >= 2
    decreases |maps|
  {
    var front := maps[..|maps| - 1];
    if u < |maps| - 1 { TwoMembers(front, d, t, u); } else { PeerInGroup(front, d, t); }
  }

  ghost predicate Singleton(ts: seq<Trajectory>, t: nat, d: int) {
    t < |ts| && d in ts[t].raw && |PeersAt(Raws(ts), d)| == 1
  }

  /** From a trajectory's first singleton depth on, all its valid depths are singletons. */
  lemma SingletonsRunToTheEnd(ts: seq<Trajectory>, t: nat, d: int, e: int)
    requires Group(ts) && Singleton(ts, t, d) && d <= e && e in ts[t].raw
    ensures Singleton(ts, t, e)
  {
    ValidSearchesAreInitial(ts[t], d);
    PeersNeverIncrease(ts, d, e);
    PeerInGroup(Raws(ts), e, t);
  }

  /** At most one trajectory of a prompt has singleton depths. */
  lemma SingletonsHaveOneOwner(ts: seq<Trajectory>, t: nat, d: int, u: nat, e: int)
    requires Group(ts) && Singleton(ts, t, d) && Singleton(ts, u, e)
    ensures t == u
  {
    var low := if d <= e then d else e;
    ValidSearchesAreInitial(ts[t], d);
    ValidSearchesAreInitial(ts[u], e);
    ValidSearchesAreInitial(ts[t], low);
    ValidSearchesAreInitial(ts[u], low);
    if t < u { TwoMembers(Raws(ts), low, t, u); } else if u < t { TwoMembers(Raws(ts), low, u, t); }
  }

  ghost predicate Single(credits: map<int, Credit>, d: int) { d in credits && credits[d].SingletonOutcome? }

  lemma FilteredSnoc(front: seq<int>, d: int, credits: map<int, Credit>)
    ensures Filtered(front + [d], credits) == Filtered(front, credits) + if Single(credits, d) then [d] else []
  {
    assert (front + [d])[..|front|] == front;
  }

  ghost predicate Filled(credits: map<int, Credit>, start: int, top: int) {
    forall d | start <= d < top :: Single(credits, d)
  }

  lemma FilledSnoc(credits: map<int, Credit>, start: int, top: int)
    requires start < top
    ensures Filled(credits, start, top) <==> Filled(credits, start, top - 1) && Single(credits, top - 1)
  {
  }

  /** A list of places inside [start, end) is as long as the block exactly when it fills it. */
  lemma {:induction false} BlockLength(credits: map<int, Credit>, n: nat, start: int, end: int)
    requires 0 <= start <= end && forall d | 0 <= d < n && Single(credits, d) :: start <= d < end
    ensures var top, k := if n < end then n else end, |Filtered(Range(n), credits)|;
      if top <= start then k == 0
      else k <= top - start && (k == top - start <==> Filled(credits, start, top))
  {
    if n > 0 {
      BlockLength(credits, n - 1, start, end);
      assert Range(n) == Range(n - 1) + [n - 1];
      FilteredSnoc(Range(n - 1), n - 1, credits);
      if start < n { FilledSnoc(credits, start, n); }
    }
  }

  lemma {:induction false} FilteredMembers(indices: seq<int>, credits: map<int, Credit>, d: int)
    ensures d in Filtered(indices, credits) <==> d in indices && Single(credits, d)
  {
    if indices != [] {
      FilteredMembers(indices[..|indices| - 1], credits, d);
      assert d in indices <==> d in indices[..|indices| - 1] || d == indices[|indices| - 1];
    }
  }

  /** The first singleton depth of a trajectory whose search is policy eligible. */
  ghost predicate TailStarts(ts: seq<Trajectory>, t: nat, start: int)
    requires Group(ts) && t < |ts|
  {
    && Credited(ts, t, start)
    && (forall d | Credited(ts, t, d) :: start <= d)
  }

  /** A singleton depth whose search is policy eligible. */
  ghost predicate Credited(ts: seq<Trajectory>, t: nat, d: int)
    requires Group(ts) && t < |ts|
  {
    Singleton(ts, t, d) && PolicyEligible(ts[t], d)
  }

  /** The searches credited with the outcome are exactly these. */
  lemma SingleCredits(
      root: real -> Magnitude, ts: seq<Trajectory>, rets: seq<map<int, real>>, tol: Tolerance, t: nat, m: MicaResult,
      d: int)
    requires tol.Valid() && t < |ts| == |rets| && Group(ts)
    requires forall u | 0 <= u < |ts| :: rets[u].Keys == ts[u].raw.Keys
    requires ResultFor(root, ts, rets, tol, t, m)
    ensures Single(m.credits, d) <==> Credited(ts, t, d)
    ensures d in Filtered(ts[t].indices, m.credits) <==> Credited(ts, t, d)
  {
    FilteredMembers(ts[t].indices, m.credits, d);
    ValidSearchesAreInitial(ts[t], d);
    if d in m.credits {
      assert IsCreditFor(root, Raws(ts), rets, tol, ts[t], rets[t], d, m.credits[d]);
    }
  }

  /** Where a tail starts, everything valid from there on is a singleton depth. */
  lemma CreditedFromStart(ts: seq<Trajectory>, t: nat, start: int, d: int)
    requires Group(ts) && t < |ts| && TailStarts(ts, t, start)
    ensures 0 <= start < Depth(ts[t])
    ensures Credited(ts, t, d) <==> start <= d < Depth(ts[t]) && PolicyEligible(ts[t], d)
  {
    ValidSearchesAreInitial(ts[t], start);
    ValidSearchesAreInitial(ts[t], d);
    if start <= d < Depth(ts[t]) { SingletonsRunToTheEnd(ts, t, start, d); }
  }

  /** MAIN RESULT: what the reported singleton tail means.  It starts at the first singleton
      depth whose search is policy eligible, and there is none without such a depth; its
      length is the whole distance to the last valid search - "consecutive" - exactly when
      every search in between is policy eligible. */
  lemma TailIsConsecutive(
      root: real -> Magnitude, ts: seq<Trajectory>, rets: seq<map<int, real>>, tol: Tolerance, t: nat, m: MicaResult,
      start: int)
    requires tol.Valid() && t < |ts| == |rets| && Group(ts)
    requires forall u | 0 <= u < |ts| :: rets[u].Keys == ts[u].raw.Keys
    requires ResultFor(root, ts, rets, tol, t, m) && TailStarts(ts, t, start)
    ensures m.tailStart == Some(start) && 0 <= start < Depth(ts[t]) && 0 < m.tailLength <= Depth(ts[t]) - start
    ensures m.tailLength == Depth(ts[t]) - start <==> forall d | start <= d < Depth(ts[t]) :: PolicyEligible(ts[t], d)
  {
    var end, n := Depth(ts[t]), |ts[t].indices|;
    TailStart(root, ts, rets, tol, t, m, start);
    CreditedFromStart(ts, t, start, start);
    forall d ensures Single(m.credits, d) <==> start <= d < end && PolicyEligible(ts[t], d) {
      SingleCredits(root, ts, rets, tol, t, m, d);
      CreditedFromStart(ts, t, start, d);
    }
    BlockLength(m.credits, n, start, end);
  }

  lemma TailStart(
      root: real -> Magnitude, ts: seq<Trajectory>, rets: seq<map<int, real>>, tol: Tolerance, t: nat, m: MicaResult,
      start: int)
    requires tol.Valid() && t < |ts| == |rets| && Group(ts)
    requires forall u | 0 <= u < |ts| :: rets[u].Keys == ts[u].raw.Keys
    requires ResultFor(root, ts, rets, tol, t, m) && TailStarts(ts, t, start)
    ensures m.tailStart == Some(start) && m.tailLength == |Filtered(Range(|ts[t].indices|), m.credits)| > 0
  {
    var singles := Filtered(ts[t].indices, m.credits);
    SingleCredits(root, ts, rets, tol, t, m, start);
    FilteredAscending(ts[t].indices, m.credits);
    assert singles[0] in singles;
    SingleCredits(root, ts, rets, tol, t, m, singles[0]);
  }

  lemma NoTail(
      root: real -> Magnitude, ts: seq<Trajectory>, rets: seq<map<int, real>>, tol: Tolerance, t: nat, m: MicaResult)
    requires tol.Valid() && t < |ts| == |rets| && Group(ts)
    requires forall u | 0 <= u < |ts| :: rets[u].Keys == ts[u].raw.Keys
    requires ResultFor(root, ts, rets, tol, t, m)
    ensures m.tailStart == None <==> forall d :: !Credited(ts, t, d)
  {
    var singles := Filtered(ts[t].indices, m.credits);
    forall d ensures d in singles <==> Credited(ts, t, d) {
      SingleCredits(root, ts, rets, tol, t, m, d);
    }
    if singles != [] { assert singles[0] in singles && Credited(ts, t, singles[0]); }
  }

  /** A trajectory of three valid searches, the middle one not policy eligible. */
  function GapTrajectory(): Trajectory {
    Trajectory("", Range(3), map[0 := 0.0, 1 := 0.0, 2 := 0.0],
               map[0 := true, 1 := true, 2 := true], map[0 := true, 1 := false, 2 := true], 0.0)
  }

  function GapResult(): MicaResult {
    MicaResult(map[0 := SingletonOutcome(0.0, 0.0, 0.0), 2 := SingletonOutcome(0.0, 0.0, 0.0)], Some(0), 2)
  }

  lemma GapChained()
    ensures Chained(GapTrajectory()) && Depth(GapTrajectory()) == 3
  {
    var t := GapTrajectory();
    forall i ensures i in t.indices <==> 0 <= i < 3 {
      if 0 <= i < 3 { assert t.indices[i] == i; }
    }
    ValidSearchesAreInitial(t, 2);
  }

  lemma GapFiltered()
    ensures Filtered(Range(3), GapResult().credits) == [0, 2]
  {
    var credits := GapResult().credits;
    FilteredSnoc([], 0, credits);
    FilteredSnoc([0], 1, credits);
    FilteredSnoc([0, 1], 2, credits);
    assert [] + [0] == [0] && [0] + [1] == [0, 1] && [0, 1] + [2] == Range(3);
    assert Filtered([], credits) == [] && [] + [0] + [] + [2] == [0, 2];
  }

  lemma LoneTrajectory(t: Trajectory, d: int)
    ensures PeersAt(Raws([t]), d) == if d in t.raw then [t.raw[d]] else []
  {
    assert Raws([t])[..0] == [];
  }

  /** Alone in its group, its reported tail starts at the first search and has a gap. */
  lemma TailWithAGap(root: real -> Magnitude, tol: Tolerance)
    requires tol.Valid()
    ensures exists ts: seq<Trajectory>, rets: seq<map<int, real>>, m: MicaResult ::
      && Group(ts) && |ts| == |rets| == 1 && rets[0].Keys == ts[0].raw.Keys && ResultFor(root, ts, rets, tol, 0, m)
      && m.tailStart == Some(0) && m.tailLength < Depth(ts[0])
  {
    var t, m := GapTrajectory(), GapResult();
    var ts, rets := [t], [t.raw];
    GapChained();
    GapFiltered();
    forall d | d in m.credits ensures IsCreditFor(root, Raws(ts), rets, tol, t, rets[0], d, m.credits[d]) {
      LoneTrajectory(t, d);
    }
    assert ResultFor(root, ts, rets, tol, 0, m);
  }
}
