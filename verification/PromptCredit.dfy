/** Credit for one prompt group: peer groups per search depth, the MICA credit of every
    search turn, and the separately written production normalisation it must agree with. */
module PromptCredit {
  import opened Outcome
  import opened RealSums
  import opened MicaCredit

  /** The credit inputs of one trajectory. */
  datatype Trajectory = Trajectory(
    id: string, indices: seq<int>, raw: map<int, real>,
    igEligible: map<int, bool>, policyEligible: map<int, bool>, outcome: real)
  {
    /** Sorted unique non-negative search indices, eligibility for exactly these, and raw
        information gain exactly where it is eligible. */
    ghost predicate WellFormed() {
      && Ascending(indices) && (forall i | i in indices :: i >= 0)
      && (forall i :: i in igEligible <==> i in indices)
      && (forall i :: i in policyEligible <==> i in indices)
      && (forall i :: i in raw <==> i in indices && igEligible[i])
    }
  }

  predicate PolicyEligible(t: Trajectory, d: int) { d in t.policyEligible && t.policyEligible[d] }

  function Raws(ts: seq<Trajectory>): (r: seq<map<int, real>>)
    ensures |r| == |ts| && forall t | 0 <= t < |ts| :: r[t] == ts[t].raw
  {
    seq(|ts|, t requires 0 <= t < |ts| => ts[t].raw)
  }

  // ---------------------------------------------------------------- peer groups

  /** The values of one depth, in trajectory order. */
  function PeersAt(maps: seq<map<int, real>>, d: int): seq<real> {
    if maps == [] then []
    else
      var last := maps[|maps| - 1];
      PeersAt(maps[..|maps| - 1], d) + if d in last then [last[d]] else []
  }

  /** How many trajectories before `t` have a value at depth d: the place of t's own value. */
  function Place(maps: seq<map<int, real>>, d: int, t: nat): nat
    requires t <= |maps|
  {
    |PeersAt(maps[..t], d)|
  }

  lemma {:induction false} PeerInGroup(maps: seq<map<int, real>>, d: int, t: nat)
    requires t < |maps| && d in maps[t]
    ensures Place(maps, d, t) < |PeersAt(maps, d)| && PeersAt(maps, d)[Place(maps, d, t)] == maps[t][d]
    decreases |maps|
  {
    if t < |maps| - 1 {
      PeerInGroup(maps[..|maps| - 1], d, t);
      assert maps[..|maps| - 1][..t] == maps[..t];
    }
  }

  lemma {:induction false} SameKeysSamePeerCount(a: seq<map<int, real>>, b: seq<map<int, real>>, d: int)
    requires |a| == |b| && forall t | 0 <= t < |a| :: a[t].Keys == b[t].Keys
    ensures |PeersAt(a, d)| == |PeersAt(b, d)|
  {
    if a != [] {
      SameKeysSamePeerCount(a[..|a| - 1], b[..|b| - 1], d);
      assert d in a[|a| - 1] <==> d in b[|b| - 1].Keys;
    }
  }

  function GroupOf(peers: map<int, seq<real>>, d: int): seq<real> {
    if d in peers then peers[d] else []
  }

  predicate NonNegative(values: map<int, real>) { forall d | d in values :: d >= 0 }

  /** No trajectory has a value at a negative depth. */
  predicate AllNonNegative(maps: seq<map<int, real>>) {
    maps == [] || (AllNonNegative(maps[..|maps| - 1]) && NonNegative(maps[|maps| - 1]))
  }

  lemma {:induction false} AllNonNegativeIs(maps: seq<map<int, real>>)
    ensures AllNonNegative(maps) <==> forall t | 0 <= t < |maps| :: NonNegative(maps[t])
  {
    if maps != [] {
      var front := maps[..|maps| - 1];
      AllNonNegativeIs(front);
      assert forall t | 0 <= t < |front| :: front[t] == maps[t];
    }
  }

  lemma NextNonNegative(maps: seq<map<int, real>>, t: nat)
    requires t < |maps| && AllNonNegative(maps[..t])
    ensures AllNonNegative(maps[..t + 1]) <==> NonNegative(maps[t])
    ensures AllNonNegative(maps) ==> NonNegative(maps[t])
  {
    assert maps[..t + 1][..t] == maps[..t];
    AllNonNegativeIs(maps);
  }

  lemma NextPeers(maps: seq<map<int, real>>, t: nat, d: int)
    requires t < |maps|
    ensures PeersAt(maps[..t + 1], d) == PeersAt(maps[..t], d) + if d in maps[t] then [maps[t][d]] else []
  {
    assert maps[..t + 1][..t] == maps[..t];
  }

  method DepthGroups(maps: seq<map<int, real>>) returns (r: Result<map<int, seq<real>>, CreditError>)
    ensures r.Err? <==> !AllNonNegative(maps)
    ensures r.Ok? ==> Grouped(r.value, maps)
  {
    var peers: map<int, seq<real>> := map[];
    for t := 0 to |maps|
      invariant AllNonNegative(maps[..t])
      invariant Grouped(peers, maps[..t])
    {
      NextNonNegative(maps, t);
      if !NonNegative(maps[t]) { return Err(NegativeIndex); }
      ghost var before := peers;
      peers := AddTrajectory(peers, maps[t]);
      GroupedGrows(before, peers, maps, t);
    }
    assert maps[..|maps|] == maps;
    return Ok(peers);
  }

  ghost predicate Grouped(peers: map<int, seq<real>>, maps: seq<map<int, real>>) {
    && (forall d :: GroupOf(peers, d) == PeersAt(maps, d))
    && (forall d | d in peers :: peers[d] != [])
  }

  lemma GroupedGrows(before: map<int, seq<real>>, after: map<int, seq<real>>, maps: seq<map<int, real>>, t: nat)
    requires t < |maps| && Grouped(before, maps[..t]) && forall d | d in after :: after[d] != []
    requires forall d :: GroupOf(after, d) == GroupOf(before, d) + (if d in maps[t] then [maps[t][d]] else [])
    ensures Grouped(after, maps[..t + 1])
  {
    forall d ensures GroupOf(after, d) == PeersAt(maps[..t + 1], d) {
      NextPeers(maps, t, d);
    }
  }

  /** One trajectory joins the groups of every depth at which it has a value. */
  method AddTrajectory(groups: map<int, seq<real>>, values: map<int, real>) returns (r: map<int, seq<real>>)
    requires forall d | d in groups :: groups[d] != []
    ensures forall d :: GroupOf(r, d) == GroupOf(groups, d) + (if d in values then [values[d]] else [])
    ensures forall d | d in r :: r[d] != []
  {
    r := groups;
    var rest := values.Keys;
    while rest != {}
      invariant rest <= values.Keys
      invariant forall d | d in values && d !in rest :: GroupOf(r, d) == GroupOf(groups, d) + [values[d]]
      invariant forall d | d !in values || d in rest :: GroupOf(r, d) == GroupOf(groups, d)
      invariant forall d | d in r :: r[d] != []
      decreases |rest|
    {
      Inhabited(rest);
      var d :| d in rest;
      r := r[d := GroupOf(r, d) + [values[d]]];
      rest := rest - {d};
    }
  }

  // ---------------------------------------------------------------- MICA credit

  /** What a search is credited with: nothing, its trajectory's outcome, or `advantage`. */
  datatype Credit =
    | MissingIg(outcome: real)
    | SingletonOutcome(raw: real, ret: real, outcome: real)
    | PromptDepth(raw: real, ret: real, peers: nat, local: real, retAdvantage: real, advantage: real)

  /** The credit of a policy-eligible search at depth d: zero without IG, the terminal
      outcome when no peer reached this depth, otherwise the mix of both signals. */
  ghost predicate IsCreditFor(
      root: real -> Magnitude, raws: seq<map<int, real>>, rets: seq<map<int, real>>, tol: Tolerance,
      t: Trajectory, ret: map<int, real>, d: int, c: Credit)
    requires tol.Valid() && t.WellFormed() && d in t.indices && ret.Keys == t.raw.Keys
  {
    var n := |PeersAt(raws, d)|;
    if !t.igEligible[d] then c == MissingIg(t.outcome)
    else if n == 1 then c == SingletonOutcome(t.raw[d], ret[d], t.outcome)
    else
      && c.PromptDepth? && c.raw == t.raw[d] && c.ret == ret[d] && c.peers == n
      && Ok(c.local) == GroupRelativeAdvantage(c.raw, PopulationStats(root, PeersAt(raws, d)), tol)
      && Ok(c.retAdvantage) == GroupRelativeAdvantage(c.ret, PopulationStats(root, PeersAt(rets, d)), tol)
      && c.advantage == Mix(0.5, c.retAdvantage, c.local)
  }

  function Mix(alpha: real, a: real, b: real): real { alpha * a + (1.0 - alpha) * b }

  datatype MicaResult = MicaResult(credits: map<int, Credit>, tailStart: Option<int>, tailLength: nat)

  ghost predicate InputsValid(ts: seq<Trajectory>, gamma: real, alpha: real, tol: Tolerance) {
    && (forall i, j | 0 <= i < j < |ts| :: ts[i].id != ts[j].id)
    && gamma == 1.0 && alpha == 0.5 && tol.Valid()
    && forall t | 0 <= t < |ts| :: ts[t].WellFormed()
  }

  method ComputeMica(root: real -> Magnitude, ts: seq<Trajectory>, gamma: real, alpha: real, tol: Tolerance)
    returns (r: Result<seq<MicaResult>, CreditError>, ghost rets: seq<map<int, real>>)
    ensures r.Ok? <==> InputsValid(ts, gamma, alpha, tol)
    ensures r.Ok? ==> |r.value| == |rets| == |ts|
    ensures r.Ok? ==> forall t | 0 <= t < |ts| :: ts[t].WellFormed() && rets[t].Keys == ts[t].raw.Keys
    ensures r.Ok? ==> forall t | 0 <= t < |ts| :: IsReturns(ts[t].raw, Sorted(ts[t].raw.Keys), 1.0, rets[t])
    ensures r.Ok? ==> forall t | 0 <= t < |ts| :: ResultFor(root, ts, rets, tol, t, r.value[t])
  {
    rets := [];
    var e := CheckInputs(ts, gamma, alpha, tol);
    if e.Some? { return Err(e.value), rets; }
    NoNegativeKeys(ts);
    var returns_ := ComputeRawIgReturns(Raws(ts), gamma);
    rets := returns_.value;
    var results := CreditPrompt(root, ts, returns_.value, tol, alpha);
    return Ok(results), rets;
  }

  /** The inputs as the source receives them: one sequence per field. */
  datatype Columns = Columns(
    ids: seq<string>, indices: seq<seq<int>>, raws: seq<map<int, real>>,
    igEligible: seq<map<int, bool>>, policyEligible: seq<map<int, bool>>, outcomes: seq<real>)
  {
    predicate Aligned() {
      |indices| == |ids| && |raws| == |ids| && |igEligible| == |ids| && |policyEligible| == |ids| && |outcomes| == |ids|
    }

    function Rows(): (ts: seq<Trajectory>)
      requires Aligned()
      ensures |ts| == |ids|
      ensures forall t | 0 <= t < |ids| ::
        ts[t] == Trajectory(ids[t], indices[t], raws[t], igEligible[t], policyEligible[t], outcomes[t])
    {
      seq(|ids|, t requires 0 <= t < |ids| =>
        Trajectory(ids[t], indices[t], raws[t], igEligible[t], policyEligible[t], outcomes[t]))
    }
  }

  /** The same from the separate inputs: they must have one entry per trajectory. */
  method ComputeFromColumns(root: real -> Magnitude, c: Columns, gamma: real, alpha: real, tol: Tolerance)
    returns (r: Result<seq<MicaResult>, CreditError>, ghost rets: seq<map<int, real>>)
    ensures r.Ok? <==> c.Aligned() && InputsValid(c.Rows(), gamma, alpha, tol)
    ensures !c.Aligned() ==> r == Err(CardinalityMismatch)
    ensures r.Ok? ==> |r.value| == |rets| == |c.ids|
    ensures r.Ok? ==> forall t | 0 <= t < |c.ids| :: c.Rows()[t].WellFormed() && rets[t].Keys == c.Rows()[t].raw.Keys
    ensures r.Ok? ==> forall t | 0 <= t < |c.ids| :: ResultFor(root, c.Rows(), rets, tol, t, r.value[t])
  {
    if !c.Aligned() { return Err(CardinalityMismatch), []; }
    r, rets := ComputeMica(root, c.Rows(), gamma, alpha, tol);
  }

  lemma NoNegativeKeys(ts: seq<Trajectory>)
    requires forall t | 0 <= t < |ts| :: ts[t].WellFormed()
    ensures forall t | 0 <= t < |ts| :: forall k | k in Raws(ts)[t] :: k >= 0
  {
  }

  lemma NoNegativeReturnKeys(ts: seq<Trajectory>, rets: seq<map<int, real>>)
    requires |ts| == |rets| && forall t | 0 <= t < |ts| :: ts[t].WellFormed() && rets[t].Keys == ts[t].raw.Keys
    ensures forall t | 0 <= t < |rets| :: forall k | k in rets[t] :: k >= 0
  {
    forall t, k | 0 <= t < |rets| && k in rets[t] ensures k >= 0 {
      assert k in rets[t].Keys;
      assert ts[t].WellFormed();
    }
  }

  ghost predicate GroupsMatch(
      ts: seq<Trajectory>, rets: seq<map<int, real>>, local: map<int, seq<real>>, back: map<int, seq<real>>)
  {
    forall d :: GroupOf(local, d) == PeersAt(Raws(ts), d) && GroupOf(back, d) == PeersAt(rets, d)
  }

  method CheckInputs(ts: seq<Trajectory>, gamma: real, alpha: real, tol: Tolerance) returns (e: Option<CreditError>)
    ensures e == None <==> InputsValid(ts, gamma, alpha, tol)
  {
    if i, j :| 0 <= i < j < |ts| && ts[i].id == ts[j].id { return Some(DuplicateId); }
    if gamma != 1.0 { return Some(GammaLocked); }
    if alpha != 0.5 { return Some(AlphaLocked); }
    if !tol.Valid() { return Some(BadTolerance); }
    for t := 0 to |ts|
      invariant forall u | 0 <= u < t :: ts[u].WellFormed()
    {
      e := CheckTrajectory(ts[t]);
      if e.Some? { return e; }
    }
    return None;
  }

  method CreditPrompt(
      root: real -> Magnitude, ts: seq<Trajectory>, rets: seq<map<int, real>>, tol: Tolerance, alpha: real)
    returns (results: seq<MicaResult>)
    requires tol.Valid() && alpha == 0.5 && |ts| == |rets|
    requires forall u | 0 <= u < |ts| :: ts[u].WellFormed() && rets[u].Keys == ts[u].raw.Keys
    ensures |results| == |ts| && forall t | 0 <= t < |ts| :: ResultFor(root, ts, rets, tol, t, results[t])
  {
    NoNegativeKeys(ts);
    NoNegativeReturnKeys(ts, rets);
    AllNonNegativeIs(Raws(ts));
    AllNonNegativeIs(rets);
    var localGroups := DepthGroups(Raws(ts));
    var retGroups := DepthGroups(rets);
    assert GroupsMatch(ts, rets, localGroups.value, retGroups.value);
    results := CreditAll(root, ts, rets, tol, localGroups.value, retGroups.value, alpha);
  }

  method CreditAll(
      root: real -> Magnitude, ts: seq<Trajectory>, rets: seq<map<int, real>>, tol: Tolerance,
      localGroups: map<int, seq<real>>, retGroups: map<int, seq<real>>, alpha: real)
    returns (results: seq<MicaResult>)
    requires tol.Valid() && alpha == 0.5 && |ts| == |rets|
    requires forall u | 0 <= u < |ts| :: ts[u].WellFormed() && rets[u].Keys == ts[u].raw.Keys
    requires GroupsMatch(ts, rets, localGroups, retGroups)
    ensures |results| == |ts| && forall t | 0 <= t < |ts| :: ResultFor(root, ts, rets, tol, t, results[t])
  {
    results := [];
    for t := 0 to |ts|
      invariant |results| == t && forall u | 0 <= u < t :: ResultFor(root, ts, rets, tol, u, results[u])
    {
      var m := CreditTrajectory(root, ts, rets, tol, t, localGroups, retGroups, alpha);
      results := results + [m];
    }
  }

  predicate Covers(eligible: map<int, bool>, indices: seq<int>) {
    (forall i | i in eligible :: i in indices) && (forall i | i in indices :: i in eligible)
  }

  method CheckTrajectory(t: Trajectory) returns (e: Option<CreditError>)
    ensures e == None <==> t.WellFormed()
  {
    for i := 0 to |t.indices|
      invariant forall a, b | 0 <= a < b < i :: t.indices[a] < t.indices[b]
      invariant forall a | 0 <= a < i :: t.indices[a] >= 0
    {
      assert t.indices[i] in t.indices;
      if t.indices[i] < 0 || (i > 0 && t.indices[i - 1] >= t.indices[i]) { return Some(BadIndices); }
    }
    if !Covers(t.igEligible, t.indices) || !Covers(t.policyEligible, t.indices) { return Some(EligibilityCoverage); }
    if exists i | i in t.raw :: i !in t.indices || !t.igEligible[i] { return Some(RawCoverage); }
    if exists i | i in t.indices :: t.igEligible[i] && i !in t.raw { return Some(RawCoverage); }
    return None;
  }

  /** Every policy-eligible search, and no other, receives its credit; the recorded tail
      starts at the first singleton depth and counts the singleton depths. */
  ghost predicate ResultFor(
      root: real -> Magnitude, ts: seq<Trajectory>, rets: seq<map<int, real>>, tol: Tolerance, t: nat, m: MicaResult)
    requires t < |ts| == |rets| && tol.Valid()
    requires forall u | 0 <= u < |ts| :: ts[u].WellFormed() && rets[u].Keys == ts[u].raw.Keys
  {
    var tr := ts[t];
    assert tr.WellFormed();
    && (forall d :: d in m.credits <==> d in tr.indices && PolicyEligible(tr, d))
    && (forall d | d in m.credits :: IsCreditFor(root, Raws(ts), rets, tol, tr, rets[t], d, m.credits[d]))
    && IsTail(Filtered(tr.indices, m.credits), m)
  }

  /** The singleton-credited depths, in order. */
  function Filtered(indices: seq<int>, credits: map<int, Credit>): seq<int> {
    if indices == [] then []
    else
      var d := indices[|indices| - 1];
      Filtered(indices[..|indices| - 1], credits)
      + if d in credits && credits[d].SingletonOutcome? then [d] else []
  }

  predicate IsTail(singles: seq<int>, m: MicaResult) {
    m.tailLength == |singles| && m.tailStart == if singles == [] then None else Some(singles[0])
  }

  function Minimum(s: seq<int>): (m: int)
    requires s != []
    ensures m in s && forall x | x in s :: m <= x
  {
    if |s| == 1 then s[0]
    else
      assert s == s[..|s| - 1] + [s[|s| - 1]];
      var rest := Minimum(s[..|s| - 1]);
      if rest <= s[|s| - 1] then rest else s[|s| - 1]
  }

  function CountFrom(s: seq<int>, start: int): nat {
    if s == [] then 0 else CountFrom(s[..|s| - 1], start) + if s[|s| - 1] >= start then 1 else 0
  }

  /** In an increasing list the minimum is the first element and everything counts from it. */
  lemma {:induction false} TailOfAscending(s: seq<int>, start: int)
    requires Ascending(s) && s != [] && start <= s[0]
    ensures Minimum(s) == s[0] && CountFrom(s, start) == |s|
  {
    if |s| > 1 { TailOfAscending(s[..|s| - 1], start); }
  }

  lemma {:induction false} FilteredIn(indices: seq<int>, credits: map<int, Credit>, d: int)
    ensures d in Filtered(indices, credits) ==> d in indices
  {
    if indices != [] { FilteredIn(indices[..|indices| - 1], credits, d); }
  }

  lemma AscendingSnoc(front: seq<int>, d: int)
    requires Ascending(front) && forall x | x in front :: x < d
    ensures Ascending(front + [d])
  {
    assert forall k | 0 <= k < |front| :: front[k] in front;
  }

  lemma {:induction false} FilteredAscending(indices: seq<int>, credits: map<int, Credit>)
    requires Ascending(indices)
    ensures Ascending(Filtered(indices, credits))
  {
    if indices != [] {
      var front, d := indices[..|indices| - 1], indices[|indices| - 1];
      FilteredAscending(front, credits);
      forall x | x in Filtered(front, credits) ensures x < d {
        FilteredIn(front, credits, x);
        assert x in front;
      }
      AscendingSnoc(Filtered(front, credits), d);
    }
  }

  lemma {:induction false} FilteredDependsOnCredits(indices: seq<int>, a: map<int, Credit>, b: map<int, Credit>)
    requires forall d | d in indices :: (d in a <==> d in b) && (d in a ==> a[d] == b[d])
    ensures Filtered(indices, a) == Filtered(indices, b)
  {
    if indices != [] { FilteredDependsOnCredits(indices[..|indices| - 1], a, b); }
  }

  method CreditTrajectory(
      root: real -> Magnitude, ts: seq<Trajectory>, rets: seq<map<int, real>>, tol: Tolerance, t: nat,
      localGroups: map<int, seq<real>>, retGroups: map<int, seq<real>>, alpha: real)
    returns (m: MicaResult)
    requires tol.Valid() && alpha == 0.5 && t < |ts| == |rets|
    requires forall u | 0 <= u < |ts| :: ts[u].WellFormed() && rets[u].Keys == ts[u].raw.Keys
    requires GroupsMatch(ts, rets, localGroups, retGroups)
    ensures ResultFor(root, ts, rets, tol, t, m)
  {
    var tr := ts[t];
    var credits: map<int, Credit> := map[];
    var singles: seq<int> := [];
    for i := 0 to |tr.indices|
      invariant CreditedUpTo(root, ts, rets, tol, t, i, credits, singles)
    {
      var d := tr.indices[i];
      if PolicyEligible(tr, d) {
        var c := CreditTurn(root, ts, rets, tol, t, d, localGroups, retGroups, alpha);
        OneMoreCredit(root, ts, rets, tol, t, i, credits, singles, c.value);
        credits := credits[d := c.value];
        if c.value.SingletonOutcome? { singles := singles + [d]; }
      } else {
        NoCredit(root, ts, rets, tol, t, i, credits, singles);
      }
    }
    assert tr.indices[..|tr.indices|] == tr.indices;
    var start, length := Tail(tr.indices, credits, singles);
    return MicaResult(credits, start, length);
  }

  /** The credits of a trajectory's first `i` searches. */
  ghost predicate CreditedUpTo(
      root: real -> Magnitude, ts: seq<Trajectory>, rets: seq<map<int, real>>, tol: Tolerance, t: nat,
      i: nat, credits: map<int, Credit>, singles: seq<int>)
    requires t < |ts| == |rets| && tol.Valid() && ts[t].WellFormed() && rets[t].Keys == ts[t].raw.Keys
    requires i <= |ts[t].indices|
  {
    && KeysUpTo(ts[t], i, credits) && CreditsFit(root, ts, rets, tol, t, credits)
    && singles == Filtered(ts[t].indices[..i], credits)
  }

  ghost predicate KeysUpTo(tr: Trajectory, i: nat, credits: map<int, Credit>)
    requires tr.WellFormed() && i <= |tr.indices|
  {
    forall d :: d in credits <==> d in tr.indices[..i] && PolicyEligible(tr, d)
  }

  ghost predicate CreditsFit(
      root: real -> Magnitude, ts: seq<Trajectory>, rets: seq<map<int, real>>, tol: Tolerance, t: nat,
      credits: map<int, Credit>)
    requires t < |ts| == |rets| && tol.Valid() && ts[t].WellFormed() && rets[t].Keys == ts[t].raw.Keys
  {
    forall d | d in credits ::
      d in ts[t].indices && IsCreditFor(root, Raws(ts), rets, tol, ts[t], rets[t], d, credits[d])
  }

  lemma NextIndex(indices: seq<int>, i: nat)
    requires Ascending(indices) && i < |indices|
    ensures indices[..i + 1] == indices[..i] + [indices[i]] && indices[..i + 1][..i] == indices[..i]
    ensures indices[i] !in indices[..i]
  {
  }

  lemma NextKeys(tr: Trajectory, i: nat, credits: map<int, Credit>, c: Credit)
    requires tr.WellFormed() && i < |tr.indices| && KeysUpTo(tr, i, credits)
    ensures KeysUpTo(tr, i + 1, if PolicyEligible(tr, tr.indices[i]) then credits[tr.indices[i] := c] else credits)
  {
    NextIndex(tr.indices, i);
  }

  lemma NextFits(
      root: real -> Magnitude, ts: seq<Trajectory>, rets: seq<map<int, real>>, tol: Tolerance, t: nat,
      credits: map<int, Credit>, d: int, c: Credit)
    requires t < |ts| == |rets| && tol.Valid() && ts[t].WellFormed() && rets[t].Keys == ts[t].raw.Keys
    requires CreditsFit(root, ts, rets, tol, t, credits) && d in ts[t].indices
    requires IsCreditFor(root, Raws(ts), rets, tol, ts[t], rets[t], d, c)
    ensures CreditsFit(root, ts, rets, tol, t, credits[d := c])
  {
  }

  lemma NextFiltered(indices: seq<int>, i: nat, credits: map<int, Credit>, after: map<int, Credit>)
    requires Ascending(indices) && i < |indices|
    requires (after == credits || (indices[i] in after && after == credits[indices[i] := after[indices[i]]]))
    ensures Filtered(indices[..i + 1], after)
         == Filtered(indices[..i], credits)
            + if indices[i] in after && after[indices[i]].SingletonOutcome? then [indices[i]] else []
  {
    NextIndex(indices, i);
    FilteredDependsOnCredits(indices[..i], credits, after);
  }

  lemma NoCredit(
      root: real -> Magnitude, ts: seq<Trajectory>, rets: seq<map<int, real>>, tol: Tolerance, t: nat,
      i: nat, credits: map<int, Credit>, singles: seq<int>)
    requires t < |ts| == |rets| && tol.Valid() && ts[t].WellFormed() && rets[t].Keys == ts[t].raw.Keys
    requires i < |ts[t].indices| && CreditedUpTo(root, ts, rets, tol, t, i, credits, singles)
    requires !PolicyEligible(ts[t], ts[t].indices[i])
    ensures CreditedUpTo(root, ts, rets, tol, t, i + 1, credits, singles)
  {
    NextKeys(ts[t], i, credits, MissingIg(0.0));
    NextFiltered(ts[t].indices, i, credits, credits);
  }

  lemma OneMoreCredit(
      root: real -> Magnitude, ts: seq<Trajectory>, rets: seq<map<int, real>>, tol: Tolerance, t: nat,
      i: nat, credits: map<int, Credit>, singles: seq<int>, c: Credit)
    requires t < |ts| == |rets| && tol.Valid() && ts[t].WellFormed() && rets[t].Keys == ts[t].raw.Keys
    requires i < |ts[t].indices| && CreditedUpTo(root, ts, rets, tol, t, i, credits, singles)
    requires PolicyEligible(ts[t], ts[t].indices[i])
    requires IsCreditFor(root, Raws(ts), rets, tol, ts[t], rets[t], ts[t].indices[i], c)
    ensures var d := ts[t].indices[i];
      CreditedUpTo(root, ts, rets, tol, t, i + 1, credits[d := c], singles + if c.SingletonOutcome? then [d] else [])
  {
    var d := ts[t].indices[i];
    NextKeys(ts[t], i, credits, c);
    NextFits(root, ts, rets, tol, t, credits, d, c);
    NextFiltered(ts[t].indices, i, credits, credits[d := c]);
  }

  method Tail(ghost indices: seq<int>, ghost credits: map<int, Credit>, singles: seq<int>)
    returns (start: Option<int>, length: nat)
    requires Ascending(indices) && singles == Filtered(indices, credits)
    ensures length == |singles| && start == if singles == [] then None else Some(singles[0])
  {
    FilteredAscending(indices, credits);
    if singles == [] { return None, 0; }
    TailOfAscending(singles, singles[0]);
    start := Some(Minimum(singles));
    length := CountFrom(singles, start.value);
  }

  method CreditTurn(
      root: real -> Magnitude, ts: seq<Trajectory>, rets: seq<map<int, real>>, tol: Tolerance, t: nat, d: int,
      localGroups: map<int, seq<real>>, retGroups: map<int, seq<real>>, alpha: real)
    returns (r: Result<Credit, CreditError>)
    requires tol.Valid() && alpha == 0.5 && t < |ts| == |rets| && d in ts[t].indices
    requires forall u | 0 <= u < |ts| :: ts[u].WellFormed() && rets[u].Keys == ts[u].raw.Keys
    requires GroupsMatch(ts, rets, localGroups, retGroups)
    ensures r.Ok? && IsCreditFor(root, Raws(ts), rets, tol, ts[t], rets[t], d, r.value)
  {
    var tr := ts[t];
    if !tr.igEligible[d] { return Ok(MissingIg(tr.outcome)); }
    PeerInGroup(Raws(ts), d, t);
    SameKeysSamePeerCount(Raws(ts), rets, d);
    var loc, ret := PopulationStats(root, GroupOf(localGroups, d)), PopulationStats(root, GroupOf(retGroups, d));
    if loc.peerCount != ret.peerCount { return Err(PeerCountsDiverged); }
    if loc.peerCount == 1 { return Ok(SingletonOutcome(tr.raw[d], rets[t][d], tr.outcome)); }
    if loc.peerCount < 2 { return Err(NoPeerGroup); }
    var local := GroupRelativeAdvantage(tr.raw[d], loc, tol);
    var back := GroupRelativeAdvantage(rets[t][d], ret, tol);
    return Ok(PromptDepth(tr.raw[d], rets[t][d], loc.peerCount, local.value, back.value,
                          Mix(alpha, back.value, local.value)));
  }

  // -------------------------------------------------- what every credit satisfies

  /** MAIN RESULT: of a prompt's credits, the two signals of a peer group each sum to zero
      over the group, this turn's signals are the group's entries for this trajectory, and
      the local, return and mixed credits are at most sqrt(n - 1) in absolute value. */
  lemma DepthCreditGuarantees(
      root: real -> Magnitude, ts: seq<Trajectory>, rets: seq<map<int, real>>, tol: Tolerance, t: nat, m: MicaResult,
      d: int)
    requires IsRoot(root) && tol.Valid() && t < |ts| == |rets|
    requires forall u | 0 <= u < |ts| :: ts[u].WellFormed() && rets[u].Keys == ts[u].raw.Keys
    requires ResultFor(root, ts, rets, tol, t, m) && d in m.credits && m.credits[d].PromptDepth?
    ensures var c, xs, ys, k := m.credits[d], PeersAt(Raws(ts), d), PeersAt(rets, d), Place(Raws(ts), d, t);
      && c.peers == |xs| == |ys| >= 2 && k < |xs|
      && Sum(Signals(root, xs, tol)) == 0.0 && Sum(Signals(root, ys, tol)) == 0.0
      && c.local == Signals(root, xs, tol)[k] && c.retAdvantage == Signals(root, ys, tol)[k]
      && Within(c.local, c.peers) && Within(c.retAdvantage, c.peers) && Within(c.advantage, c.peers)
  {
    var c, xs, ys, k := m.credits[d], PeersAt(Raws(ts), d), PeersAt(rets, d), Place(Raws(ts), d, t);
    assert IsCreditFor(root, Raws(ts), rets, tol, ts[t], rets[t], d, c);
    SameKeysSamePeerCount(Raws(ts), rets, d);
    PeerInGroup(Raws(ts), d, t);
    assert d in rets[t].Keys;
    PeerInGroup(rets, d, t);
    SamePlace(Raws(ts), rets, d, t);
    PeerSignal(root, xs, tol, k, c.local, c.peers);
    PeerSignal(root, ys, tol, k, c.retAdvantage, c.peers);
    MixWithin(c.retAdvantage, c.local, c.advantage, c.peers);
  }

  /** At most sqrt(n - 1) in absolute value. */
  predicate Within(a: real, n: nat) { a * a <= n as real - 1.0 }

  lemma MixWithin(a: real, b: real, mix: real, n: nat)
    requires Within(a, n) && Within(b, n) && mix == 0.5 * a + (1.0 - 0.5) * b
    ensures Within(mix, n)
  {
    MixBound(a, b, n as real - 1.0);
  }

  lemma PeerSignal(root: real -> Magnitude, xs: seq<real>, tol: Tolerance, k: nat, a: real, n: nat)
    requires IsRoot(root) && tol.Valid() && k < |xs| && |xs| == n && n >= 2
    requires Ok(a) == GroupRelativeAdvantage(xs[k], PopulationStats(root, xs), tol)
    ensures a == Signals(root, xs, tol)[k] && Within(a, n) && Sum(Signals(root, xs, tol)) == 0.0
  {
    SignalsSumToZero(root, xs, tol);
    OwnSignal(root, xs, tol, k, a);
    SignalWithin(root, xs, tol, k);
  }

  lemma SignalWithin(root: real -> Magnitude, xs: seq<real>, tol: Tolerance, k: nat)
    requires IsRoot(root) && tol.Valid() && k < |xs| && |xs| >= 2
    ensures Within(Signals(root, xs, tol)[k], |xs|)
  {
    SignalBound(root, xs, tol, k);
  }

  lemma OwnSignal(root: real -> Magnitude, xs: seq<real>, tol: Tolerance, k: nat, a: real)
    requires tol.Valid() && k < |xs| && |xs| >= 2
    requires Ok(a) == GroupRelativeAdvantage(xs[k], PopulationStats(root, xs), tol)
    ensures a == Signals(root, xs, tol)[k]
  {
  }

  lemma SamePlace(a: seq<map<int, real>>, b: seq<map<int, real>>, d: int, t: nat)
    requires |a| == |b| && t <= |a| && forall u | 0 <= u < |a| :: a[u].Keys == b[u].Keys
    ensures Place(a, d, t) == Place(b, d, t)
  {
    SameKeysSamePeerCount(a[..t], b[..t], d);
  }

  // ------------------------------------------------- the production normalisation

  /** What the production path stores for one eligible value. */
  function ProductionValue(root: real -> Magnitude, peers: seq<real>, value: real, tol: Tolerance): real
    requires tol.Valid()
  {
    var st := PopulationStats(root, peers);
    if !(|peers| >= 2) || st.std * st.std <= tol.zeroVariance then 0.0
    else (value - st.mean) / (st.std + tol.epsilon)
  }

  /** The peers of one depth as the production path gathers them: trajectory by trajectory,
      by eligibility flag rather than by the presence of a value. */
  method GatherPeers(ts: seq<Trajectory>, d: int) returns (owners: seq<nat>, values: seq<real>)
    requires forall t | 0 <= t < |ts| :: ts[t].WellFormed()
    ensures values == PeersAt(Raws(ts), d) && |owners| == |values|
    ensures forall t :: t in owners <==> 0 <= t < |ts| && d in ts[t].raw
    ensures forall i | 0 <= i < |owners| :: OwnsValue(ts, d, owners[i], values[i])
  {
    owners, values := [], [];
    for t := 0 to |ts|
      invariant GatheredUpTo(ts, d, t, owners, values)
    {
      if d in ts[t].igEligible && ts[t].igEligible[d] {
        OneMorePeer(ts, d, t, owners, values);
        owners, values := owners + [t], values + [ts[t].raw[d]];
      } else {
        NoMorePeer(ts, d, t, owners, values);
      }
    }
    AllGathered(ts, d, owners, values);
  }

  lemma NoMorePeer(ts: seq<Trajectory>, d: int, t: nat, owners: seq<nat>, values: seq<real>)
    requires t < |ts| && GatheredUpTo(ts, d, t, owners, values) && d !in ts[t].raw
    ensures GatheredUpTo(ts, d, t + 1, owners, values)
  {
    NextPeers(Raws(ts), t, d);
  }

  lemma AllGathered(ts: seq<Trajectory>, d: int, owners: seq<nat>, values: seq<real>)
    requires GatheredUpTo(ts, d, |ts|, owners, values)
    ensures values == PeersAt(Raws(ts), d)
  {
    assert Raws(ts)[..|ts|] == Raws(ts);
  }

  ghost predicate GatheredUpTo(ts: seq<Trajectory>, d: int, t: nat, owners: seq<nat>, values: seq<real>)
    requires t <= |ts|
  {
    && values == PeersAt(Raws(ts)[..t], d) && |owners| == |values|
    && (forall u :: u in owners <==> 0 <= u < t && d in ts[u].raw)
    && (forall i | 0 <= i < |owners| :: OwnsValue(ts, d, owners[i], values[i]))
  }

  predicate OwnsValue(ts: seq<Trajectory>, d: int, t: nat, v: real) { t < |ts| && d in ts[t].raw && v == ts[t].raw[d] }

  lemma OneMorePeer(ts: seq<Trajectory>, d: int, t: nat, owners: seq<nat>, values: seq<real>)
    requires t < |ts| && GatheredUpTo(ts, d, t, owners, values) && d in ts[t].raw
    ensures GatheredUpTo(ts, d, t + 1, owners + [t], values + [ts[t].raw[d]])
  {
    NextPeers(Raws(ts), t, d);
    var more := owners + [t];
    forall u ensures u in more <==> 0 <= u < t + 1 && d in ts[u].raw {
      assert u in more <==> u in owners || u == t;
    }
  }

  method ProductionNormalizedIg(root: real -> Magnitude, ts: seq<Trajectory>, depths: seq<int>, tol: Tolerance)
    returns (normalized: seq<map<int, real>>)
    requires tol.Valid() && forall t | 0 <= t < |ts| :: ts[t].WellFormed()
    requires forall t, d | 0 <= t < |ts| && d in ts[t].indices :: d in depths
    ensures |normalized| == |ts| && forall t | 0 <= t < |ts| :: forall d | d in normalized[t] :: d in ts[t].raw
    ensures forall t | 0 <= t < |ts| :: forall d | d in ts[t].raw ::
      d in normalized[t] && normalized[t][d] == ProductionValue(root, PeersAt(Raws(ts), d), ts[t].raw[d], tol)
  {
    normalized := seq(|ts|, _ => map[]);
    for j := 0 to |depths|
      invariant NormalizedUpTo(root, ts, depths, j, tol, normalized)
    {
      var next := NormalizeDepth(root, ts, depths[j], tol, normalized);
      OneMoreDepth(root, ts, depths, j, tol, normalized, next);
      normalized := next;
    }
    assert depths[..|depths|] == depths;
    assert forall t | 0 <= t < |ts| :: NormalizedFor(root, ts, t, depths, tol, normalized[t]);
  }

  /** The normalised values of one trajectory at these depths, and no others. */
  ghost predicate NormalizedFor(
      root: real -> Magnitude, ts: seq<Trajectory>, t: nat, depths: seq<int>, tol: Tolerance, values: map<int, real>)
    requires tol.Valid() && t < |ts|
  {
    && (forall d | d in values :: d in ts[t].raw)
    && (forall d | d in ts[t].raw && d in depths ::
          d in values && values[d] == ProductionValue(root, PeersAt(Raws(ts), d), ts[t].raw[d], tol))
  }

  ghost predicate NormalizedUpTo(
      root: real -> Magnitude, ts: seq<Trajectory>, depths: seq<int>, j: nat, tol: Tolerance,
      normalized: seq<map<int, real>>)
    requires tol.Valid() && j <= |depths|
  {
    |normalized| == |ts| && forall t | 0 <= t < |ts| :: NormalizedFor(root, ts, t, depths[..j], tol, normalized[t])
  }

  lemma OneMoreDepth(
      root: real -> Magnitude, ts: seq<Trajectory>, depths: seq<int>, j: nat, tol: Tolerance,
      before: seq<map<int, real>>, after: seq<map<int, real>>)
    requires tol.Valid() && j < |depths| && NormalizedUpTo(root, ts, depths, j, tol, before) && |after| == |ts|
    requires forall t | 0 <= t < |ts| :: SameExcept(before[t], after[t], depths[j])
    requires forall t | 0 <= t < |ts| && depths[j] in after[t] :: depths[j] in before[t] || depths[j] in ts[t].raw
    requires forall t | 0 <= t < |ts| && depths[j] in ts[t].raw ::
      && depths[j] in after[t]
      && after[t][depths[j]] == ProductionValue(root, PeersAt(Raws(ts), depths[j]), ts[t].raw[depths[j]], tol)
    ensures NormalizedUpTo(root, ts, depths, j + 1, tol, after)
  {
    assert depths[..j + 1] == depths[..j] + [depths[j]];
    forall t | 0 <= t < |ts| ensures NormalizedFor(root, ts, t, depths[..j + 1], tol, after[t]) {
      assert NormalizedFor(root, ts, t, depths[..j], tol, before[t]) && SameExcept(before[t], after[t], depths[j]);
    }
  }

  method NormalizeDepth(
      root: real -> Magnitude, ts: seq<Trajectory>, d: int, tol: Tolerance, before: seq<map<int, real>>)
    returns (normalized: seq<map<int, real>>)
    requires tol.Valid() && |before| == |ts| && forall t | 0 <= t < |ts| :: ts[t].WellFormed()
    ensures |normalized| == |ts| && forall t | 0 <= t < |ts| :: SameExcept(before[t], normalized[t], d)
    ensures forall t | 0 <= t < |ts| && d in normalized[t] :: d in before[t] || d in ts[t].raw
    ensures forall t | 0 <= t < |ts| && d in ts[t].raw ::
      d in normalized[t] && normalized[t][d] == ProductionValue(root, PeersAt(Raws(ts), d), ts[t].raw[d], tol)
  {
    var owners, values := GatherPeers(ts, d);
    var entries := seq(|values|, i requires 0 <= i < |values| => ProductionValue(root, values, values[i], tol));
    normalized := WriteBack(before, owners, d, entries);
  }

  method WriteBack(before: seq<map<int, real>>, owners: seq<nat>, d: int, entries: seq<real>)
    returns (normalized: seq<map<int, real>>)
    requires |owners| == |entries| && forall k | 0 <= k < |owners| :: owners[k] < |before|
    requires forall k, l | 0 <= k < l < |owners| :: owners[k] == owners[l] ==> entries[k] == entries[l]
    ensures |normalized| == |before| && forall t | 0 <= t < |before| :: SameExcept(before[t], normalized[t], d)
    ensures forall k | 0 <= k < |owners| :: d in normalized[owners[k]] && normalized[owners[k]][d] == entries[k]
    ensures forall t | 0 <= t < |before| && d in normalized[t] :: d in before[t] || t in owners
  {
    normalized := before;
    for i := 0 to |owners|
      invariant |normalized| == |before| && forall t | 0 <= t < |before| :: SameExcept(before[t], normalized[t], d)
      invariant forall k | 0 <= k < i :: d in normalized[owners[k]] && normalized[owners[k]][d] == entries[k]
      invariant forall t | 0 <= t < |before| && d in normalized[t] :: d in before[t] || t in owners
    {
      normalized := SetEntry(normalized, owners[i], d, entries[i]);
    }
  }

  function SetEntry(maps: seq<map<int, real>>, t: nat, d: int, v: real): (r: seq<map<int, real>>)
    requires t < |maps|
    ensures |r| == |maps| && d in r[t] && r[t][d] == v
    ensures SameExcept(maps[t], r[t], d) && forall u | 0 <= u < |maps| && u != t :: r[u] == maps[u]
  {
    maps[t := maps[t][d := v]]
  }

  ghost predicate SameExcept(a: map<int, real>, b: map<int, real>, d: int) {
    && (forall e | e in a && e != d :: e in b && b[e] == a[e])
    && (forall e | e in b && e != d :: e in a)
  }

  /** MAIN RESULT: the drift check between the two implementations cannot fire: every local
      advantage MICA computes is the production path's value for the same turn. */
  lemma LocalAdvantageMatchesProduction(
      root: real -> Magnitude, ts: seq<Trajectory>, rets: seq<map<int, real>>, tol: Tolerance, t: nat, m: MicaResult,
      d: int)
    requires tol.Valid() && t < |ts| == |rets|
    requires forall u | 0 <= u < |ts| :: ts[u].WellFormed() && rets[u].Keys == ts[u].raw.Keys
    requires ResultFor(root, ts, rets, tol, t, m) && d in m.credits && m.credits[d].PromptDepth?
    ensures d in ts[t].raw
    ensures m.credits[d].local == ProductionValue(root, PeersAt(Raws(ts), d), ts[t].raw[d], tol)
  {
    assert IsCreditFor(root, Raws(ts), rets, tol, ts[t], rets[t], d, m.credits[d]);
    RelativeIsProduction(root, PeersAt(Raws(ts), d), ts[t].raw[d], tol, m.credits[d].local);
  }

  lemma RelativeIsProduction(root: real -> Magnitude, peers: seq<real>, value: real, tol: Tolerance, a: real)
    requires tol.Valid() && Ok(a) == GroupRelativeAdvantage(value, PopulationStats(root, peers), tol)
    ensures a == ProductionValue(root, peers, value, tol)
  {
  }
}
