/** Effective information gain: from each search, the normalised gains up to the first
    sufficiency boundary, in the two reward modes that accumulate it. */
module IgWindow {
  import opened Outcome
  import opened RealSums
  import opened MicaCredit

  datatype WindowError =
    | NoNewUnknown | BudgetHasPost | BudgetNotNoNew | PostAfterSufficient | PostMissing | BudgetHasGain
    | NotEligible | GainMissing | EmptyWindow
    | UnclassifiedBranch | MainEligibilityMismatch | GateHasPost | Overlap | NoQuerySpan

  datatype Probe = Probe(sufficient: bool, reward: real)

  /** One real search turn: eligibility, protocol facts, answer probes before and after, its
      normalised and raw information gain, and its query. */
  datatype Turn = Turn(
    policyEligible: bool, igEligible: bool, mainEligible: bool,
    budgetExhausted: bool, invalid: bool, executed: bool, noNew: Option<bool>,
    pre: Probe, post: Option<Probe>, gain: Option<real>, rawGain: Option<real>,
    exactRepeat: bool, newPassages: int, queryTokens: nat)
  {
    /** The answer became sufficient with this search. */
    predicate After() { !budgetExhausted && !pre.sufficient && post.Some? && post.value.sufficient }
  }

  /** The terminal outcome reaches a search only in the direction its probe moved. */
  function Route(z: real, delta: real, eps: real): (r: real)
    requires eps >= 0.0
    ensures (delta > eps ==> r >= 0.0) && (delta < -eps ==> r <= 0.0) && (-eps <= delta <= eps ==> r == 0.0)
    ensures r == z || r == 0.0
  {
    if delta > eps then (if z > 0.0 then z else 0.0)
    else if delta < -eps then (if z < 0.0 then z else 0.0)
    else 0.0
  }

  /** The values of a window on top of those already collected. */
  function Collect(values: seq<real>, rest: Result<seq<real>, WindowError>): Result<seq<real>, WindowError> {
    if rest.Err? then rest else Ok(values + rest.value)
  }

  lemma CollectAssociates(a: seq<real>, b: seq<real>, rest: Result<seq<real>, WindowError>)
    ensures Collect(a + b, rest) == Collect(a, Collect(b, rest)) && Collect([], rest) == rest
    ensures Collect(a, Ok([])) == Ok(a) && Collect(a, Ok(b)) == Ok(a + b)
  {
    if rest.Ok? {
      assert a + b + rest.value == a + (b + rest.value);
      assert [] + rest.value == rest.value;
    }
    assert a + [] == a;
  }

  // ---------------------------------------------------------- probe-routed mode

  /** Probe stages must match the turn: no post probe after exhaustion or prior sufficiency,
      one otherwise. */
  function StageDefect(t: Turn): Option<WindowError> {
    if t.noNew == None then Some(NoNewUnknown)
    else if t.budgetExhausted then
      if t.post.Some? then Some(BudgetHasPost) else if !t.noNew.value then Some(BudgetNotNoNew) else None
    else if t.pre.sufficient then
      if t.post.Some? then Some(PostAfterSufficient) else None
    else if t.post.None? then Some(PostMissing)
    else None
  }

  predicate Counts(t: Turn) { t.policyEligible && t.igEligible && t.noNew == Some(false) }

  /** The window of search i, front to back: it ends before a turn that was already
      sufficient and after a turn that became so; turns that do not count are passed over. */
  function Window(turns: seq<Turn>, i: nat): Result<seq<real>, WindowError>
    requires i <= |turns|
    decreases |turns| - i
  {
    if i == |turns| || turns[i].pre.sufficient then Ok([])
    else if Counts(turns[i]) && turns[i].gain.None? then Err(GainMissing)
    else
      var here := if Counts(turns[i]) then [turns[i].gain.value] else [];
      if turns[i].After() then Ok(here) else Collect(here, Window(turns, i + 1))
  }

  method AccumulateWindow(turns: seq<Turn>, i: nat) returns (r: Result<seq<real>, WindowError>)
    requires i < |turns|
    ensures r == Window(turns, i)
  {
    var values: seq<real> := [];
    var j := i;
    CollectAssociates([], [], Window(turns, i));
    while j < |turns|
      invariant i <= j <= |turns|
      invariant Window(turns, i) == Collect(values, Window(turns, j))
    {
      if turns[j].pre.sufficient { break; }
      ghost var here := if Counts(turns[j]) && turns[j].gain.Some? then [turns[j].gain.value] else [];
      CollectAssociates(values, here, Window(turns, j + 1));
      if Counts(turns[j]) {
        if turns[j].gain.None? { return Err(GainMissing); }
        values := values + [turns[j].gain.value];
      }
      if turns[j].After() { return Ok(values); }
      j := j + 1;
    }
    CollectAssociates(values, [], Ok([]));
    return Ok(values);
  }

  datatype ProbeCredit =
    | SufficientBefore
    | NoNewObservation
    | Cumulative(effective: real, count: nat, delta: real, route: real)
  {
    function Advantage(): real {
      if Cumulative? then effective + route else -1.0
    }
  }

  /** Sum over the square root of the count. */
  function Effective(root: real -> Magnitude, values: seq<real>): real
    requires IsRootAt(root, values)
  {
    Sum(values) / root(|values| as real)
  }

  predicate IsRootAt(root: real -> Magnitude, values: seq<real>) { root(|values| as real) > 0.0 }

  lemma RootPositive(root: real -> Magnitude, values: seq<real>)
    requires IsRoot(root) && values != []
    ensures IsRootAt(root, values) && Square(root(|values| as real)) == |values| as real
  {
    var n := |values| as real;
    assert root(n) * root(n) == n;
  }

  /** The credit of an optimised search, or the error its turn or window raises. */
  ghost function ProbeCreditFor(
      root: real -> Magnitude, turns: seq<Turn>, i: nat, z: real, eps: real): Result<ProbeCredit, WindowError>
    requires IsRoot(root) && i < |turns| && eps >= 0.0
  {
    var t := turns[i];
    if t.budgetExhausted && (t.gain.Some? || t.rawGain.Some?) then Err(BudgetHasGain)
    else if t.pre.sufficient then Ok(SufficientBefore)
    else if t.noNew != Some(false) then Ok(NoNewObservation)
    else if !(t.policyEligible && t.igEligible && t.gain.Some?) then Err(NotEligible)
    else
      var w := Window(turns, i);
      if w.Err? then Err(w.error)
      else if w.value == [] then Err(EmptyWindow)
      else if t.post.None? then Err(PostMissing)
      else
        RootPositive(root, w.value);
        var delta := t.post.value.reward - t.pre.reward;
        Ok(Cumulative(Effective(root, w.value), |w.value|, delta, Route(z, delta, eps)))
  }

  ghost predicate StagesValid(turns: seq<Turn>) { forall i | 0 <= i < |turns| :: StageDefect(turns[i]) == None }

  ghost predicate EveryProbeCredit(root: real -> Magnitude, turns: seq<Turn>, z: real, eps: real)
    requires IsRoot(root) && eps >= 0.0
  {
    forall i | 0 <= i < |turns| && turns[i].policyEligible :: ProbeCreditFor(root, turns, i, z, eps).Ok?
  }

  /** Rebuilds the search credit of one trajectory; only policy-eligible searches get any. */
  method ProbeRouted(root: real -> Magnitude, turns: seq<Turn>, z: real, eps: real)
    returns (r: Result<map<nat, ProbeCredit>, WindowError>)
    requires IsRoot(root) && eps >= 0.0
    ensures r.Ok? <==> StagesValid(turns) && EveryProbeCredit(root, turns, z, eps)
    ensures r.Ok? ==> forall i: nat :: i in r.value <==> i < |turns| && turns[i].policyEligible
    ensures r.Ok? ==> forall i: nat | i in r.value :: Ok(r.value[i]) == ProbeCreditFor(root, turns, i, z, eps)
  {
    for i := 0 to |turns|
      invariant forall j | 0 <= j < i :: StageDefect(turns[j]) == None
    {
      if StageDefect(turns[i]).Some? { return Err(StageDefect(turns[i]).value); }
    }
    var credits: map<nat, ProbeCredit> := map[];
    for i := 0 to |turns|
      invariant forall j: nat :: j in credits <==> j < i && turns[j].policyEligible
      invariant forall j: nat | j in credits :: Ok(credits[j]) == ProbeCreditFor(root, turns, j, z, eps)
    {
      if turns[i].policyEligible {
        var c := CreditProbeTurn(root, turns, i, z, eps);
        if c.Err? { return Err(c.error); }
        credits := credits[i := c.value];
      }
    }
    return Ok(credits);
  }

  method CreditProbeTurn(root: real -> Magnitude, turns: seq<Turn>, i: nat, z: real, eps: real)
    returns (r: Result<ProbeCredit, WindowError>)
    requires IsRoot(root) && i < |turns| && eps >= 0.0
    ensures r == ProbeCreditFor(root, turns, i, z, eps)
  {
    var t := turns[i];
    if t.budgetExhausted && (t.gain.Some? || t.rawGain.Some?) { return Err(BudgetHasGain); }
    if t.pre.sufficient { return Ok(SufficientBefore); }
    if t.noNew != Some(false) { return Ok(NoNewObservation); }
    if !(t.policyEligible && t.igEligible && t.gain.Some?) { return Err(NotEligible); }
    var w := AccumulateWindow(turns, i);
    if w.Err? { return Err(w.error); }
    if w.value == [] { return Err(EmptyWindow); }
    if t.post.None? { return Err(PostMissing); }
    RootPositive(root, w.value);
    var delta := t.post.value.reward - t.pre.reward;
    return Ok(Cumulative(Effective(root, w.value), |w.value|, delta, Route(z, delta, eps)));
  }

  // ------------------------------------------------------- role-localized mode

  datatype Branch = NBudget | NInvalid | SBefore | NSoft | Normal

  /** The locked branch priority. */
  function Classify(t: Turn): Result<Branch, WindowError> {
    if t.budgetExhausted then Ok(NBudget)
    else if t.invalid then Ok(NInvalid)
    else if t.pre.sufficient then Ok(SBefore)
    else if t.executed && t.noNew == Some(true) then Ok(NSoft)
    else if t.executed && t.noNew == Some(false) then Ok(Normal)
    else Err(UnclassifiedBranch)
  }

  predicate Carries(t: Turn) { Classify(t) == Ok(NSoft) || Classify(t) == Ok(Normal) }

  function RoleDefect(t: Turn): Option<WindowError> {
    if Classify(t).Err? then Some(UnclassifiedBranch)
    else if t.mainEligible != Carries(t) then Some(MainEligibilityMismatch)
    else if !Carries(t) then (if t.post.Some? then Some(GateHasPost) else None)
    else if t.post.None? then Some(PostMissing)
    else None
  }

  /** The window of search i: it ends before a turn in branch SBefore and after a turn that
      became sufficient; budget and invalid turns are passed over; any other turn must be
      eligible and have a normalised gain. */
  function RoleWindow(turns: seq<Turn>, i: nat): Result<seq<real>, WindowError>
    requires i <= |turns|
    decreases |turns| - i
  {
    if i == |turns| || Classify(turns[i]) == Ok(SBefore) then Ok([])
    else if !Carries(turns[i]) then RoleWindow(turns, i + 1)
    else if !(turns[i].policyEligible && turns[i].igEligible && turns[i].mainEligible && turns[i].gain.Some?) then
      Err(NotEligible)
    else if turns[i].post.Some? && turns[i].post.value.sufficient then Ok([turns[i].gain.value])
    else Collect([turns[i].gain.value], RoleWindow(turns, i + 1))
  }

  method AccumulateRoleWindow(turns: seq<Turn>, i: nat) returns (r: Result<seq<real>, WindowError>)
    requires i < |turns|
    ensures r == RoleWindow(turns, i)
  {
    var values: seq<real> := [];
    var j := i;
    CollectAssociates([], [], RoleWindow(turns, i));
    while j < |turns|
      invariant i <= j <= |turns|
      invariant RoleWindow(turns, i) == Collect(values, RoleWindow(turns, j))
    {
      if Classify(turns[j]) == Ok(SBefore) { break; }
      if Carries(turns[j]) {
        if !(turns[j].policyEligible && turns[j].igEligible && turns[j].mainEligible && turns[j].gain.Some?) {
          return Err(NotEligible);
        }
        CollectAssociates(values, [turns[j].gain.value], RoleWindow(turns, j + 1));
        CollectAssociates(values, [turns[j].gain.value], Ok([]));
        values := values + [turns[j].gain.value];
        if turns[j].post.Some? && turns[j].post.value.sufficient { return Ok(values); }
      }
      j := j + 1;
    }
    CollectAssociates(values, [], Ok([]));
    return Ok(values);
  }

  datatype RoleCredit = RoleCredit(main: real, decision: real, query: real, count: nat)

  function DecisionCredit(b: Branch): real {
    match b case NBudget => -1.0 case NInvalid => -0.5 case SBefore => -0.5 case _ => 0.0
  }

  predicate DuplicateQuery(t: Turn) {
    Classify(t) == Ok(NSoft) && t.exactRepeat && t.newPassages == 0 && t.rawGain.Some? && t.rawGain.value <= 0.0
  }

  function QueryCredit(t: Turn): real {
    if Classify(t) == Ok(NInvalid) then (if t.queryTokens > 0 then -0.5 else 0.0)
    else if DuplicateQuery(t) then -0.25 else 0.0
  }

  ghost function MainCredit(
      root: real -> Magnitude, turns: seq<Turn>, i: nat, z: real, eps: real): Result<(real, nat), WindowError>
    requires IsRoot(root) && i < |turns| && eps >= 0.0
  {
    var t := turns[i];
    if !Carries(t) then Ok((0.0, 0))
    else
      var w := RoleWindow(turns, i);
      if w.Err? then Err(w.error)
      else if w.value == [] then Err(EmptyWindow)
      else if t.post.None? then Err(PostMissing)
      else
        RootPositive(root, w.value);
        Ok((Effective(root, w.value) + Route(z, t.post.value.reward - t.pre.reward, eps), |w.value|))
  }

  ghost function RoleCreditFor(
      root: real -> Magnitude, turns: seq<Turn>, i: nat, z: real, eps: real): Result<RoleCredit, WindowError>
    requires IsRoot(root) && i < |turns| && eps >= 0.0 && Classify(turns[i]).Ok?
  {
    var t := turns[i];
    var main := MainCredit(root, turns, i, z, eps);
    if main.Err? then Err(main.error)
    else
      var d, q := DecisionCredit(Classify(t).value), QueryCredit(t);
      if main.value.0 != 0.0 && (d != 0.0 || q != 0.0)
         && !(Classify(t) == Ok(NSoft) && d == 0.0 && q == -0.25) then Err(Overlap)
      else if q != 0.0 && t.queryTokens == 0 then Err(NoQuerySpan)
      else Ok(RoleCredit(main.value.0, d, q, main.value.1))
  }

  ghost predicate RolesValid(turns: seq<Turn>) { forall i | 0 <= i < |turns| :: RoleDefect(turns[i]) == None }

  ghost predicate EveryRoleCredit(root: real -> Magnitude, turns: seq<Turn>, z: real, eps: real)
    requires IsRoot(root) && eps >= 0.0 && RolesValid(turns)
  {
    forall i | 0 <= i < |turns| && turns[i].policyEligible ::
      RoleDefect(turns[i]) == None && RoleCreditFor(root, turns, i, z, eps).Ok?
  }

  method RoleLocalized(root: real -> Magnitude, turns: seq<Turn>, z: real, eps: real)
    returns (r: Result<map<nat, RoleCredit>, WindowError>)
    requires IsRoot(root) && eps >= 0.0
    ensures r.Ok? <==> RolesValid(turns) && EveryRoleCredit(root, turns, z, eps)
    ensures r.Ok? ==> forall i: nat :: i in r.value <==> i < |turns| && turns[i].policyEligible
    ensures r.Ok? ==> forall i: nat | i in r.value ::
      RoleDefect(turns[i]) == None && Ok(r.value[i]) == RoleCreditFor(root, turns, i, z, eps)
  {
    for i := 0 to |turns|
      invariant forall j | 0 <= j < i :: RoleDefect(turns[j]) == None
    {
      if RoleDefect(turns[i]).Some? { return Err(RoleDefect(turns[i]).value); }
    }
    var credits: map<nat, RoleCredit> := map[];
    for i := 0 to |turns|
      invariant forall j: nat :: j in credits <==> j < i && turns[j].policyEligible
      invariant forall j: nat | j in credits ::
        RoleDefect(turns[j]) == None && Ok(credits[j]) == RoleCreditFor(root, turns, j, z, eps)
    {
      assert RoleDefect(turns[i]) == None;
      if turns[i].policyEligible {
        var c := CreditRoleTurn(root, turns, i, z, eps);
        if c.Err? { return Err(c.error); }
        credits := credits[i := c.value];
      }
    }
    return Ok(credits);
  }

  method CreditRoleTurn(root: real -> Magnitude, turns: seq<Turn>, i: nat, z: real, eps: real)
    returns (r: Result<RoleCredit, WindowError>)
    requires IsRoot(root) && i < |turns| && eps >= 0.0 && Classify(turns[i]).Ok?
    ensures r == RoleCreditFor(root, turns, i, z, eps)
  {
    var t := turns[i];
    var decision, query := DecisionCredit(Classify(t).value), QueryCredit(t);
    var main, count := 0.0, 0;
    if Carries(t) {
      var w := AccumulateRoleWindow(turns, i);
      if w.Err? { return Err(w.error); }
      if w.value == [] { return Err(EmptyWindow); }
      if t.post.None? { return Err(PostMissing); }
      RootPositive(root, w.value);
      main := Effective(root, w.value) + Route(z, t.post.value.reward - t.pre.reward, eps);
      count := |w.value|;
    }
    var allowed := Classify(t) == Ok(NSoft) && decision == 0.0 && query == -0.25;
    if main != 0.0 && (decision != 0.0 || query != 0.0) && !allowed { return Err(Overlap); }
    if query != 0.0 && t.queryTokens == 0 { return Err(NoQuerySpan); }
    return Ok(RoleCredit(main, decision, query, count));
  }

  // ------------------------------------------------------------------- results

  /** One backward pass over the turns: sum and count of search i's window from those of
      search i + 1. */
  function Backward(turns: seq<Turn>, i: nat): (real, nat)
    requires i <= |turns|
    decreases |turns| - i
  {
    if i == |turns| || turns[i].pre.sufficient then (0.0, 0)
    else
      var (s, n) := if turns[i].After() then (0.0, 0) else Backward(turns, i + 1);
      if Counts(turns[i]) && turns[i].gain.Some? then (turns[i].gain.value + s, 1 + n) else (s, n)
  }

  /** The nested forward loops compute what a single backward pass computes. */
  lemma {:induction false} WindowIsBackwardPass(turns: seq<Turn>, i: nat)
    requires i <= |turns| && Window(turns, i).Ok?
    ensures Backward(turns, i) == (Sum(Window(turns, i).value), |Window(turns, i).value|)
    decreases |turns| - i
  {
    if i == |turns| || turns[i].pre.sufficient {
    } else {
      var here := if Counts(turns[i]) then [turns[i].gain.value] else [];
      if !turns[i].After() {
        WindowIsBackwardPass(turns, i + 1);
        SumAppend(here, Window(turns, i + 1).value);
      }
      if here != [] { SumOfOne(here[0]); }
    }
  }

  /** Turn b closes every window that reaches it. */
  predicate Boundary(t: Turn) { t.pre.sufficient || t.After() }

  /** Nothing after the first sufficiency boundary can influence an earlier turn. */
  lemma {:induction false} NothingCrossesTheBoundary(a: seq<Turn>, c: seq<Turn>, i: nat, b: nat)
    requires i <= b < |a| && b < |c| && Boundary(a[b]) && forall j | i <= j <= b :: a[j] == c[j]
    ensures Window(a, i) == Window(c, i)
    decreases b - i
  {
    if i < b && !Boundary(a[i]) { NothingCrossesTheBoundary(a, c, i + 1, b); }
  }

  /** The same backward pass for the role-localized mode. */
  function RoleBackward(turns: seq<Turn>, i: nat): (real, nat)
    requires i <= |turns|
    decreases |turns| - i
  {
    if i == |turns| || Classify(turns[i]) == Ok(SBefore) then (0.0, 0)
    else
      var (s, n) := if RoleBoundary(turns[i]) then (0.0, 0) else RoleBackward(turns, i + 1);
      if Carries(turns[i]) && turns[i].gain.Some? then (turns[i].gain.value + s, 1 + n) else (s, n)
  }

  lemma {:induction false} RoleWindowIsBackwardPass(turns: seq<Turn>, i: nat)
    requires i <= |turns| && RoleWindow(turns, i).Ok?
    ensures RoleBackward(turns, i) == (Sum(RoleWindow(turns, i).value), |RoleWindow(turns, i).value|)
    decreases |turns| - i
  {
    if i == |turns| || Classify(turns[i]) == Ok(SBefore) {
    } else if !Carries(turns[i]) {
      RoleWindowIsBackwardPass(turns, i + 1);
    } else {
      SumOfOne(turns[i].gain.value);
      if !RoleBoundary(turns[i]) {
        RoleWindowIsBackwardPass(turns, i + 1);
        SumAppend([turns[i].gain.value], RoleWindow(turns, i + 1).value);
      }
    }
  }

  lemma SumOfOne(x: real)
    ensures Sum([x]) == x
  {
    assert [x][..0] == [];
  }

  /** A turn that closes every role-localized window that reaches it: branch SBefore, or a
      classified search whose probe became sufficient.  Budget and invalid turns never do. */
  predicate RoleBoundary(t: Turn) {
    Classify(t) == Ok(SBefore) || (Carries(t) && t.post.Some? && t.post.value.sufficient)
  }

  lemma {:induction false} NothingCrossesTheRoleBoundary(a: seq<Turn>, c: seq<Turn>, i: nat, b: nat)
    requires i <= b < |a| && b < |c| && RoleBoundary(a[b]) && forall j | i <= j <= b :: a[j] == c[j]
    ensures RoleWindow(a, i) == RoleWindow(c, i)
    decreases b - i
  {
    if i < b && !RoleBoundary(a[i]) { NothingCrossesTheRoleBoundary(a, c, i + 1, b); }
  }

  /** The effective gain never exceeds the window's own energy: D^2 <= sum of squares. */
  lemma EffectiveBound(root: real -> Magnitude, values: seq<real>)
    requires IsRoot(root) && values != []
    ensures IsRootAt(root, values) && Square(Effective(root, values)) <= SumSquares(values)
  {
    RootPositive(root, values);
    CauchySchwarz(values);
    var n, s, d, q := |values| as real, root(|values| as real), Effective(root, values), SumSquares(values);
    assert d * s == Sum(values);
    SquareOfProduct(d, s, n, Sum(values));
    Cancel(n, Square(d), q);
  }

  lemma SquareOfProduct(d: real, s: real, n: real, t: real)
    requires d * s == t && Square(s) == n
    ensures n * Square(d) == t * t
  {
    assert (d * s) * (d * s) == (s * s) * (d * d);
  }

  /** A current normal search never meets an empty window, in either mode. */
  lemma WindowHoldsOwnGain(turns: seq<Turn>, i: nat)
    requires i < |turns| && !turns[i].pre.sufficient
    ensures Counts(turns[i]) && Window(turns, i).Ok? ==> Window(turns, i).value != []
    ensures Carries(turns[i]) && RoleWindow(turns, i).Ok? ==> RoleWindow(turns, i).value != []
  {
  }

  lemma {:induction false} WindowErrors(turns: seq<Turn>, i: nat)
    requires i <= |turns|
    ensures Window(turns, i).Err? ==> Window(turns, i).error == GainMissing
    ensures RoleWindow(turns, i).Err? ==> RoleWindow(turns, i).error == NotEligible
    decreases |turns| - i
  {
    if i < |turns| { WindowErrors(turns, i + 1); }
  }

  ghost predicate Bounded(root: real -> Magnitude, values: seq<real>) {
    values != [] && IsRootAt(root, values) && Square(Effective(root, values)) <= SumSquares(values)
  }

  /** The empty-window error cannot fire, and every effective gain that is handed out keeps the
      bound of its window, in either mode. */
  lemma EffectiveGainBound(root: real -> Magnitude, turns: seq<Turn>, i: nat, z: real, eps: real)
    requires IsRoot(root) && i < |turns| && eps >= 0.0
    ensures ProbeCreditFor(root, turns, i, z, eps) != Err(EmptyWindow)
    ensures MainCredit(root, turns, i, z, eps) != Err(EmptyWindow)
    ensures var credit := ProbeCreditFor(root, turns, i, z, eps);
      credit.Ok? && credit.value.Cumulative? ==>
        && Bounded(root, Window(turns, i).value)
        && Square(credit.value.effective) <= SumSquares(Window(turns, i).value)
    ensures MainCredit(root, turns, i, z, eps).Ok? && Carries(turns[i]) ==> Bounded(root, RoleWindow(turns, i).value)
  {
    WindowErrors(turns, i);
    if !turns[i].pre.sufficient {
      WindowHoldsOwnGain(turns, i);
      var w, rw := Window(turns, i), RoleWindow(turns, i);
      if w.Ok? && w.value != [] { EffectiveBound(root, w.value); }
      if rw.Ok? && rw.value != [] { EffectiveBound(root, rw.value); }
    }
  }

  /** No no-new observation, exhausted budget or invalid action anywhere. */
  predicate Ordinary(turns: seq<Turn>) {
    forall i | 0 <= i < |turns| ::
      !turns[i].budgetExhausted && !turns[i].invalid && turns[i].noNew == Some(false)
  }

  lemma {:induction false} WindowsAgree(turns: seq<Turn>, i: nat)
    requires i <= |turns| && Ordinary(turns) && RolesValid(turns) && RoleWindow(turns, i).Ok?
    ensures Window(turns, i) == RoleWindow(turns, i)
    decreases |turns| - i
  {
    if i < |turns| {
      assert RoleDefect(turns[i]) == None;
      if !turns[i].pre.sufficient && !turns[i].After() { WindowsAgree(turns, i + 1); }
    }
  }

  /** MAIN RESULT: on a trajectory of ordinary turns, whenever the role-localized mode
      accepts, the probe-routed mode accepts too and every normal search gets the same main
      credit from both. */
  lemma ModesAgree(root: real -> Magnitude, turns: seq<Turn>, z: real, eps: real)
    requires IsRoot(root) && eps >= 0.0 && Ordinary(turns)
    requires RolesValid(turns) && EveryRoleCredit(root, turns, z, eps)
    ensures StagesValid(turns) && EveryProbeCredit(root, turns, z, eps)
    ensures forall i | 0 <= i < |turns| && turns[i].policyEligible && !turns[i].pre.sufficient ::
      RoleDefect(turns[i]) == None &&
      ProbeCreditFor(root, turns, i, z, eps).value.Advantage() == RoleCreditFor(root, turns, i, z, eps).value.main
  {
    forall i | 0 <= i < |turns| ensures StageDefect(turns[i]) == None {
      assert RoleDefect(turns[i]) == None;
    }
    forall i | 0 <= i < |turns| && turns[i].policyEligible
      ensures ProbeCreditFor(root, turns, i, z, eps).Ok?
      ensures RoleDefect(turns[i]) == None
      ensures !turns[i].pre.sufficient ==>
        ProbeCreditFor(root, turns, i, z, eps).value.Advantage() == RoleCreditFor(root, turns, i, z, eps).value.main
    {
      assert RoleDefect(turns[i]) == None;
      if !turns[i].pre.sufficient { WindowsAgree(turns, i); }
    }
  }

  /** Search j is read by the window of search i: no boundary lies between them. */
  predicate Reached(turns: seq<Turn>, i: nat, j: nat)
    requires i <= j < |turns|
  {
    !turns[j].pre.sufficient && forall k | i <= k < j :: !Boundary(turns[k])
  }

  predicate Usable(t: Turn) { t.policyEligible && t.igEligible && t.gain.Some? }

  /** Every search the window of search i reads is policy eligible. */
  predicate ReadsEligible(turns: seq<Turn>, i: nat) {
    forall j | i <= j < |turns| && Reached(turns, i, j) :: turns[j].policyEligible
  }

  lemma {:induction false} RoleWindowAccepts(turns: seq<Turn>, i: nat)
    requires i <= |turns| && Ordinary(turns) && RolesValid(turns)
    ensures RoleWindow(turns, i).Ok? <==> forall j | i <= j < |turns| && Reached(turns, i, j) :: Usable(turns[j])
    decreases |turns| - i
  {
    if i < |turns| {
      assert RoleDefect(turns[i]) == None;
      assert turns[i].pre.sufficient || Reached(turns, i, i);
      RoleWindowAccepts(turns, i + 1);
      forall j | i < j < |turns| ensures Reached(turns, i, j) <==> !Boundary(turns[i]) && Reached(turns, i + 1, j) {
      }
    }
  }

  /** MAIN RESULT: on a trajectory of ordinary turns, the role-localized mode accepts exactly
      when the probe-routed mode does and no policy-eligible search's window reads a search
      that is not policy eligible; the probe-routed mode passes over such a search. */
  lemma RoleModeAcceptsIff(root: real -> Magnitude, turns: seq<Turn>, z: real, eps: real)
    requires IsRoot(root) && eps >= 0.0 && Ordinary(turns) && RolesValid(turns)
    ensures EveryRoleCredit(root, turns, z, eps) <==>
      && EveryProbeCredit(root, turns, z, eps)
      && forall i | 0 <= i < |turns| && turns[i].policyEligible && !turns[i].pre.sufficient :: ReadsEligible(turns, i)
  {
    if EveryRoleCredit(root, turns, z, eps) {
      ModesAgree(root, turns, z, eps);
      forall i | 0 <= i < |turns| && turns[i].policyEligible && !turns[i].pre.sufficient
        ensures ReadsEligible(turns, i)
      {
        assert RoleDefect(turns[i]) == None;
        RoleWindowAccepts(turns, i);
      }
    } else if forall i | 0 <= i < |turns| && turns[i].policyEligible && !turns[i].pre.sufficient ::
                ReadsEligible(turns, i)
    {
      if EveryProbeCredit(root, turns, z, eps) {
        forall i | 0 <= i < |turns| && turns[i].policyEligible
          ensures RoleDefect(turns[i]) == None && RoleCreditFor(root, turns, i, z, eps).Ok?
        {
          EligibleWindowAccepted(root, turns, i, z, eps);
        }
      }
    }
  }

  lemma EligibleWindowAccepted(root: real -> Magnitude, turns: seq<Turn>, i: nat, z: real, eps: real)
    requires IsRoot(root) && eps >= 0.0 && Ordinary(turns) && RolesValid(turns) && i < |turns|
    requires EveryProbeCredit(root, turns, z, eps) && (!turns[i].pre.sufficient ==> ReadsEligible(turns, i))
    ensures RoleDefect(turns[i]) == None && RoleCreditFor(root, turns, i, z, eps).Ok?
  {
    assert RoleDefect(turns[i]) == None;
    RoleWindowAccepts(turns, i);
    forall j | i <= j < |turns| && !turns[i].pre.sufficient && Reached(turns, i, j) ensures Usable(turns[j]) {
      assert ProbeCreditFor(root, turns, j, z, eps).Ok?;
    }
  }

  /** Of two turns only the first counts, and neither closes the window. */
  lemma OneGain(turns: seq<Turn>, gain: real)
    requires |turns| == 2 && Counts(turns[0]) && turns[0].gain == Some(gain) && !Counts(turns[1])
    requires forall t | t in turns :: !t.pre.sufficient && !t.After()
    ensures Window(turns, 0) == Ok([gain]) && Window(turns, 1) == Ok([])
  {
    CollectAssociates([gain], [], Ok([]));
    assert turns[0] in turns && turns[1] in turns;
    assert Window(turns, 2) == Ok([]);
    assert Window(turns, 1) == Collect([], Ok([]));
    assert Window(turns, 0) == Collect([gain], Ok([]));
  }

  /** A history only the probe-routed mode accepts: a later search that is not policy
      eligible and has no gain. */
  lemma RoleModeIsStricter(root: real -> Magnitude, z: real, eps: real)
    requires IsRoot(root) && eps >= 0.0
    ensures exists turns: seq<Turn> ::
      && Ordinary(turns) && RolesValid(turns) && StagesValid(turns)
      && EveryProbeCredit(root, turns, z, eps) && !EveryRoleCredit(root, turns, z, eps)
  {
    var first := Turn(true, true, true, false, false, true, Some(false), Probe(false, 0.0), Some(Probe(false, 0.0)),
                      Some(1.0), Some(1.0), false, 1, 1);
    var turns := [first, first.(policyEligible := false, igEligible := false, gain := None)];
    OneGain(turns, 1.0);
    assert Reached(turns, 0, 1) && !ReadsEligible(turns, 0);
    RoleModeAcceptsIff(root, turns, z, eps);
  }

  /** In the role-localized mode the overlap check can never fire, and the query-span check
      fires exactly for a duplicate query whose query span is empty. */
  lemma RoleChecks(root: real -> Magnitude, turns: seq<Turn>, i: nat, z: real, eps: real)
    requires IsRoot(root) && i < |turns| && eps >= 0.0 && Classify(turns[i]).Ok?
    ensures RoleCreditFor(root, turns, i, z, eps) != Err(Overlap)
    ensures MainCredit(root, turns, i, z, eps).Ok? ==>
      (RoleCreditFor(root, turns, i, z, eps) == Err(NoQuerySpan) <==>
       DuplicateQuery(turns[i]) && turns[i].queryTokens == 0)
  {
    WindowErrors(turns, i);
  }
}
