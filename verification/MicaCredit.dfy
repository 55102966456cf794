/** MICA search credit for one prompt group: prompt/depth normalisation of raw information
    gain and of its suffix returns, and the 50/50 mix of the two signals.

    The square root is any non-negative function with `root(x)^2 == x` on x >= 0;
    arithmetic is over the reals. */
module MicaCredit {
  import opened Outcome
  import opened RealSums

  datatype CreditError =
    | CardinalityMismatch | DuplicateId | GammaLocked | AlphaLocked | BadTolerance
    | BadIndices | EligibilityCoverage | RawCoverage | PeerCountsDiverged | NoPeerGroup
    | SingletonHasNoAdvantage | NegativeIndex | BadGamma | ChainResumed | Drifted

  type Magnitude = x: real | x >= 0.0

  ghost predicate IsRoot(root: real -> Magnitude) {
    forall x: real :: x >= 0.0 ==> root(x) * root(x) == x
  }

  datatype Stats = Stats(peerCount: nat, mean: real, std: Magnitude)

  function PopulationStats(root: real -> Magnitude, xs: seq<real>): Stats {
    if xs == [] then Stats(0, 0.0, 0.0) else Stats(|xs|, Mean(xs), root(Variance(xs)))
  }

  datatype Tolerance = Tolerance(epsilon: real, zeroVariance: real) {
    predicate Valid() { epsilon > 0.0 && zeroVariance >= 0.0 }
  }

  function GroupRelativeAdvantage(value: real, st: Stats, tol: Tolerance): Result<real, CreditError>
    requires tol.Valid()
  {
    if st.peerCount < 2 then Err(SingletonHasNoAdvantage)
    else if st.std * st.std <= tol.zeroVariance then Ok(0.0)
    else Ok((value - st.mean) / (st.std + tol.epsilon))
  }

  // ---------------------------------------------- what one group's signal satisfies

  /** The signal of every peer of one prompt/depth group. */
  function Signals(root: real -> Magnitude, xs: seq<real>, tol: Tolerance): (r: seq<real>)
    requires |xs| >= 2 && tol.Valid()
    ensures |r| == |xs|
    ensures forall i | 0 <= i < |xs| :: Ok(r[i]) == GroupRelativeAdvantage(xs[i], PopulationStats(root, xs), tol)
  {
    var st := PopulationStats(root, xs);
    seq(|xs|, i requires 0 <= i < |xs| => GroupRelativeAdvantage(xs[i], st, tol).value)
  }

  /** Each group's signal sums to zero: credit is only moved between peers. */
  lemma SignalsSumToZero(root: real -> Magnitude, xs: seq<real>, tol: Tolerance)
    requires IsRoot(root) && |xs| >= 2 && tol.Valid()
    ensures Sum(Signals(root, xs, tol)) == 0.0
  {
    var scale := SignalsAreScaled(root, xs, tol);
    DeviationsSumToZero(xs);
    SumTimes(Deviations(xs), Signals(root, xs, tol), scale);
    TimesAdds(0.0, 0.0, scale);
  }

  /** Normalising a group scales its deviations. */
  lemma SignalsAreScaled(root: real -> Magnitude, xs: seq<real>, tol: Tolerance) returns (scale: real)
    requires |xs| >= 2 && tol.Valid()
    ensures forall i | 0 <= i < |xs| :: Signals(root, xs, tol)[i] == Times(Deviations(xs)[i], scale)
  {
    var st := PopulationStats(root, xs);
    scale := if st.std * st.std <= tol.zeroVariance then 0.0 else 1.0 / (st.std + tol.epsilon);
    forall i | 0 <= i < |xs| ensures Signals(root, xs, tol)[i] == Times(Deviations(xs)[i], scale) {
      SignalIsScaled(xs[i], st, tol, Deviations(xs)[i], scale);
    }
  }

  lemma SignalIsScaled(value: real, st: Stats, tol: Tolerance, deviation: real, scale: real)
    requires tol.Valid() && st.peerCount >= 2 && deviation == value - st.mean
    requires scale == if st.std * st.std <= tol.zeroVariance then 0.0 else 1.0 / (st.std + tol.epsilon)
    ensures GroupRelativeAdvantage(value, st, tol) == Ok(Times(deviation, scale))
  {
    if st.std * st.std > tol.zeroVariance {
      DivideIsScale(value - st.mean, deviation, st.std + tol.epsilon, scale);
    }
  }

  lemma DivideIsScale(x: real, y: real, d: real, scale: real)
    requires x == y && d > 0.0 && scale == 1.0 / d
    ensures x / d == Times(y, scale)
  {
    assert scale * d == 1.0;
    assert (y * scale) * d == y * (scale * d);
  }

  /** No peer's signal exceeds sqrt(n - 1) in absolute value, for any tolerances. */
  lemma SignalBound(root: real -> Magnitude, xs: seq<real>, tol: Tolerance, k: nat)
    requires IsRoot(root) && |xs| >= 2 && tol.Valid() && k < |xs|
    ensures Signals(root, xs, tol)[k] * Signals(root, xs, tol)[k] <= |xs| as real - 1.0
  {
    var st := PopulationStats(root, xs);
    Samuelson(xs, k);
    VarianceTimesCount(xs);
    if st.std * st.std > tol.zeroVariance {
      RatioBound(xs[k] - st.mean, st.std, tol.epsilon, |xs| as real - 1.0);
    }
  }

  lemma RatioBound(y: real, s: real, e: real, m: real)
    requires s >= 0.0 && e > 0.0 && m >= 0.0 && y * y <= m * (s * s)
    ensures (y / (s + e)) * (y / (s + e)) <= m
  {
    var d := s + e;
    var a := y / d;
    assert a * d == y;
    assert (a * a) * (d * d) == y * y;
    assert s * s <= d * d;
    assert m * (s * s) <= m * (d * d);
    assert d * d > 0.0;
    Cancel(d * d, a * a, m);
  }

  /** The 50/50 mix of two bounded signals keeps the bound. */
  lemma MixBound(a: real, b: real, m: real)
    requires a * a <= m && b * b <= m
    ensures (0.5 * a + (1.0 - 0.5) * b) * (0.5 * a + (1.0 - 0.5) * b) <= m
  {
    var c, d := 0.5 * a + (1.0 - 0.5) * b, a - b;
    assert d * d >= 0.0;
    assert 4.0 * (c * c) == 2.0 * (a * a) + 2.0 * (b * b) - d * d;
  }

  // ---------------------------------------------------------- suffix returns

  lemma Inhabited(s: set<int>)
    ensures s == {} || exists x :: x in s
  {
    if forall x :: x !in s { assert s == {}; }
  }

  lemma {:induction false} MaxExists(s: set<int>) returns (m: int)
    requires s != {}
    ensures m in s && forall x | x in s :: x <= m
  {
    Inhabited(s);
    m :| m in s;
    if s != {m} {
      var rest := MaxExists(s - {m});
      forall x | x in s ensures x <= m || x <= rest {
        if x != m { assert x in s - {m}; }
      }
      if rest > m { m := rest; }
    }
  }

  ghost function Max(s: set<int>): (m: int)
    requires s != {}
    ensures m in s && forall x | x in s :: x <= m
  {
    assert exists m :: m in s && forall x | x in s :: x <= m by { var m := MaxExists(s); }
    var m :| m in s && forall x | x in s :: x <= m;
    m
  }

  /** The keys in increasing order. */
  ghost function Sorted(s: set<int>): seq<int>
    decreases |s|
  {
    if s == {} then [] else Sorted(s - {Max(s)}) + [Max(s)]
  }

  ghost predicate Ascending(keys: seq<int>) { forall i, j | 0 <= i < j < |keys| :: keys[i] < keys[j] }

  lemma {:induction false} SortedProperties(s: set<int>)
    ensures Ascending(Sorted(s)) && forall x :: x in Sorted(s) <==> x in s
    decreases |s|
  {
    if s != {} {
      SortedProperties(s - {Max(s)});
      assert forall i | 0 <= i < |Sorted(s - {Max(s)})| :: Sorted(s - {Max(s)})[i] in s - {Max(s)};
    }
  }

  method SortKeys(keys: set<int>) returns (r: seq<int>)
    ensures r == Sorted(keys)
    ensures Ascending(r) && forall x :: x in r <==> x in keys
  {
    r := [];
    var rest := keys;
    while rest != {}
      invariant Sorted(keys) == Sorted(rest) + r
      decreases |rest|
    {
      ghost var top := Max(rest);
      var m :| m in rest && forall x | x in rest :: x <= m;
      assert m == top;
      r := [m] + r;
      rest := rest - {m};
    }
    SortedProperties(keys);
  }

  function Pow(gamma: real, n: nat): real {
    if n == 0 then 1.0 else gamma * Pow(gamma, n - 1)
  }

  lemma {:induction false} PowAdd(gamma: real, a: nat, b: nat)
    ensures Pow(gamma, a + b) == Pow(gamma, a) * Pow(gamma, b)
  {
    if a > 0 {
      PowAdd(gamma, a - 1, b);
      assert gamma * (Pow(gamma, a - 1) * Pow(gamma, b)) == (gamma * Pow(gamma, a - 1)) * Pow(gamma, b);
    }
  }

  /** The reward at keys[u], discounted back to index keys[i]. */
  function Term(raw: map<int, real>, keys: seq<int>, gamma: real, i: nat, u: nat): real
    requires i < |keys| && u < |keys| && keys[u] >= keys[i] && keys[u] in raw
  {
    Pow(gamma, keys[u] - keys[i]) * raw[keys[u]]
  }

  /** Discounted sum of the rewards at keys[i..t], discounted back to index keys[i]. */
  ghost function Discounted(raw: map<int, real>, keys: seq<int>, gamma: real, i: nat, t: nat): real
    requires Ascending(keys) && (forall k | k in keys :: k in raw) && i < |keys| && t <= |keys|
    decreases t
  {
    if t <= i then 0.0
    else Discounted(raw, keys, gamma, i, t - 1) + Term(raw, keys, gamma, i, t - 1)
  }

  /** The return of the i-th valid index: all later rewards of the same trajectory. */
  ghost function Return(raw: map<int, real>, keys: seq<int>, gamma: real, i: nat): real
    requires Ascending(keys) && (forall k | k in keys :: k in raw) && i < |keys|
  {
    Discounted(raw, keys, gamma, i, |keys|)
  }

  ghost predicate IsReturns(raw: map<int, real>, keys: seq<int>, gamma: real, returns_: map<int, real>) {
    && Ascending(keys) && (forall k :: k in keys <==> k in raw) && returns_.Keys == raw.Keys
    && forall i | 0 <= i < |keys| :: returns_[keys[i]] == Return(raw, keys, gamma, i)
  }

  method ComputeRawIgReturns(raws: seq<map<int, real>>, gamma: real)
    returns (r: Result<seq<map<int, real>>, CreditError>)
    ensures r.Err? <==> gamma < 0.0 || exists t | 0 <= t < |raws| :: exists k :: k in raws[t] && k < 0
    ensures r.Ok? ==>
      |r.value| == |raws| && forall t | 0 <= t < |raws| :: IsReturns(raws[t], Sorted(raws[t].Keys), gamma, r.value[t])
  {
    if gamma < 0.0 { return Err(BadGamma); }
    var results: seq<map<int, real>> := [];
    for t := 0 to |raws|
      invariant ReturnsUpTo(raws, gamma, t, results)
    {
      var raw := raws[t];
      if k :| k in raw && k < 0 { return Err(NegativeIndex); }
      var ordered := SortKeys(raw.Keys);
      var returns_ := SuffixReturns(raw, ordered, gamma);
      results := results + [returns_];
    }
    return Ok(results);
  }

  /** The returns of the first `t` trajectories, none with a negative index. */
  ghost predicate ReturnsUpTo(raws: seq<map<int, real>>, gamma: real, t: nat, results: seq<map<int, real>>)
    requires t <= |raws|
  {
    |results| == t && forall u | 0 <= u < t :: ReturnsOf(raws[u], gamma, results[u])
  }

  ghost predicate ReturnsOf(raw: map<int, real>, gamma: real, returns_: map<int, real>) {
    (forall k | k in raw :: k >= 0) && IsReturns(raw, Sorted(raw.Keys), gamma, returns_)
  }

  method SuffixReturns(raw: map<int, real>, ordered: seq<int>, gamma: real) returns (r: map<int, real>)
    requires Ascending(ordered) && forall k :: k in ordered <==> k in raw
    ensures IsReturns(raw, ordered, gamma, r)
  {
    r := map[];
    for i := 0 to |ordered|
      invariant forall k :: k in r <==> k in ordered[..i]
      invariant forall j | 0 <= j < i :: ordered[j] in r && r[ordered[j]] == Return(raw, ordered, gamma, j)
    {
      var total := 0.0;
      for u := 0 to |ordered|
        invariant total == Discounted(raw, ordered, gamma, i, u)
      {
        if ordered[u] >= ordered[i] {
          total := total + Term(raw, ordered, gamma, i, u);
        }
      }
      r := r[ordered[i] := total];
    }
    assert ordered[..|ordered|] == ordered;
    assert forall k :: k in r.Keys <==> k in raw.Keys;
    assert r.Keys == raw.Keys;
  }

  /** The recursion every return satisfies, for every gamma and any gaps between valid
      indices: G_i = r_i + gamma^(next - i) * G_next, and the last return is its reward. */
  lemma ReturnRecursion(raw: map<int, real>, keys: seq<int>, gamma: real, i: nat)
    requires Ascending(keys) && (forall k | k in keys :: k in raw) && i < |keys|
    ensures Return(raw, keys, gamma, i) == raw[keys[i]] +
      if i + 1 < |keys| then Pow(gamma, keys[i + 1] - keys[i]) * Return(raw, keys, gamma, i + 1) else 0.0
  {
    if i + 1 < |keys| {
      ShiftDiscount(raw, keys, gamma, i, |keys|);
    } else {
      assert Discounted(raw, keys, gamma, i, i) == 0.0;
    }
  }

  lemma {:induction false} ShiftDiscount(raw: map<int, real>, keys: seq<int>, gamma: real, i: nat, t: nat)
    requires Ascending(keys) && (forall k | k in keys :: k in raw) && i + 1 < |keys| && i + 1 <= t <= |keys|
    ensures Discounted(raw, keys, gamma, i, t)
         == raw[keys[i]] + Pow(gamma, keys[i + 1] - keys[i]) * Discounted(raw, keys, gamma, i + 1, t)
    decreases t
  {
    if t == i + 1 {
      FirstTermOnly(raw, keys, gamma, i);
    } else {
      ShiftDiscount(raw, keys, gamma, i, t - 1);
      ShiftTerm(raw, keys, gamma, i, t - 1);
      LastTerm(raw, keys, gamma, i, t);
      LastTerm(raw, keys, gamma, i + 1, t);
      Distribute(raw[keys[i]], Pow(gamma, keys[i + 1] - keys[i]), Discounted(raw, keys, gamma, i + 1, t - 1),
                 Term(raw, keys, gamma, i + 1, t - 1));
    }
  }

  lemma FirstTermOnly(raw: map<int, real>, keys: seq<int>, gamma: real, i: nat)
    requires Ascending(keys) && (forall k | k in keys :: k in raw) && i + 1 < |keys|
    ensures Discounted(raw, keys, gamma, i, i + 1) == raw[keys[i]]
    ensures Discounted(raw, keys, gamma, i + 1, i + 1) == 0.0
    ensures Pow(gamma, keys[i + 1] - keys[i]) * Discounted(raw, keys, gamma, i + 1, i + 1) == 0.0
  {
    assert keys[i] in keys;
    assert Discounted(raw, keys, gamma, i, i + 1) == Discounted(raw, keys, gamma, i, i) + Term(raw, keys, gamma, i, i);
    assert Pow(gamma, keys[i] - keys[i]) == 1.0;
  }

  lemma LastTerm(raw: map<int, real>, keys: seq<int>, gamma: real, i: nat, t: nat)
    requires Ascending(keys) && (forall k | k in keys :: k in raw) && i < |keys| && i < t <= |keys|
    ensures Discounted(raw, keys, gamma, i, t)
            == Discounted(raw, keys, gamma, i, t - 1) + Term(raw, keys, gamma, i, t - 1)
  {
  }

  lemma ShiftTerm(raw: map<int, real>, keys: seq<int>, gamma: real, i: nat, u: nat)
    requires Ascending(keys) && i + 1 <= u < |keys| && keys[u] in raw
    ensures Term(raw, keys, gamma, i, u) == Pow(gamma, keys[i + 1] - keys[i]) * Term(raw, keys, gamma, i + 1, u)
  {
    var a, b, x := Pow(gamma, keys[i + 1] - keys[i]), Pow(gamma, keys[u] - keys[i + 1]), raw[keys[u]];
    PowAdd(gamma, keys[i + 1] - keys[i], keys[u] - keys[i + 1]);
    assert (a * b) * x == a * (b * x);
  }

  lemma Distribute(r: real, a: real, x: real, y: real)
    ensures r + a * (x + y) == (r + a * x) + a * y
  {
  }

  // -------------------------------------------- rewards from prefix scores

  /** Immediate information gain: differences of consecutive prefix scores. */
  function ImmediateIg(scores: seq<real>): (r: seq<real>)
    ensures |r| == if |scores| < 2 then 0 else |scores| - 1
    ensures forall j | 0 <= j < |r| :: r[j] == scores[j + 1] - scores[j]
  {
    if |scores| < 2 then []
    else seq(|scores| - 1, j requires 0 <= j < |scores| - 1 => scores[j + 1] - scores[j])
  }

  function TelescopingError(scores: seq<real>, ig: seq<real>): Result<real, CreditError> {
    if |scores| != |ig| + 1 then Err(CardinalityMismatch)
    else
      var d := Sum(ig) - (scores[|scores| - 1] - scores[0]);
      Ok(if d < 0.0 then -d else d)
  }

  lemma {:induction false} IgTelescopes(scores: seq<real>)
    requires scores != []
    ensures Sum(ImmediateIg(scores)) == scores[|scores| - 1] - scores[0]
    ensures TelescopingError(scores, ImmediateIg(scores)) == Ok(0.0)
  {
    if |scores| >= 2 {
      IgTelescopes(scores[..|scores| - 1]);
      IgFront(scores);
    }
  }

  lemma IgFront(scores: seq<real>)
    requires |scores| >= 2
    ensures Sum(ImmediateIg(scores))
            == Sum(ImmediateIg(scores[..|scores| - 1])) + (scores[|scores| - 1] - scores[|scores| - 2])
  {
    assert ImmediateIg(scores)[..|scores| - 2] == ImmediateIg(scores[..|scores| - 1]);
  }

  /** With gamma = 1 and rewards from prefix scores, the return of search t is the last
      prefix score minus the score before search t. */
  lemma {:induction false} ReturnIsScoreDifference(scores: seq<real>, raw: map<int, real>, keys: seq<int>, i: nat)
    requires |scores| >= 2 && |keys| == |scores| - 1 && i < |keys|
    requires forall j | 0 <= j < |keys| :: keys[j] == j && j in raw && raw[j] == ImmediateIg(scores)[j]
    ensures Ascending(keys) && forall k | k in keys :: k in raw
    ensures Return(raw, keys, 1.0, i) == scores[|scores| - 1] - scores[i]
    decreases |keys| - i
  {
    ReturnRecursion(raw, keys, 1.0, i);
    if i + 1 < |keys| {
      ReturnIsScoreDifference(scores, raw, keys, i + 1);
      UnitPow(keys[i + 1] - keys[i], Return(raw, keys, 1.0, i + 1));
    }
  }

  lemma UnitPow(n: int, x: real)
    requires n == 1
    ensures Pow(1.0, n) * x == x
  {
    assert Pow(1.0, 0) == 1.0;
  }
}
