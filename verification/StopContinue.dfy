/** Stop/Continue consensus credit: each pre-search state compares one continue reward with
    two stop rewards, scaled by the spread pooled over its prompt and search index. */
module StopContinue {
  import opened Outcome
  import opened RealSums
  import opened MicaCredit

  datatype SCError =
    | GroupTooSmall | BadEpsilon | NoStates | EmptyIdentifier | NegativeSearchIndex | WrongCompletions
    | BadProvenance | Truncated | Attached | PolicyVersions | ScorerVersions | Duplicate | Coverage | OutcomeMissing

  type Key = (string, string, int)

  datatype Triple = Triple(
    prompt: string, trajectory: string, searchIndex: int,
    continueReward: real, stop1: real, stop2: real,
    scorers: (string, string, string), policies: (int, int, int, int),
    completions: int, provenanceValid: bool, truncated: bool, detached: bool)
  {
    function StateKey(): Key { (prompt, trajectory, searchIndex) }
    function Pool(): (string, int) { (prompt, searchIndex) }
    function Delta(): real { continueReward - 0.5 * (stop1 + stop2) }

    predicate ClearPositive(eps: real) { continueReward > (if stop1 >= stop2 then stop1 else stop2) + eps }
    predicate ClearNegative(eps: real) { continueReward < (if stop1 <= stop2 then stop1 else stop2) - eps }

    /** Detached, untruncated, one policy version, one scorer: in the order the source tests. */
    function Defect(): Option<SCError> {
      if prompt == "" || trajectory == "" then Some(EmptyIdentifier)
      else if searchIndex < 0 then Some(NegativeSearchIndex)
      else if completions != 2 then Some(WrongCompletions)
      else if !provenanceValid then Some(BadProvenance)
      else if truncated then Some(Truncated)
      else if !detached then Some(Attached)
      else if !(policies.0 == policies.1 == policies.2 == policies.3) then Some(PolicyVersions)
      else if !(scorers.0 == scorers.1 == scorers.2) then Some(ScorerVersions)
      else None
    }
  }

  datatype Advantage = Advantage(
    delta: real, scale: real, raw: real, advantage: real, clearPositive: bool, clearNegative: bool,
    task: real, clipBound: real, clipped: bool)

  // ------------------------------------------------------------------ the spread

  /** The states of one prompt and search index, in input order. */
  function Pooled(rewards: seq<Triple>, pool: (string, int)): seq<Triple> {
    if rewards == [] then []
    else
      var last := rewards[|rewards| - 1];
      Pooled(rewards[..|rewards| - 1], pool) + if last.Pool() == pool then [last] else []
  }

  /** All three rewards of every state of the group. */
  function Flat(group: seq<Triple>): (r: seq<real>)
    ensures |r| == 3 * |group|
  {
    if group == [] then []
    else
      var last := group[|group| - 1];
      Flat(group[..|group| - 1]) + [last.continueReward, last.stop1, last.stop2]
  }

  function Scale(root: real -> Magnitude, group: seq<Triple>): Magnitude
    requires group != []
  {
    root(Variance(Flat(group)))
  }

  function Clip(x: real, bound: real): real
    requires bound >= 0.0
  {
    if x < -bound then -bound else if x > bound then bound else x
  }

  function Credit(
      root: real -> Magnitude, group: seq<Triple>, t: Triple, eps: real, scaleEps: real, bound: real): Advantage
    requires group != [] && scaleEps > 0.0 && bound >= 0.0
  {
    var scale := Scale(root, group);
    var raw := t.Delta() / (scale + scaleEps);
    var a := Clip(raw, bound);
    var pos, neg := t.ClearPositive(eps), t.ClearNegative(eps);
    Advantage(t.Delta(), scale, raw, a, pos, neg, if pos || neg then a else 0.0, bound, raw != a)
  }

  /** Sum of squared deviations dominates the share of any one state. */
  lemma {:induction false} OwnShare(group: seq<Triple>, k: nat, mu: real)
    requires k < |group|
    ensures var t := group[k];
      Square(t.continueReward - mu) + Square(t.stop1 - mu) + Square(t.stop2 - mu)
        <= SumSquares(Affine(Flat(group), mu, 1.0))
  {
    var front, last := group[..|group| - 1], group[|group| - 1];
    var ends := [last.continueReward, last.stop1, last.stop2];
    AffineSquaresAppend(Flat(front), ends, mu);
    ThreeSquares(ends, mu);
    SumSquaresNonNegative(Affine(Flat(front), mu, 1.0));
    if k < |group| - 1 { OwnShare(front, k, mu); }
  }

  lemma AffineSquaresAppend(a: seq<real>, b: seq<real>, mu: real)
    ensures SumSquares(Affine(a + b, mu, 1.0)) == SumSquares(Affine(a, mu, 1.0)) + SumSquares(Affine(b, mu, 1.0))
  {
    assert Affine(a + b, mu, 1.0) == Affine(a, mu, 1.0) + Affine(b, mu, 1.0);
    assert Squares(Affine(a, mu, 1.0) + Affine(b, mu, 1.0))
        == Squares(Affine(a, mu, 1.0)) + Squares(Affine(b, mu, 1.0));
    SumAppend(Squares(Affine(a, mu, 1.0)), Squares(Affine(b, mu, 1.0)));
  }

  lemma ThreeSquares(xs: seq<real>, mu: real)
    requires |xs| == 3
    ensures SumSquares(Affine(xs, mu, 1.0)) == Square(xs[0] - mu) + Square(xs[1] - mu) + Square(xs[2] - mu)
  {
    var s := Squares(Affine(xs, mu, 1.0));
    assert s == [Square(xs[0] - mu)] + ([Square(xs[1] - mu)] + ([Square(xs[2] - mu)] + []));
    SumCons(Square(xs[2] - mu), []);
    SumCons(Square(xs[1] - mu), [Square(xs[2] - mu)] + []);
    SumCons(Square(xs[0] - mu), [Square(xs[1] - mu)] + ([Square(xs[2] - mu)] + []));
  }

  /** (x - (y + z)/2)^2 <= 3/2 (x^2 + y^2 + z^2). */
  lemma ContrastBound(x: real, y: real, z: real)
    ensures Square(x - 0.5 * (y + z)) <= 1.5 * (Square(x) + Square(y) + Square(z))
  {
    assert 1.5 * (x * x + y * y + z * z) - (x - 0.5 * (y + z)) * (x - 0.5 * (y + z))
        == 0.5 * ((x + y + z) * (x + y + z)) + 0.75 * ((y - z) * (y - z));
    assert Square(x + y + z) >= 0.0 && Square(y - z) >= 0.0;
  }

  /** In a group of m states, delta^2 <= 9/2 * m * scale^2. */
  lemma DeltaBound(root: real -> Magnitude, group: seq<Triple>, k: nat)
    requires IsRoot(root) && k < |group|
    ensures Square(group[k].Delta()) <= 4.5 * (|group| as real) * Square(Scale(root, group))
  {
    var spread := SpreadCovers(group, k);
    VarianceTimesCount(Flat(group));
    ScaleSquared(root, group);
    TripleCount(|Flat(group)| as real, |group| as real, Variance(Flat(group)), spread);
  }

  lemma TripleCount(n: real, m: real, v: real, spread: real)
    requires n == 3.0 * m && n * v == spread
    ensures 1.5 * spread == 4.5 * m * v
  {
  }

  /** A state's contrast is covered by its group's squared deviations. */
  lemma SpreadCovers(group: seq<Triple>, k: nat) returns (spread: real)
    requires k < |group|
    ensures spread == SumSquares(Deviations(Flat(group))) && Square(group[k].Delta()) <= 1.5 * spread
  {
    var t, xs := group[k], Flat(group);
    var mu := Mean(xs);
    OwnShare(group, k, mu);
    assert Deviations(xs) == Affine(xs, mu, 1.0);
    ContrastBound(t.continueReward - mu, t.stop1 - mu, t.stop2 - mu);
    assert t.Delta() == (t.continueReward - mu) - 0.5 * ((t.stop1 - mu) + (t.stop2 - mu));
    spread := SumSquares(Deviations(xs));
  }

  // ----------------------------------------------------------------- clipping

  lemma SquareRootOrder(x: real, b: real)
    requires b >= 0.0 && Square(x) <= Square(b)
    ensures -b <= x <= b
  {
    assert Square(-x) == Square(x);
    if x > b { StrictSquares(b, x); }
    if x < -b { StrictSquares(b, -x); }
  }

  lemma StrictSquares(b: real, x: real)
    requires 0.0 <= b < x
    ensures Square(b) < Square(x)
  {
    var p, q := x - b, x + b;
    assert p * q == Square(x) - Square(b);
    PositiveProduct(p, q);
  }

  lemma PositiveProduct(p: real, q: real)
    requires p > 0.0 && q > 0.0
    ensures p * q > 0.0
  {
  }

  lemma StrictRoot(x: real, c: real)
    requires c >= 0.0 && Square(x) < Square(c)
    ensures x < c
  {
    if x > c { StrictSquares(c, x); }
  }

  /** The largest raw advantage a group of m states can show: raw^2 <= 9/2 * m. */
  lemma RawBound(root: real -> Magnitude, group: seq<Triple>, k: nat, eps: real, scaleEps: real, bound: real)
    requires IsRoot(root) && k < |group| && scaleEps > 0.0 && bound >= 0.0
    ensures Square(Credit(root, group, group[k], eps, scaleEps, bound).raw) <= 4.5 * (|group| as real)
  {
    DeltaBound(root, group, k);
    RatioBound(group[k].Delta(), Scale(root, group), scaleEps, 4.5 * (|group| as real));
  }

  /** With 9m <= 2(G - 1), clipping at sqrt(G - 1) never changes a credit. */
  lemma ClippingNeverBinds(
      root: real -> Magnitude, group: seq<Triple>, k: nat, eps: real, scaleEps: real, groupSize: nat)
    requires IsRoot(root) && k < |group| && scaleEps > 0.0 && groupSize >= 2
    requires 9 * |group| <= 2 * (groupSize - 1)
    ensures !Credit(root, group, group[k], eps, scaleEps, root((groupSize - 1) as real)).clipped
  {
    var bound := root((groupSize - 1) as real);
    RawBound(root, group, k, eps, scaleEps, bound);
    assert Square(bound) == (groupSize - 1) as real;
    SquareRootOrder(Credit(root, group, group[k], eps, scaleEps, bound).raw, bound);
  }

  /** A clear state's task credit has the sign of its preference, clipped or not; an unclear
      state gets none. */
  lemma ClearStatesKeepTheirSign(
      root: real -> Magnitude, group: seq<Triple>, t: Triple, eps: real, scaleEps: real, bound: real)
    requires group != [] && eps > 0.0 && scaleEps > 0.0 && bound > 0.0
    ensures var c := Credit(root, group, t, eps, scaleEps, bound);
      && !(c.clearPositive && c.clearNegative)
      && (c.clearPositive ==> c.task > 0.0) && (c.clearNegative ==> c.task < 0.0)
      && (!c.clearPositive && !c.clearNegative ==> c.task == 0.0)
      && -bound <= c.task <= bound
  {
    var scale := Scale(root, group) + scaleEps;
    SignOfRatio(t.Delta(), scale);
  }

  lemma SignOfRatio(x: real, d: real)
    requires d > 0.0
    ensures (x > 0.0 ==> x / d > 0.0) && (x < 0.0 ==> x / d < 0.0)
  {
    assert (x / d) * d == x;
  }

  // ------------------------------------------------ the bound is the best possible

  function State(index: nat, c: real, s: real): Triple {
    Triple("p", seq(index + 1, _ => 't'), 0, c, s, s, ("v", "v", "v"), (0, 0, 0, 0), 2, true, false, true)
  }

  /** m states of one prompt and search: one with rewards (2x, -x, -x), the others all zero. */
  function Extreme(m: nat, x: real): (r: seq<Triple>)
    requires m > 0
    ensures |r| == m && r[0] == State(0, 2.0 * x, -x)
    ensures forall i | 0 < i < m :: r[i] == State(i, 0.0, 0.0)
  {
    if m == 1 then [State(0, 2.0 * x, -x)] else Extreme(m - 1, x) + [State(m - 1, 0.0, 0.0)]
  }

  lemma {:induction false} ExtremeSums(m: nat, x: real)
    requires m > 0
    ensures Sum(Flat(Extreme(m, x))) == 0.0
    ensures SumSquares(Affine(Flat(Extreme(m, x)), 0.0, 1.0)) == 6.0 * Square(x)
  {
    if m == 1 {
      ExtremeOne(x);
    } else {
      ExtremeSums(m - 1, x);
      assert Extreme(m, x)[..m - 1] == Extreme(m - 1, x);
      ZerosAddNothing(Flat(Extreme(m - 1, x)));
    }
  }

  lemma ExtremeOne(x: real)
    ensures Sum(Flat(Extreme(1, x))) == 0.0
    ensures SumSquares(Affine(Flat(Extreme(1, x)), 0.0, 1.0)) == 6.0 * Square(x)
  {
    FlatOne(Extreme(1, x));
    SumThree(2.0 * x, -x, -x);
    SquaresOfThree(2.0 * x, -x, -x);
    SixFold(x);
  }

  lemma FlatOne(group: seq<Triple>)
    requires |group| == 1
    ensures Flat(group) == [group[0].continueReward, group[0].stop1, group[0].stop2]
  {
    assert group[..0] == [];
  }

  lemma SquaresOfThree(a: real, b: real, c: real)
    ensures SumSquares(Affine([a, b, c], 0.0, 1.0)) == Square(a) + Square(b) + Square(c)
  {
    ThreeSquares([a, b, c], 0.0);
  }

  lemma SixFold(x: real)
    ensures Square(2.0 * x) + Square(-x) + Square(-x) == 6.0 * Square(x)
  {
  }

  lemma ZerosAddNothing(xs: seq<real>)
    ensures Sum(xs + [0.0, 0.0, 0.0]) == Sum(xs)
    ensures SumSquares(Affine(xs + [0.0, 0.0, 0.0], 0.0, 1.0)) == SumSquares(Affine(xs, 0.0, 1.0))
  {
    SumAppend(xs, [0.0, 0.0, 0.0]);
    SumThree(0.0, 0.0, 0.0);
    AffineSquaresAppend(xs, [0.0, 0.0, 0.0], 0.0);
    ThreeSquares([0.0, 0.0, 0.0], 0.0);
  }

  lemma SumThree(a: real, b: real, c: real)
    ensures Sum([a, b, c]) == a + b + c
  {
    assert [a, b, c] == [a] + ([b] + ([c] + []));
    SumCons(c, []);
    SumCons(b, [c] + []);
    SumCons(a, [b] + ([c] + []));
  }

  /** The extreme group meets DeltaBound with equality: delta^2 = 9/2 * m * scale^2. */
  lemma DeltaBoundIsTight(root: real -> Magnitude, m: nat, x: real)
    requires IsRoot(root) && m > 0
    ensures Extreme(m, x)[0].Delta() == 3.0 * x
    ensures (m as real) * Square(Scale(root, Extreme(m, x))) == 2.0 * Square(x)
    ensures Square(Extreme(m, x)[0].Delta()) == 4.5 * ((m as real) * Square(Scale(root, Extreme(m, x))))
  {
    var spread := ExtremeScale(root, m, x);
    assert spread == (m as real) * Square(Scale(root, Extreme(m, x)));
    FirstDelta(m, x);
    Tight(spread, x);
  }

  function Weighted(m: real, s: real): real { m * Square(s) }

  lemma FirstDelta(m: nat, x: real)
    requires m > 0
    ensures Extreme(m, x)[0].Delta() == 3.0 * x
  {
    assert Extreme(m, x)[0] == State(0, 2.0 * x, -x);
  }

  lemma ExtremeScale(root: real -> Magnitude, m: nat, x: real) returns (spread: real)
    requires IsRoot(root) && m > 0
    ensures spread == Weighted(m as real, Scale(root, Extreme(m, x))) && spread == 2.0 * Square(x)
  {
    var v := ExtremeVariance(m, x);
    ScaleSquared(root, Extreme(m, x));
    spread := WeightedBy(m as real, Scale(root, Extreme(m, x)), v);
  }

  lemma WeightedBy(m: real, s: real, v: real) returns (w: real)
    requires Square(s) == v
    ensures w == Weighted(m, s) && w == m * v
  {
    w := m * v;
  }

  lemma ScaleSquared(root: real -> Magnitude, group: seq<Triple>)
    requires IsRoot(root) && group != [] && Variance(Flat(group)) >= 0.0
    ensures Square(Scale(root, group)) == Variance(Flat(group))
  {
  }

  lemma Tight(spread: real, x: real)
    requires spread == 2.0 * Square(x)
    ensures Square(3.0 * x) == 4.5 * spread
  {
    NineFold(x);
  }

  lemma ExtremeVariance(m: nat, x: real) returns (v: real)
    requires m > 0
    ensures v == Variance(Flat(Extreme(m, x))) && v >= 0.0 && (m as real) * v == 2.0 * Square(x)
  {
    var xs := Flat(Extreme(m, x));
    var q := ExtremeSpread(m, x);
    assert |xs| == 3 * m;
    v := VarianceOfTriples(xs, m, q, Square(x));
  }

  lemma VarianceOfTriples(xs: seq<real>, m: nat, q: real, y: real) returns (v: real)
    requires m > 0 && |xs| == 3 * m && q == SumSquares(Deviations(xs)) && q == 6.0 * y
    ensures v == Variance(xs) && v >= 0.0 && (m as real) * v == 2.0 * y
  {
    VarianceTimesCount(xs);
    v := Variance(xs);
    var n, r := |xs| as real, m as real;
    assert n == 3.0 * r && n * v == q;
    Third(n, r, v, q, y);
  }

  lemma ExtremeSpread(m: nat, x: real) returns (q: real)
    requires m > 0
    ensures q == SumSquares(Deviations(Flat(Extreme(m, x)))) && q == 6.0 * Square(x)
  {
    var xs := Flat(Extreme(m, x));
    ExtremeSums(m, x);
    assert Mean(xs) == 0.0;
    assert Deviations(xs) == Affine(xs, 0.0, 1.0);
    q := SumSquares(Deviations(xs));
  }

  lemma Third(n: real, m: real, v: real, q: real, y: real)
    requires n == 3.0 * m && n * v == q && q == 6.0 * y
    ensures m * v == 2.0 * y
  {
    assert n * v == 3.0 * (m * v);
  }

  lemma NineFold(x: real)
    ensures Square(3.0 * x) == 9.0 * Square(x)
  {
  }

  /** Beyond 9m <= 2(G - 1) clipping can bind: some group of m states is clipped.  Together
      with ClippingNeverBinds this makes the condition exact. */
  lemma ClippingCanBind(root: real -> Magnitude, m: nat, eps: real, scaleEps: real, groupSize: nat) returns (x: real)
    requires IsRoot(root) && m > 0 && scaleEps > 0.0 && groupSize >= 2
    requires 9 * m > 2 * (groupSize - 1)
    ensures Credit(root, Extreme(m, x), Extreme(m, x)[0], eps, scaleEps, root((groupSize - 1) as real)).clipped
  {
    var bound := RootOf(root, (groupSize - 1) as real);
    var unit := UnitRoot(root, m as real);
    BelowThree(bound, unit, m as real, (groupSize - 1) as real);
    x := LargeEnough(bound, unit, scaleEps);
    ExtremeRatio(root, m, x, unit, scaleEps, bound);
  }

  lemma RootOf(root: real -> Magnitude, v: real) returns (r: real)
    requires IsRoot(root) && v >= 0.0
    ensures r == root(v) && r >= 0.0 && Square(r) == v
  {
    r := root(v);
  }

  lemma UnitRoot(root: real -> Magnitude, m: real) returns (u: real)
    requires IsRoot(root) && m > 0.0
    ensures u >= 0.0 && Weighted(m, u) == 2.0
  {
    u := RootOf(root, 2.0 / m);
  }

  lemma ExtremeRatio(root: real -> Magnitude, m: nat, x: real, unit: real, scaleEps: real, bound: real)
    requires IsRoot(root) && m > 0 && x > 0.0 && unit >= 0.0 && scaleEps > 0.0 && bound >= 0.0
    requires Weighted(m as real, unit) == 2.0 && 3.0 * x > bound * (x * unit + scaleEps)
    ensures Extreme(m, x)[0].Delta() / (Scale(root, Extreme(m, x)) + scaleEps) > bound
  {
    var spread := ExtremeScale(root, m, x);
    FirstDelta(m, x);
    ScaledRatio(Extreme(m, x)[0].Delta(), m as real, Scale(root, Extreme(m, x)), x, unit, scaleEps, bound);
  }

  lemma ScaledRatio(y: real, m: real, s: real, x: real, u: real, e: real, b: real)
    requires m > 0.0 && s >= 0.0 && x > 0.0 && u >= 0.0 && e > 0.0 && b >= 0.0
    requires Weighted(m, s) == 2.0 * Square(x) && Weighted(m, u) == 2.0 && y == 3.0 * x && 3.0 * x > b * (x * u + e)
    ensures y / (s + e) > b
  {
    SameMagnitude(m, s, x, u);
    RatioExceeds(y, s + e, b);
  }

  lemma BelowThree(b: real, u: real, m: real, g: real)
    requires b >= 0.0 && u >= 0.0 && m > 0.0 && Square(b) == g && Weighted(m, u) == 2.0 && 9.0 * m > 2.0 * g
    ensures 0.0 <= b * u < 3.0
  {
    assert m * Square(b * u) == Square(b) * (m * Square(u));
    assert Square(b * u) == (2.0 * g) / m;
    assert 9.0 - Square(b * u) == (9.0 * m - 2.0 * g) / m;
    assert Square(3.0) == 9.0;
    StrictRoot(b * u, 3.0);
  }

  lemma LargeEnough(b: real, u: real, e: real) returns (x: real)
    requires b >= 0.0 && 0.0 <= b * u < 3.0 && e > 0.0
    ensures x > 0.0 && 3.0 * x > b * (x * u + e)
  {
    var gap := 3.0 - b * u;
    x := b * e / gap + 1.0;
    assert b * e >= 0.0;
    assert x * gap == b * e + gap;
    assert b * (x * u + e) == x * (b * u) + b * e;
    assert x * gap == 3.0 * x - x * (b * u);
  }

  /** Square roots are unique: a magnitude with m * s^2 = 2 x^2 is x times one with m * u^2 = 2. */
  lemma SameMagnitude(m: real, s: real, x: real, u: real)
    requires m > 0.0 && s >= 0.0 && x > 0.0 && u >= 0.0 && Weighted(m, s) == 2.0 * Square(x) && Weighted(m, u) == 2.0
    ensures s == x * u
  {
    assert m * Square(x * u) == Square(x) * (m * Square(u));
    assert Square(s) == Square(x * u) by { Cancel(m, Square(s), Square(x * u)); Cancel(m, Square(x * u), Square(s)); }
    assert x * u >= 0.0;
    SquareRootOrder(s, x * u);
    SquareRootOrder(x * u, s);
  }

  lemma RatioExceeds(y: real, d: real, b: real)
    requires d > 0.0 && y > b * d
    ensures y / d > b
  {
    assert y / d - b == (y - b * d) / d;
  }

  // ------------------------------------------------------------ the computation

  datatype Settings = Settings(
    groupSize: int, rewardEps: real, scaleEps: real, policy: Option<int>, scorer: Option<string>)

  predicate Admissible(t: Triple, cfg: Settings) {
    && t.Defect() == None
    && (cfg.policy.Some? ==> t.policies.0 == cfg.policy.value)
    && (cfg.scorer.Some? ==> t.scorers.0 == cfg.scorer.value)
  }

  ghost predicate TriplesValid(rewards: seq<Triple>, cfg: Settings) {
    && (forall i | 0 <= i < |rewards| :: Admissible(rewards[i], cfg))
    && (forall i, j | 0 <= i < j < |rewards| :: rewards[i].StateKey() != rewards[j].StateKey())
  }

  ghost predicate Covers(rewards: seq<Triple>, expected: set<Key>) {
    && (forall i | 0 <= i < |rewards| :: rewards[i].StateKey() in expected)
    && (forall k | k in expected :: exists i :: 0 <= i < |rewards| && rewards[i].StateKey() == k)
  }

  predicate OneVersion(rewards: seq<Triple>) {
    forall i | 0 <= i < |rewards| ::
      rewards[i].scorers.0 == rewards[0].scorers.0 && rewards[i].policies.0 == rewards[0].policies.0
  }

  ghost predicate InputsValid(
      rewards: seq<Triple>, outcomes: map<(string, string), real>, expected: set<Key>, cfg: Settings)
  {
    && cfg.groupSize >= 2 && cfg.rewardEps > 0.0 && cfg.scaleEps > 0.0 && expected != {}
    && TriplesValid(rewards, cfg) && Covers(rewards, expected) && OneVersion(rewards)
    && (forall i | 0 <= i < |rewards| :: (rewards[i].prompt, rewards[i].trajectory) in outcomes)
  }

  /** Every triple is sound on its own and no state appears twice. */
  method CheckTriples(rewards: seq<Triple>, cfg: Settings) returns (e: Option<SCError>, seen: set<Key>)
    ensures e == None <==> TriplesValid(rewards, cfg)
    ensures e == None ==> forall i | 0 <= i < |rewards| :: rewards[i].StateKey() in seen
    ensures e == None ==> forall k | k in seen :: exists i :: 0 <= i < |rewards| && rewards[i].StateKey() == k
  {
    seen := {};
    for i := 0 to |rewards|
      invariant forall j | 0 <= j < i :: Admissible(rewards[j], cfg) && rewards[j].StateKey() in seen
      invariant forall k | k in seen :: exists j :: 0 <= j < i && rewards[j].StateKey() == k
      invariant forall j, k | 0 <= j < k < i :: rewards[j].StateKey() != rewards[k].StateKey()
    {
      var t := rewards[i];
      if t.Defect().Some? { return t.Defect(), seen; }
      if cfg.policy.Some? && t.policies.0 != cfg.policy.value { return Some(PolicyVersions), seen; }
      if cfg.scorer.Some? && t.scorers.0 != cfg.scorer.value { return Some(ScorerVersions), seen; }
      if t.StateKey() in seen { return Some(Duplicate), seen; }
      seen := seen + {t.StateKey()};
    }
    return None, seen;
  }

  method CheckInputs(rewards: seq<Triple>, outcomes: map<(string, string), real>, expected: set<Key>, cfg: Settings)
    returns (e: Option<SCError>)
    ensures e == None <==> InputsValid(rewards, outcomes, expected, cfg)
  {
    if cfg.groupSize < 2 { return Some(GroupTooSmall); }
    if cfg.rewardEps <= 0.0 || cfg.scaleEps <= 0.0 { return Some(BadEpsilon); }
    if expected == {} { return Some(NoStates); }
    var seen;
    e, seen := CheckTriples(rewards, cfg);
    if e.Some? { return e; }
    if exists i | 0 <= i < |rewards| :: rewards[i].StateKey() !in expected { return Some(Coverage); }
    if exists k | k in expected :: k !in seen { return Some(Coverage); }
    if exists i | 0 <= i < |rewards| :: rewards[i].scorers.0 != rewards[0].scorers.0 { return Some(ScorerVersions); }
    if exists i | 0 <= i < |rewards| :: rewards[i].policies.0 != rewards[0].policies.0 { return Some(PolicyVersions); }
    if exists i | 0 <= i < |rewards| :: (rewards[i].prompt, rewards[i].trajectory) !in outcomes {
      return Some(OutcomeMissing);
    }
    return None;
  }

  /** The i-th state's credit from the spread of its own prompt and search index. */
  ghost predicate IsCredit(root: real -> Magnitude, rewards: seq<Triple>, cfg: Settings, i: nat, c: Advantage)
    requires i < |rewards| && cfg.scaleEps > 0.0
  {
    var pool := Pooled(rewards, rewards[i].Pool());
    pool != [] && c == Credit(root, pool, rewards[i], cfg.rewardEps, cfg.scaleEps, root((cfg.groupSize - 1) as real))
  }

  /** Every expected state, and no other, gets its credit from the spread of its own group. */
  method ComputeStopContinue(
      root: real -> Magnitude, rewards: seq<Triple>, outcomes: map<(string, string), real>, expected: set<Key>,
      cfg: Settings)
    returns (r: Result<map<Key, Advantage>, SCError>)
    ensures r.Ok? <==> InputsValid(rewards, outcomes, expected, cfg)
    ensures r.Ok? ==> forall k :: k in r.value <==> k in expected
    ensures r.Ok? ==> forall i | 0 <= i < |rewards| ::
      rewards[i].StateKey() in r.value && IsCredit(root, rewards, cfg, i, r.value[rewards[i].StateKey()])
  {
    var e := CheckInputs(rewards, outcomes, expected, cfg);
    if e.Some? { return Err(e.value); }
    var groups := Group(rewards);
    var results: map<Key, Advantage> := map[];
    for i := 0 to |rewards|
      invariant forall k | k in results :: k in expected
      invariant forall j | 0 <= j < i ::
        rewards[j].StateKey() in results && IsCredit(root, rewards, cfg, j, results[rewards[j].StateKey()])
    {
      var c := CreditState(root, rewards, groups, cfg, i);
      results := results[rewards[i].StateKey() := c];
    }
    return Ok(results);
  }

  method CreditState(
      root: real -> Magnitude, rewards: seq<Triple>, groups: map<(string, int), seq<Triple>>, cfg: Settings, i: nat)
    returns (c: Advantage)
    requires i < |rewards| && cfg.scaleEps > 0.0
    requires Members(groups, rewards[i].Pool()) == Pooled(rewards, rewards[i].Pool())
    ensures IsCredit(root, rewards, cfg, i, c)
  {
    var t := rewards[i];
    InOwnPool(rewards, i);
    c := Credit(root, groups[t.Pool()], t, cfg.rewardEps, cfg.scaleEps, root((cfg.groupSize - 1) as real));
  }

  function Members(groups: map<(string, int), seq<Triple>>, pool: (string, int)): seq<Triple> {
    if pool in groups then groups[pool] else []
  }

  method Group(rewards: seq<Triple>) returns (groups: map<(string, int), seq<Triple>>)
    ensures forall pool :: Members(groups, pool) == Pooled(rewards, pool)
  {
    groups := map[];
    for i := 0 to |rewards|
      invariant forall pool :: Members(groups, pool) == Pooled(rewards[..i], pool)
    {
      assert rewards[..i + 1][..i] == rewards[..i];
      groups := groups[rewards[i].Pool() := Members(groups, rewards[i].Pool()) + [rewards[i]]];
    }
    assert rewards[..|rewards|] == rewards;
  }

  lemma {:induction false} InOwnPool(rewards: seq<Triple>, i: nat)
    requires i < |rewards|
    ensures rewards[i] in Pooled(rewards, rewards[i].Pool())
  {
    if i < |rewards| - 1 {
      InOwnPool(rewards[..|rewards| - 1], i);
    }
  }
}
