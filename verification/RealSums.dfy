/** Finite sums of reals and the two inequalities the credit bounds rest on. */
module RealSums {
  import opened Sequences

  function Sum(xs: seq<real>): real {
    if xs == [] then 0.0 else Sum(xs[..|xs| - 1]) + xs[|xs| - 1]
  }

  function Square(x: real): (r: real)
    ensures r >= 0.0
  {
    x * x
  }

  function Squares(xs: seq<real>): (r: seq<real>)
    ensures |r| == |xs| && forall i | 0 <= i < |xs| :: r[i] == Square(xs[i])
  {
    seq(|xs|, i requires 0 <= i < |xs| => Square(xs[i]))
  }

  function SumSquares(xs: seq<real>): real { Sum(Squares(xs)) }

  /** The affine image (x - shift) * scale of every element. */
  function Affine(xs: seq<real>, shift: real, scale: real): (r: seq<real>)
    ensures |r| == |xs| && forall i | 0 <= i < |xs| :: r[i] == (xs[i] - shift) * scale
  {
    seq(|xs|, i requires 0 <= i < |xs| => (xs[i] - shift) * scale)
  }

  function Mean(xs: seq<real>): real
    requires xs != []
  {
    Sum(xs) / (|xs| as real)
  }

  function Deviations(xs: seq<real>): (r: seq<real>)
    requires xs != []
    ensures |r| == |xs| && forall i | 0 <= i < |xs| :: r[i] == xs[i] - Mean(xs)
  {
    seq(|xs|, i requires 0 <= i < |xs| => xs[i] - Mean(xs))
  }

  /** Population variance (ddof = 0). */
  function Variance(xs: seq<real>): real
    requires xs != []
  {
    SumSquares(Deviations(xs)) / (|xs| as real)
  }

  lemma {:induction false} SumAppend(a: seq<real>, b: seq<real>)
    ensures Sum(a + b) == Sum(a) + Sum(b)
    decreases |b|
  {
    if b == [] {
      assert a + b == a;
    } else {
      assert (a + b)[..|a + b| - 1] == a + b[..|b| - 1];
      SumAppend(a, b[..|b| - 1]);
    }
  }

  lemma SumCons(x: real, xs: seq<real>)
    ensures Sum([x] + xs) == x + Sum(xs)
  {
    SumAppend([x], xs);
    assert [x][..0] == [];
  }

  lemma {:induction false} SumAffine(xs: seq<real>, shift: real, scale: real)
    ensures Sum(Affine(xs, shift, scale)) == (Sum(xs) - (|xs| as real) * shift) * scale
  {
    if xs != [] {
      var front := xs[..|xs| - 1];
      AffineFront(xs, shift, scale);
      SumAffine(front, shift, scale);
      AffineStep(Sum(front), |front| as real, xs[|xs| - 1], shift, scale);
    }
  }

  lemma AffineFront(xs: seq<real>, shift: real, scale: real)
    requires xs != []
    ensures Affine(xs, shift, scale)[..|xs| - 1] == Affine(xs[..|xs| - 1], shift, scale)
    ensures Affine(xs, shift, scale)[|xs| - 1] == (xs[|xs| - 1] - shift) * scale
  {
    var front := xs[..|xs| - 1];
    forall i | 0 <= i < |front| ensures Affine(xs, shift, scale)[i] == Affine(front, shift, scale)[i] {
      assert front[i] == xs[i];
    }
  }

  lemma AffineStep(s: real, n: real, x: real, shift: real, scale: real)
    ensures (s - n * shift) * scale + (x - shift) * scale == (s + x - (n + 1.0) * shift) * scale
  {
  }

  lemma SquaresOfFront(xs: seq<real>)
    requires xs != []
    ensures Squares(xs)[..|xs| - 1] == Squares(xs[..|xs| - 1])
    ensures SumSquares(xs) == SumSquares(xs[..|xs| - 1]) + Square(xs[|xs| - 1])
  {
    forall i | 0 <= i < |xs| - 1 ensures Squares(xs)[i] == Squares(xs[..|xs| - 1])[i] {
      assert xs[..|xs| - 1][i] == xs[i];
    }
    assert Squares(xs)[..|xs| - 1] == Squares(xs[..|xs| - 1]);
  }

  lemma {:induction false} SumSquaresNonNegative(xs: seq<real>)
    ensures SumSquares(xs) >= 0.0
  {
    if xs != [] {
      var front := xs[..|xs| - 1];
      SquaresOfFront(xs);
      SumSquaresNonNegative(front);
    }
  }

  function Times(x: real, k: real): real { x * k }

  lemma TimesAdds(x: real, y: real, k: real)
    ensures Times(x + y, k) == Times(x, k) + Times(y, k) && Times(0.0, k) == 0.0
  {
  }

  lemma {:induction false} SumTimes(xs: seq<real>, ys: seq<real>, k: real)
    requires |xs| == |ys| && forall i | 0 <= i < |xs| :: ys[i] == Times(xs[i], k)
    ensures Sum(ys) == Times(Sum(xs), k)
    decreases |xs|
  {
    if xs == [] {
      TimesAdds(0.0, 0.0, k);
    } else {
      var front, last := xs[..|xs| - 1], xs[|xs| - 1];
      SumTimes(front, ys[..|xs| - 1], k);
      TimesAdds(Sum(front), last, k);
    }
  }

  /** Deviations from the mean sum to zero. */
  lemma DeviationsSumToZero(xs: seq<real>)
    requires xs != []
    ensures Sum(Deviations(xs)) == 0.0
  {
    SumAffine(xs, Mean(xs), 1.0);
    assert Deviations(xs) == Affine(xs, Mean(xs), 1.0);
    assert (|xs| as real) * Mean(xs) == Sum(xs);
  }

  lemma CauchyStep(n: real, s: real, q: real, x: real)
    requires n >= 0.0 && q >= 0.0 && s * s <= n * q && (n == 0.0 ==> s == 0.0)
    ensures (s + x) * (s + x) <= (n + 1.0) * (q + x * x)
  {
    if n == 0.0 {
      assert (s + x) * (s + x) == x * x;
    } else {
      var d := s - n * x;
      assert d * d >= 0.0;
      assert d * d == s * s - 2.0 * n * (s * x) + n * n * (x * x);
      assert n * (2.0 * (s * x)) <= n * (q + n * (x * x));
      assert 2.0 * (s * x) <= q + n * (x * x) by { Cancel(n, 2.0 * (s * x), q + n * (x * x)); }
      assert (s + x) * (s + x) == s * s + 2.0 * (s * x) + x * x;
      assert (n + 1.0) * (q + x * x) == n * q + q + n * (x * x) + x * x;
    }
  }

  lemma Cancel(n: real, a: real, b: real)
    requires n > 0.0 && n * a <= n * b
    ensures a <= b
  {
    assert b - a == (n * b - n * a) / n;
  }

  /** Cauchy-Schwarz against the all-ones vector: (sum x)^2 <= n * sum x^2. */
  lemma {:induction false} CauchySchwarz(xs: seq<real>)
    ensures Sum(xs) * Sum(xs) <= (|xs| as real) * SumSquares(xs)
  {
    if xs != [] {
      var front, x := xs[..|xs| - 1], xs[|xs| - 1];
      SquaresOfFront(xs);
      CauchySchwarz(front);
      SumSquaresNonNegative(front);
      CauchyStep(|front| as real, Sum(front), SumSquares(front), x);
    }
  }

  function Without(xs: seq<real>, k: nat): seq<real>
    requires k < |xs|
  {
    xs[..k] + xs[k + 1..]
  }

  lemma SumWithout(xs: seq<real>, k: nat)
    requires k < |xs|
    ensures Sum(xs) == Sum(Without(xs, k)) + xs[k]
  {
    var a, b := xs[..k], xs[k + 1..];
    SplitAround(xs, k);
    SumMiddle(a, xs[k], b);
  }

  lemma SumMiddle(a: seq<real>, x: real, b: seq<real>)
    ensures Sum(a + ([x] + b)) == Sum(a + b) + x
  {
    SumAppend(a, [x] + b);
    SumCons(x, b);
    SumAppend(a, b);
  }

  lemma SumSquaresWithout(xs: seq<real>, k: nat)
    requires k < |xs|
    ensures SumSquares(xs) == SumSquares(Without(xs, k)) + Square(xs[k])
  {
    var rest := Without(xs, k);
    forall i | 0 <= i < |rest| ensures Squares(rest)[i] == Without(Squares(xs), k)[i] {
      assert rest[i] == xs[if i < k then i else i + 1];
    }
    assert Squares(rest) == Without(Squares(xs), k);
    SumWithout(Squares(xs), k);
  }

  /** In a sequence that sums to zero, no element dominates the `m` others, whose squares
      sum to `q`. */
  lemma CentredBound(d: seq<real>, k: nat) returns (m: real, q: real)
    requires k < |d| && Sum(d) == 0.0
    ensures m == |d| as real - 1.0 && q == SumSquares(d) - Square(d[k]) && Square(d[k]) <= m * q
  {
    var rest := Without(d, k);
    SumWithout(d, k);
    SumSquaresWithout(d, k);
    q := SumSquares(rest);
    m := RestBound(rest, d[k]);
  }

  lemma RestBound(rest: seq<real>, y: real) returns (m: real)
    requires Sum(rest) + y == 0.0
    ensures m == |rest| as real && Square(y) <= m * SumSquares(rest)
  {
    CauchySchwarz(rest);
    m := |rest| as real;
    SameSquare(Sum(rest), y);
  }

  lemma SameSquare(s: real, y: real)
    requires s == -y
    ensures s * s == y * y
  {
  }

  /** From y^2 <= (n - 1)(t - y^2) and n * v = t to y^2 <= (n - 1) * v. */
  lemma SamuelsonArithmetic(n: real, m: real, y2: real, q: real, t: real, v: real)
    requires n > 0.0 && m == n - 1.0 && q == t - y2 && y2 <= m * q && n * v == t
    ensures y2 <= m * v
  {
    assert m * (t - y2) == m * t - n * y2 + y2;
    assert n * (m * v) == m * (n * v);
    Cancel(n, y2, m * v);
  }

  lemma VarianceTimesCount(xs: seq<real>)
    requires xs != []
    ensures (|xs| as real) * Variance(xs) == SumSquares(Deviations(xs))
    ensures Variance(xs) >= 0.0
  {
    SumSquaresNonNegative(Deviations(xs));
  }

  /** Samuelson's inequality: (x_k - mean)^2 <= (n - 1) * variance. */
  lemma Samuelson(xs: seq<real>, k: nat)
    requires k < |xs|
    ensures (xs[k] - Mean(xs)) * (xs[k] - Mean(xs)) <= (|xs| as real - 1.0) * Variance(xs)
  {
    var d := Deviations(xs);
    DeviationsSumToZero(xs);
    var m, q := CentredBound(d, k);
    VarianceTimesCount(xs);
    SamuelsonArithmetic(|xs| as real, m, Square(d[k]), q, SumSquares(d), Variance(xs));
  }
}
