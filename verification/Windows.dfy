// Scores of particular windows, and what a window's score says about its entries: the
// arithmetic behind the questions which signals, stops and trades are possible at all.
module Windows {
  import opened Prelude
  import opened Features

  ghost predicate ExactRoot(sqrt: real -> real) {
    forall v :: v >= 0.0 ==> IsRootOf(sqrt(v), v)
  }

  /** The score of a window: its last entry against the whole. */
  function ZOf(w: seq<real>, sqrt: real -> real): Option<real>
    requires w != []
  {
    var sd := sqrt(Variance(w));
    if sd == 0.0 then None else Some((Last(w) - Mean(w)) / sd)
  }

  /** The score acted on at bar t is that of the window that ends at bar t - 1. */
  lemma ScoreAt(closes: seq<real>, n: nat, sqrt: real -> real, t: nat)
    requires 2 <= n && t < |closes|
    ensures ZScore(closes, n, sqrt).value[t] == if t < n then None else ZOf(Window(closes, n, t - 1), sqrt)
    ensures n <= t ==> RollingStd(closes, n, sqrt, t - 1) == Some(sqrt(Variance(Window(closes, n, t - 1))))
  {
    hide Mean, Variance;
  }

  lemma VarianceNonNegative(w: seq<real>)
    requires w != []
    ensures Variance(w) >= 0.0
  {
    DeviationNonNegative(w, Mean(w));
    RatioNonNegative(SquaredDeviation(w, Mean(w)), |w| as real);
  }

  // ----- Levels ---------------------------------------------------------------------------

  /** k equal closes. */
  function Level(k: nat, x: real): (w: seq<real>)
    ensures |w| == k && forall i :: 0 <= i < k ==> w[i] == x
  {
    seq(k, i => x)
  }

  lemma {:induction false} SumConcat(a: seq<real>, b: seq<real>)
    ensures Sum(a + b) == Sum(a) + Sum(b)
  {
    if b == [] {
      assert a + b == a;
    } else {
      SumConcat(a, Front(b));
      assert Front(a + b) == a + Front(b);
    }
  }

  lemma {:induction false} DeviationConcat(a: seq<real>, b: seq<real>, m: real)
    ensures SquaredDeviation(a + b, m) == SquaredDeviation(a, m) + SquaredDeviation(b, m)
  {
    hide Square;
    if b == [] {
      assert a + b == a;
    } else {
      DeviationConcat(a, Front(b), m);
      assert Front(a + b) == a + Front(b) && Last(a + b) == Last(b);
    }
  }

  lemma {:induction false} LevelSums(w: seq<real>, x: real, m: real)
    requires forall i :: 0 <= i < |w| ==> w[i] == x
    ensures Sum(w) == |w| as real * x && SquaredDeviation(w, m) == |w| as real * Square(x - m)
  {
    if w != [] {
      LevelSums(Front(w), x, m);
      OneMore(|Front(w)|, x);
      OneMore(|Front(w)|, Square(x - m));
      assert Last(w) == x;
      hide Square;
    } else {
      NoMultiple(x);
      NoMultiple(Square(x - m));
    }
  }

  /** j closes, then n - j closes a unit lower. */
  function TwoLevel(n: nat, j: nat): (w: seq<real>)
    requires j < n
    ensures |w| == n && Last(w) == -1.0
  {
    Level(j, 0.0) + Level(n - j, -1.0)
  }

  /** k copies of x. */
  function Weighted(k: nat, x: real): real {
    k as real * x
  }

  lemma TwoLevelSums(n: nat, j: nat, m: real)
    requires j < n
    ensures Sum(TwoLevel(n, j)) == -((n - j) as real)
    ensures SquaredDeviation(TwoLevel(n, j), m) == Weighted(j, Square(-m)) + Weighted(n - j, Square(-1.0 - m))
  {
    var high, low := Level(j, 0.0), Level(n - j, -1.0);
    assert TwoLevel(n, j) == high + low;
    hide Square, Sum, SquaredDeviation, Level, TwoLevel, Weighted;
    SumConcat(high, low);
    DeviationConcat(high, low, m);
    HighSums(high, m);
    LowSums(low, m);
  }

  lemma HighSums(w: seq<real>, m: real)
    requires forall i :: 0 <= i < |w| ==> w[i] == 0.0
    ensures Sum(w) == 0.0 && SquaredDeviation(w, m) == Weighted(|w|, Square(-m))
  {
    hide Square, Sum, SquaredDeviation;
    LevelSums(w, 0.0, m);
    NoMultiple(|w| as real);
    assert 0.0 - m == -m;
  }

  lemma LowSums(w: seq<real>, m: real)
    requires forall i :: 0 <= i < |w| ==> w[i] == -1.0
    ensures Sum(w) == -(|w| as real) && SquaredDeviation(w, m) == Weighted(|w|, Square(-1.0 - m))
  {
    hide Square, Sum, SquaredDeviation;
    LevelSums(w, -1.0, m);
  }

  /** The score is no larger than sqrt(j / k) in size. */
  predicate DepthAtMost(z: real, j: int, k: int) {
    Square(z) * k as real <= j as real
  }

  /** The score is -sqrt(j / k). */
  predicate DepthIs(z: real, j: int, k: int) {
    z < 0.0 && Square(z) * k as real == j as real
  }

  /** The two levels score exactly -sqrt(j / (n - j)), and their deviation is positive. */
  lemma TwoLevelScore(n: nat, j: nat, sqrt: real -> real)
    requires 0 < j < n && ExactRoot(sqrt)
    ensures var z := ZOf(TwoLevel(n, j), sqrt); z.Some? && DepthIs(z.value, j, n - j)
    ensures sqrt(Variance(TwoLevel(n, j))) > 0.0
  {
    var w := TwoLevel(n, j);
    var r, high, low, m, v := n as real, j as real, (n - j) as real, Mean(w), Variance(w);
    assert r == high + low;
    TwoLevelSums(n, j, m);
    assert m == -low / r && v == (high * Square(-m) + low * Square(-1.0 - m)) / r;
    VarianceNonNegative(w);
    assert IsRootOf(sqrt(v), v);
    hide TwoLevel, Mean, Variance, Square, IsRootOf, ExactRoot;
    TwoLevelMoments(r, high, low, m, v);
    TwoLevelRatio(r, high, low, -1.0 - m, v, sqrt(v));
  }

  lemma TwoLevelMoments(r: real, high: real, low: real, m: real, v: real)
    requires high > 0.0 && low > 0.0 && r == high + low
    requires m == -low / r && v == (high * Square(-m) + low * Square(-1.0 - m)) / r
    ensures r * (-1.0 - m) == -high && (r * r) * v == high * low
  {
    var d := -1.0 - m;
    assert r * m == -low;
    assert r * d == -r - r * m == -high;
    assert r * v == high * (m * m) + low * (d * d);
    assert r * (r * (r * v)) == high * ((r * m) * (r * m)) + low * ((r * d) * (r * d));
    assert r * (r * (r * v)) == high * (low * low) + low * (high * high);
    assert high * (low * low) + low * (high * high) == r * (high * low);
    assert r * ((r * r) * v) == r * (high * low);
    CancelFactor(r, (r * r) * v, high * low);
    CancelFactor(r, high * low, (r * r) * v);
  }

  lemma TwoLevelRatio(r: real, high: real, low: real, d: real, v: real, sd: real)
    requires high > 0.0 && low > 0.0 && r == high + low && IsRootOf(sd, v)
    requires r * d == -high && (r * r) * v == high * low
    ensures sd > 0.0 && d / sd < 0.0 && Square(d / sd) * low == high
  {
    ProductPositive(high, low);
    ProductPositive(r, r);
    PositiveFactor(v, r * r);
    assert sd != 0.0;
    NegativeFactor(r, d);
    NegativeQuotientOf(d, sd);
    var z := d / sd;
    var zz, hl := z * z, high * low;
    assert z * sd == d;
    SquareOfProduct(z, sd);
    assert v * zz == d * d;
    SquareOfProduct(r, d);
    assert (d * d) * (r * r) == high * high;
    assert (r * r) * (v * zz) == ((r * r) * v) * zz == hl * zz;
    assert hl * zz == high * (zz * low);
    CancelFactor(high, zz * low, high);
    CancelFactor(high, high, zz * low);
  }

  lemma NegativeFactor(a: real, b: real)
    requires a > 0.0 && a * b < 0.0
    ensures b < 0.0
  {
    if b >= 0.0 {
      ProductNonNegative(a, b);
      assert false;
    }
  }

  lemma NegativeQuotientOf(d: real, sd: real)
    requires d < 0.0 && sd > 0.0
    ensures d / sd < 0.0
  {
  }

  /** One outlier below a flat window attains the bound: it scores exactly -sqrt(n - 1). */
  lemma OutlierScore(n: nat, sqrt: real -> real)
    requires n >= 2 && ExactRoot(sqrt)
    ensures var z := ZOf(TwoLevel(n, n - 1), sqrt); z.Some? && z.value < 0.0 && Square(z.value) == n as real - 1.0
    ensures sqrt(Variance(TwoLevel(n, n - 1))) > 0.0
  {
    TwoLevelScore(n, n - 1, sqrt);
  }

  /** A window whose entries are all equal has no score. */
  lemma FlatHasNoScore(w: seq<real>, sqrt: real -> real)
    requires w != [] && ExactRoot(sqrt) && forall i :: 0 <= i < |w| ==> w[i] == 0.0
    ensures ZOf(w, sqrt) == None
  {
    LevelSums(w, 0.0, Mean(w));
    assert Mean(w) == 0.0 && Variance(w) == 0.0;
    assert IsRootOf(sqrt(0.0), 0.0);
    hide Mean, Variance, IsRootOf;
    if sqrt(0.0) != 0.0 {
      RootPositive(sqrt(0.0), 0.0);
      assert false;
    }
  }

  // ----- A second fall ------------------------------------------------------------------------

  /** n - 2 equal closes, one a unit lower, one M lower. */
  function Fall(n: nat, M: real): (w: seq<real>)
    requires n >= 2
    ensures |w| == n && Last(w) == -M
  {
    Level(n - 2, 0.0) + [-1.0] + [-M]
  }

  /** A fall deep enough to bring the score within `level` of its bound. */
  predicate Deep(M: real, n: nat, level: real) {
    M >= 3.0 && (n as real - 1.0 - Square(level)) * M >= Square(level) * (n as real - 1.0)
  }

  lemma DeepFall(n: nat, level: real) returns (M: real)
    requires n >= 2 && Square(level) < n as real - 1.0
    ensures Deep(M, n, level)
  {
    var a, g := Square(level), n as real - 1.0 - Square(level);
    SquareNonNegative(level);
    var q := a * (n as real - 1.0) / g;
    ProductNonNegative(a, n as real - 1.0);
    RatioNonNegative(a * (n as real - 1.0), g);
    M := 3.0 + q;
    assert g * q == a * (n as real - 1.0);
    assert g * M == g * 3.0 + g * q;
  }

  lemma FallSums(n: nat, M: real, m: real)
    requires n >= 2
    ensures Sum(Fall(n, M)) == -1.0 - M
    ensures SquaredDeviation(Fall(n, M), m) == (n as real - 2.0) * Square(m) + Square(-1.0 - m) + Square(-M - m)
  {
    var flat := Level(n - 2, 0.0);
    assert Front(Fall(n, M)) == flat + [-1.0] && Front(flat + [-1.0]) == flat;
    LevelSums(flat, 0.0, m);
    SquareOfNegation(m);
    hide Square;
    assert 0.0 - m == -m;
  }

  /** Mean and variance of the fall, multiplied out. */
  /** How far the last entry lies from the mean, and the variance, both cleared of denominators. */
  predicate Moments(r: real, M: real, d: real, v: real) {
    && r * d == 1.0 + M - r * M
    && (r * r) * v == r * (1.0 + M * M) - (1.0 + M) * (1.0 + M)
  }

  lemma FallMoments(n: nat, M: real)
    requires n >= 2
    ensures Moments(n as real, M, -M - Mean(Fall(n, M)), Variance(Fall(n, M)))
  {
    var w := Fall(n, M);
    var r, m, v := n as real, Mean(w), Variance(w);
    FallSums(n, M, m);
    var q := SquaredDeviation(w, m);
    assert m * r == -1.0 - M && v == q / r;
    hide Fall, Mean, Variance, SquaredDeviation, Square, Sum;
    FallArithmetic(r, M, m, q);
    assert r * v == q;
    assert (r * r) * v == r * (r * v);
  }

  lemma FallArithmetic(r: real, M: real, m: real, q: real)
    requires r >= 2.0 && m * r == -1.0 - M
    requires q == (r - 2.0) * Square(m) + Square(-1.0 - m) + Square(-M - m)
    ensures r * q == r * (1.0 + M * M) - (1.0 + M) * (1.0 + M)
    ensures r * (-M - m) == 1.0 + M - r * M
  {
    var s := 1.0 + M;
    assert Square(-1.0 - m) == 1.0 + 2.0 * m + m * m;
    assert Square(-M - m) == M * M + 2.0 * (m * M) + m * m;
    assert (r - 2.0) * Square(m) == r * (m * m) - 2.0 * (m * m);
    assert r * (m * m) == (m * r) * m == -s * m;
    assert m * M + m == m * s;
    assert q == 1.0 + M * M + m * s;
    assert r * (m * s) == (m * r) * s == -(s * s);
  }

  /** The inequality behind the fall: its last deviation against its variance. */
  lemma FallInequality(r: real, M: real, a: real)
    requires r >= 2.0 && M >= 3.0 && 0.0 <= a < r - 1.0 && (r - 1.0 - a) * M >= a * (r - 1.0)
    ensures var d := 1.0 + M - r * M; d * d >= a * (r * (1.0 + M * M) - (1.0 + M) * (1.0 + M))
    ensures 1.0 + M - r * M < 0.0
  {
    var k, g, mm := r - 1.0, r - 1.0 - a, M * M;
    var d := 1.0 + M - r * M;
    var kmm, km := k * mm, k * M;
    assert d == 1.0 - km;
    assert km >= M by {
      ProductNonNegative(k - 1.0, M);
      assert (k - 1.0) * M == km - M;
    }
    assert r * (1.0 + mm) - (1.0 + M) * (1.0 + M) == kmm - 2.0 * M + k;
    assert d * d == k * kmm - 2.0 * km + 1.0 by {
      assert km * km == k * kmm;
    }
    var rest := kmm - 2.0 * M;
    assert rest >= M by {
      ProductNonNegative(M, M - 3.0);
      assert M * (M - 3.0) == mm - 3.0 * M;
      ProductNonNegative(k - 1.0, mm);
      assert (k - 1.0) * mm == kmm - mm;
    }
    ProductNonNegative(g, rest - M);
    assert g * (rest - M) == g * rest - g * M;
    assert g * rest == k * kmm - 2.0 * km - a * rest by {
      assert g * rest == k * rest - a * rest;
      assert k * rest == k * kmm - 2.0 * km;
    }
    assert a * (rest + k) == a * rest + a * k;
  }

  lemma FallVariance(r: real, M: real)
    requires r >= 2.0 && M >= 3.0
    ensures r * (1.0 + M * M) - (1.0 + M) * (1.0 + M) > 0.0
  {
    var mm, total := M * M, r * (1.0 + M * M);
    ProductNonNegative(r - 2.0, 1.0 + mm);
    assert (r - 2.0) * (1.0 + mm) == total - 2.0 * (1.0 + mm);
    assert (1.0 + M) * (1.0 + M) == 1.0 + 2.0 * M + mm;
    assert mm >= 3.0 * M by {
      ProductNonNegative(M, M - 3.0);
      assert M * (M - 3.0) == mm - 3.0 * M;
    }
  }

  /** The fall scores below zero and at least the square of the level. */
  lemma FallScore(n: nat, M: real, level: real, sqrt: real -> real)
    requires n >= 2 && ExactRoot(sqrt) && Square(level) < n as real - 1.0 && Deep(M, n, level)
    ensures var z := ZOf(Fall(n, M), sqrt); z.Some? && z.value < 0.0 && Square(z.value) >= Square(level)
  {
    var w := Fall(n, M);
    var v := Variance(w);
    VarianceNonNegative(w);
    assert IsRootOf(sqrt(v), v);
    hide Fall, Mean, Variance, Square, ExactRoot, IsRootOf, Moments, Deep;
    FallMoments(n, M);
    FallRatio(n, M, level, -M - Mean(w), v, sqrt(v));
  }

  lemma FallRatio(n: nat, M: real, level: real, d: real, v: real, sd: real)
    requires n >= 2 && Square(level) < n as real - 1.0 && Deep(M, n, level)
    requires Moments(n as real, M, d, v) && IsRootOf(sd, v)
    ensures sd > 0.0 && d / sd < 0.0 && Square(d / sd) >= Square(level)
  {
    SquareNonNegative(level);
    hide Square, IsRootOf;
    FallQuotient(n as real, M, Square(level), d, v, sd);
  }

  lemma FallQuotient(r: real, M: real, a: real, d: real, v: real, sd: real)
    requires r >= 2.0 && M >= 3.0 && 0.0 <= a < r - 1.0 && (r - 1.0 - a) * M >= a * (r - 1.0)
    requires Moments(r, M, d, v) && IsRootOf(sd, v)
    ensures sd > 0.0 && d / sd < 0.0 && Square(d / sd) >= a
  {
    var e, q := 1.0 + M - r * M, r * (1.0 + M * M) - (1.0 + M) * (1.0 + M);
    FallInequality(r, M, a);
    FallVariance(r, M);
    hide IsRootOf, Square;
    ScoreFromSquares(r, d, v, sd, a, e, q);
  }

  lemma ScoreFromSquares(r: real, d: real, v: real, sd: real, a: real, e: real, q: real)
    requires r >= 2.0 && IsRootOf(sd, v) && r * d == e && (r * r) * v == q
    requires e < 0.0 && q > 0.0 && e * e >= a * q
    ensures sd > 0.0 && d / sd < 0.0 && Square(d / sd) >= a
  {
    ProductPositive(r, r);
    PositiveFactor(v, r * r);
    assert sd != 0.0;
    NegativeFactor(r, d);
    NegativeQuotientOf(d, sd);
    var z := d / sd;
    assert z * sd == d;
    SquareOfProduct(z, sd);
    var zz := z * z;
    assert v * zz == d * d;
    SquareOfProduct(r, d);
    assert e * e == (r * r) * (d * d) == q * zz;
    CancelFactor(q, a, zz);
  }

  // ----- What a score says about the window ---------------------------------------------------------

  lemma SquarePositive(x: real)
    requires x != 0.0
    ensures Square(x) > 0.0
  {
    var y := Abs(x);
    SquareOfNegation(x);
    assert IsRootOf(y, Square(x));
    hide Square;
    RootPositive(y, Square(x));
  }

  lemma SquareIsZero(x: real)
    requires Square(x) <= 0.0
    ensures x == 0.0
  {
    hide Square;
    if x != 0.0 {
      SquarePositive(x);
      assert false;
    }
  }

  lemma {:induction false} ZeroDeviation(w: seq<real>, m: real)
    requires SquaredDeviation(w, m) <= 0.0
    ensures forall i :: 0 <= i < |w| ==> w[i] == m
  {
    if w != [] {
      DeviationNonNegative(Front(w), m);
      SquareNonNegative(Last(w) - m);
      SquareIsZero(Last(w) - m);
      hide Square;
      ZeroDeviation(Front(w), m);
      assert forall i :: 0 <= i < |w| - 1 ==> w[i] == Front(w)[i];
    }
  }

  /** Two different entries make the variance positive. */
  lemma VariancePositive(w: seq<real>, i: nat, j: nat)
    requires i < |w| && j < |w| && w[i] != w[j]
    ensures Variance(w) > 0.0
  {
    var q, r := SquaredDeviation(w, Mean(w)), |w| as real;
    VarianceNonNegative(w);
    assert Variance(w) * r == q;
    if Variance(w) <= 0.0 {
      ZeroDeviation(w, Mean(w));
      assert false;
    }
  }

  /** The quadratic whose discriminant vanishes has its root at e / k. */
  lemma VanishingShift(q: real, e: real, k: real)
    requires k > 0.0 && Square(e) == k * q
    ensures Shifted(q, e / k, e, k) == 0.0
  {
    var d := e / k;
    var de := d * e;
    assert k * d == e;
    assert k * (d * d) == de;
    assert k * de == e * e;
    CancelFactor(k, de, q);
    CancelFactor(k, q, de);
  }

  /** The bound is attained only by an outlier: all the other entries are equal. */
  lemma BoundAttained(w: seq<real>)
    requires |w| >= 2 && Square(Last(w) - Mean(w)) == (|w| as real - 1.0) * Variance(w)
    ensures forall i, j :: 0 <= i < |w| - 1 && 0 <= j < |w| - 1 ==> w[i] == w[j]
  {
    var n, m, rest := |w| as real, Mean(w), Front(w);
    var k, d, u := |rest| as real, Last(w) - m, SquaredDeviation(rest, m);
    assert k == n - 1.0 && Variance(w) == (u + Square(d)) / n;
    hide Square, Mean, Variance, SquaredDeviation, Excess, Shifted;
    NoExcessOverMean(w);
    ExcessSnoc(w, m);
    var e := Excess(rest, m);
    assert e == -d;
    SquareOfNegation(d);
    EqualShare(n, k, u, Square(d), Variance(w));
    VanishingShift(u, e, k);
    ShiftDeviation(rest, m, e / k);
    ZeroDeviation(rest, m + e / k);
    assert forall i :: 0 <= i < |w| - 1 ==> w[i] == rest[i];
  }

  lemma EqualShare(n: real, k: real, u: real, dd: real, v: real)
    requires n > 0.0 && k == n - 1.0 && v == (u + dd) / n && dd == k * v
    ensures dd == k * u
  {
    assert n * v == u + dd;
    assert n * dd == k * (n * v) == k * u + k * dd;
    assert n * dd == k * dd + dd;
  }

  /** If a window ends in h equal entries, its score is at most sqrt((n - h) / h) in size. */
  lemma TailBound(w: seq<real>, h: nat)
    requires 0 < h < |w| && forall i :: |w| - h <= i < |w| ==> w[i] == Last(w)
    ensures Square(Last(w) - Mean(w)) * h as real <= (|w| - h) as real * Variance(w)
  {
    hide Square, SquaredDeviation, Sum;
    var head, x, m := w[..|w| - h], Last(w), Mean(w);
    TailSums(w, h, m);
    CauchySchwarz(head, m);
    var n, k, hr, u, sh := |w| as real, |head| as real, h as real, SquaredDeviation(head, m), Sum(head);
    assert n == k + hr && m == (sh + hr * x) / n;
    assert Variance(w) == (u + hr * Square(x - m)) / n;
    assert Excess(head, m) == sh - k * m;
    hide Mean, Variance, Excess;
    TailArithmetic(n, k, hr, m, x, sh, u, Variance(w));
  }

  lemma TailSums(w: seq<real>, h: nat, m: real)
    requires 0 < h < |w| && forall i :: |w| - h <= i < |w| ==> w[i] == Last(w)
    ensures var head, hr := w[..|w| - h], h as real;
      Sum(w) == Sum(head) + hr * Last(w)
      && SquaredDeviation(w, m) == SquaredDeviation(head, m) + hr * Square(Last(w) - m)
  {
    var head, tail := w[..|w| - h], w[|w| - h..];
    assert w == head + tail;
    SumConcat(head, tail);
    DeviationConcat(head, tail, m);
    LevelSums(tail, Last(w), m);
    hide Square, SquaredDeviation, Sum;
  }

  lemma TailArithmetic(n: real, k: real, h: real, m: real, x: real, sh: real, u: real, v: real)
    requires k > 0.0 && h > 0.0 && n == k + h && m == (sh + h * x) / n
    requires v == (u + h * Square(x - m)) / n && Square(sh - k * m) <= k * u
    ensures Square(x - m) * h <= k * v
  {
    TailExcess(n, k, h, m, x, sh);
    SquareOfNegation(h * (x - m));
    hide Square;
    TailShare(n, k, h, u, x - m, v);
  }

  lemma TailExcess(n: real, k: real, h: real, m: real, x: real, sh: real)
    requires n == k + h && n > 0.0 && m == (sh + h * x) / n
    ensures sh - k * m == -(h * (x - m))
  {
    assert n * m == sh + h * x;
    assert n * m == k * m + h * m;
    assert h * (x - m) == h * x - h * m;
  }

  lemma TailShare(n: real, k: real, h: real, u: real, d: real, v: real)
    requires k > 0.0 && h > 0.0 && n == k + h && v == (u + h * Square(d)) / n
    requires Square(h * d) <= k * u
    ensures Square(d) * h <= k * v
  {
    var hdd := h * Square(d);
    assert Square(h * d) == h * hdd;
    assert n * v == u + hdd;
    assert k * (u + hdd) == k * u + k * hdd;
    assert n * hdd == h * hdd + k * hdd;
    SwapFactors(k, n, v);
    CancelFactor(n, hdd, k * v);
  }

  /** A defined score whose square times h exceeds its window's room contradicts the tail bound. */
  lemma TailScore(w: seq<real>, h: nat, sqrt: real -> real)
    requires 0 < h < |w| && forall i :: |w| - h <= i < |w| ==> w[i] == Last(w)
    requires ExactRoot(sqrt) && ZOf(w, sqrt).Some?
    ensures DepthAtMost(ZOf(w, sqrt).value, |w| - h, h)
  {
    var v, d := Variance(w), Last(w) - Mean(w);
    VarianceNonNegative(w);
    TailBound(w, h);
    var sd := sqrt(v);
    assert IsRootOf(sd, v) && sd != 0.0 && ZOf(w, sqrt).value == d / sd;
    hide ZOf, Variance, Mean, Square, ExactRoot, IsRootOf;
    ScoreTimes(d, sd, v, h as real, (|w| - h) as real);
  }

  lemma ScoreTimes(d: real, sd: real, v: real, h: real, k: real)
    requires IsRootOf(sd, v) && sd != 0.0 && Square(d) * h <= k * v
    ensures Square(d / sd) * h <= k
  {
    ScoreSquared(d, sd, v);
    RootPositive(sd, v);
    var zz := Square(d / sd);
    assert Square(d) * h == v * (zz * h);
    CancelFactor(v, zz * h, k);
  }

  lemma ScoreSquared(d: real, sd: real, v: real)
    requires IsRootOf(sd, v) && sd != 0.0
    ensures Square(d) == v * Square(d / sd)
  {
    var z := d / sd;
    assert z * sd == d;
    SquareOfProduct(z, sd);
  }

  /** A score that attains the bound: all the other entries are equal. */
  lemma ExtremeScore(w: seq<real>, sqrt: real -> real)
    requires |w| >= 2 && ExactRoot(sqrt) && ZOf(w, sqrt).Some? && Square(ZOf(w, sqrt).value) >= |w| as real - 1.0
    ensures forall i, j :: 0 <= i < |w| - 1 && 0 <= j < |w| - 1 ==> w[i] == w[j]
  {
    var v, d, k := Variance(w), Last(w) - Mean(w), |w| as real - 1.0;
    VarianceNonNegative(w);
    LastDeviationBound(w);
    var sd := sqrt(v);
    assert IsRootOf(sd, v) && sd != 0.0 && ZOf(w, sqrt).value == d / sd;
    hide ZOf, Variance, Mean, Square, ExactRoot, IsRootOf;
    ScoreSquared(d, sd, v);
    AtLeastBound(v, Square(d / sd), k);
    BoundAttained(w);
  }

  lemma AtLeastBound(v: real, zz: real, k: real)
    requires v >= 0.0 && zz >= k
    ensures v * zz >= k * v
  {
    ProductNonNegative(v, zz - k);
    assert v * (zz - k) == v * zz - k * v;
  }

  // ----- Shifting a history ------------------------------------------------------------------------------

  /** Every close k higher: two mirror images. */
  function Shift(closes: seq<real>, k: real): (shifted: seq<real>)
    ensures |shifted| == |closes|
  {
    Mirror(Mirror(closes, 0.0), k)
  }

  lemma ShiftEach(closes: seq<real>, k: real)
    ensures forall i :: 0 <= i < |closes| ==> Shift(closes, k)[i] == closes[i] + k
  {
  }

  lemma ShiftFeatures(closes: seq<real>, k: real, window: int, period: int, sqrt: real -> real, t: nat)
    requires 2 <= window && 2 <= period && t < |closes|
    ensures ZScore(Shift(closes, k), window, sqrt).value[t] == ZScore(closes, window, sqrt).value[t]
    ensures Rsi(Shift(closes, k), period).value[t] == Rsi(closes, period).value[t]
    ensures t > 0 ==> RollingStd(Shift(closes, k), window, sqrt, t - 1) == RollingStd(closes, window, sqrt, t - 1)
  {
    hide ZScore, Rsi, RollingStd, RawZ, Mirror, Negate, Complement;
    var up := Mirror(closes, 0.0);
    MirrorFeatures(closes, 0.0, window, period, sqrt, t);
    MirrorFeatures(up, k, window, period, sqrt, t);
    TwiceMirrored(ZScore(closes, window, sqrt).value[t], Rsi(closes, period).value[t]);
    if t > 0 {
      ShiftStd(closes, k, window, sqrt, t - 1);
    }
  }

  lemma TwiceMirrored(z: Option<real>, r: Option<real>)
    ensures Negate(Negate(z)) == z && Complement(Complement(r)) == r
  {
  }

  lemma ShiftStd(closes: seq<real>, k: real, window: int, sqrt: real -> real, i: nat)
    requires 2 <= window && i < |closes|
    ensures RollingStd(Shift(closes, k), window, sqrt, i) == RollingStd(closes, window, sqrt, i)
  {
    hide RollingStd, RawZ, Mirror;
    MirrorRawZ(closes, 0.0, window, sqrt, i);
    MirrorRawZ(Mirror(closes, 0.0), k, window, sqrt, i);
  }

  lemma ShiftedScore(w: seq<real>, k: real, sqrt: real -> real)
    requires w != []
    ensures ZOf(Shift(w, k), sqrt) == ZOf(w, sqrt)
  {
    var up := Mirror(w, 0.0);
    ShiftEach(w, k);
    assert Last(Shift(w, k)) == Last(w) + k;
    MirrorStatistics(w, 0.0);
    MirrorStatistics(up, k);
    hide Mean, Variance;
  }

  // ----- RSI of a falling history ---------------------------------------------------------------------------

  lemma {:induction false} ZeroAverage(xs: seq<real>, alpha: real, k: nat)
    requires k < |xs| && forall j :: 0 <= j <= k ==> xs[j] == 0.0
    ensures Ewm(xs, alpha, k) == 0.0
  {
    if k > 0 {
      ZeroAverage(xs, alpha, k - 1);
    }
  }

  /** Once positive, an average of non-negative entries stays positive. */
  lemma {:induction false} PositiveAverage(xs: seq<real>, alpha: real, k0: nat, k: nat)
    requires k0 <= k < |xs| && 0.0 < alpha < 1.0 && xs[k0] > 0.0 && forall j :: 0 <= j < |xs| ==> xs[j] >= 0.0
    ensures Ewm(xs, alpha, k) > 0.0
  {
    if k > k0 {
      PositiveAverage(xs, alpha, k0, k - 1);
    } else if k > 0 {
      EwmNonNegative(xs, alpha, k - 1);
    }
    if k > 0 {
      BlendPositive(alpha, Ewm(xs, alpha, k - 1), xs[k]);
    }
  }

  lemma BlendPositive(alpha: real, before: real, x: real)
    requires 0.0 < alpha < 1.0 && before >= 0.0 && x >= 0.0 && (before > 0.0 || x > 0.0)
    ensures (1.0 - alpha) * before + alpha * x > 0.0
  {
    ProductNonNegative(1.0 - alpha, before);
    ProductNonNegative(alpha, x);
    if before > 0.0 {
      ProductPositive(1.0 - alpha, before);
    } else {
      ProductPositive(alpha, x);
    }
  }

  lemma AlphaInRange(period: nat)
    requires 2 <= period
    ensures 0.0 < 1.0 / period as real < 1.0
  {
    var a := 1.0 / period as real;
    assert a * period as real == 1.0;
  }

  /** A history that never rose and has fallen somewhere: the RSI is 0. */
  lemma FallingRsi(closes: seq<real>, period: nat, i: nat, k0: nat)
    requires 2 <= period <= i < |closes| && k0 < i && closes[k0 + 1] < closes[k0]
    requires forall k :: 0 <= k < i ==> closes[k + 1] <= closes[k]
    ensures RawRsi(closes, period, i) == Some(0.0)
  {
    var alpha := 1.0 / period as real;
    AlphaInRange(period);
    FallingMoves(closes, i, k0);
    hide Gains, Losses;
    ZeroAverage(Gains(closes), alpha, i - 1);
    PositiveAverage(Losses(closes), alpha, k0, i - 1);
    var gain, loss := AvgGain(closes, period, i), AvgLoss(closes, period, i);
    assert gain == 0.0 && loss > 0.0;
    hide Ewm, AvgGain, AvgLoss, RsiOf;
    RsiIsShareOfGains(gain, loss);
  }

  lemma FallingMoves(closes: seq<real>, i: nat, k0: nat)
    requires i < |closes| && k0 < i && closes[k0 + 1] < closes[k0]
    requires forall k :: 0 <= k < i ==> closes[k + 1] <= closes[k]
    ensures |Gains(closes)| == |Losses(closes)| == |closes| - 1
    ensures forall k :: 0 <= k < i ==> Gains(closes)[k] == 0.0
    ensures Losses(closes)[k0] > 0.0 && forall k :: 0 <= k < |closes| - 1 ==> Losses(closes)[k] >= 0.0
  {
    forall k | 0 <= k < i
      ensures Gains(closes)[k] == 0.0
    {
      assert closes[k + 1] <= closes[k];
    }
  }
}
