// src/marketdata/features.py: the lagged z-score and Wilder RSI.
//
// Series are sequences over bars and `None` is NaN. The square root that the
// rolling standard deviation takes is a parameter: look-ahead freedom and the mirror
// theorem hold for any such function, the bound on the z-score for one that is
// exact on the variance in question.
module Features {
  import opened Prelude

  // ----- Rolling window statistics ---------------------------------------------

  function Mean(w: seq<real>): real
    requires w != []
  {
    Sum(w) / |w| as real
  }

  /** The sum of (x - m)^2 over the window. */
  function SquaredDeviation(w: seq<real>, m: real): real {
    if w == [] then 0.0
    else SquaredDeviation(Front(w), m) + Square(Last(w) - m)
  }

  /** Population variance: `std(ddof=0)` squared. */
  function Variance(w: seq<real>): real
    requires w != []
  {
    SquaredDeviation(w, Mean(w)) / |w| as real
  }

  /** The cell of a `rolling(window=n, min_periods=n)` series at bar `i`, before aggregation. */
  function Window(closes: seq<real>, n: nat, i: nat): (w: seq<real>)
    requires 0 < n <= i + 1 <= |closes|
    ensures |w| == n
  {
    closes[i + 1 - n..i + 1]
  }

  function RollingMean(closes: seq<real>, n: nat, i: nat): Option<real>
    requires 0 < n && i < |closes|
  {
    if i + 1 < n then None else Some(Mean(Window(closes, n, i)))
  }

  function RollingStd(closes: seq<real>, n: nat, sqrt: real -> real, i: nat): Option<real>
    requires 0 < n && i < |closes|
  {
    if i + 1 < n then None else Some(sqrt(Variance(Window(closes, n, i))))
  }

  /** (close - mean) / std; a flat window is 0/0 and therefore NaN. */
  function RawZ(closes: seq<real>, n: nat, sqrt: real -> real, i: nat): Option<real>
    requires 0 < n && i < |closes|
  {
    if i + 1 < n then None
    else
      var sd := RollingStd(closes, n, sqrt, i).value;
      if sd == 0.0 then None
      else Some((closes[i] - RollingMean(closes, n, i).value) / sd)
  }

  /** `series.shift(1)`. */
  function Lag<T>(col: seq<Option<T>>): (lagged: seq<Option<T>>)
    ensures |lagged| == |col|
    ensures forall t :: 0 <= t < |col| ==> lagged[t] == if t == 0 then None else col[t - 1]
  {
    if col == [] then [] else [None] + Front(col)
  }

  function ZScore(closes: seq<real>, window: int, sqrt: real -> real): (r: Result<seq<Option<real>>>)
    ensures r.Ok? <==> 2 <= window
    ensures r.Ok? ==> |r.value| == |closes|
    ensures r.Ok? ==> forall t :: 0 <= t < |closes| ==>
      r.value[t] == if t == 0 then None else RawZ(closes, window, sqrt, t - 1)
  {
    if window <= 1 then Err("window must be >= 2")
    else Ok(Lag(seq(|closes|, i requires 0 <= i < |closes| => RawZ(closes, window, sqrt, i))))
  }

  // ----- Wilder RSI --------------------------------------------------------------

  /** `closes.diff()` without its leading NaN: entry k is the move of bar k + 1. */
  function Deltas(closes: seq<real>): seq<real> {
    if closes == [] then []
    else seq(|closes| - 1, k requires 0 <= k < |closes| - 1 => closes[k + 1] - closes[k])
  }

  function Gains(closes: seq<real>): seq<real> {
    var d := Deltas(closes);
    seq(|d|, k requires 0 <= k < |d| => Max(d[k], 0.0))
  }

  function Losses(closes: seq<real>): seq<real> {
    var d := Deltas(closes);
    seq(|d|, k requires 0 <= k < |d| => Max(-d[k], 0.0))
  }

  /** `ewm(alpha, adjust=False).mean()` at entry k. */
  function Ewm(xs: seq<real>, alpha: real, k: nat): real
    requires k < |xs|
  {
    if k == 0 then xs[0] else (1.0 - alpha) * Ewm(xs, alpha, k - 1) + alpha * xs[k]
  }

  /** The RSI of one pair of averages, with the two `where` overrides. */
  function RsiOf(gain: real, loss: real): real
    requires gain >= 0.0 && loss >= 0.0
  {
    if gain == 0.0 && loss == 0.0 then 50.0
    else if loss == 0.0 then 100.0
    else
      assert gain / loss >= 0.0 by { RatioNonNegative(gain, loss); }
      100.0 - 100.0 / (1.0 + gain / loss)
  }

  /** Wilder averages of gains and losses at bar `i`, once `period` moves exist. */
  function AvgGain(closes: seq<real>, period: nat, i: nat): (g: real)
    requires 2 <= period <= i < |closes|
    ensures g >= 0.0
  {
    EwmNonNegative(Gains(closes), 1.0 / period as real, i - 1);
    Ewm(Gains(closes), 1.0 / period as real, i - 1)
  }

  function AvgLoss(closes: seq<real>, period: nat, i: nat): (l: real)
    requires 2 <= period <= i < |closes|
    ensures l >= 0.0
  {
    EwmNonNegative(Losses(closes), 1.0 / period as real, i - 1);
    Ewm(Losses(closes), 1.0 / period as real, i - 1)
  }

  lemma {:induction false} EwmNonNegative(xs: seq<real>, alpha: real, k: nat)
    requires k < |xs| && 0.0 <= alpha <= 1.0
    requires forall j :: 0 <= j < |xs| ==> xs[j] >= 0.0
    ensures Ewm(xs, alpha, k) >= 0.0
  {
    if k > 0 {
      EwmNonNegative(xs, alpha, k - 1);
      ProductNonNegative(1.0 - alpha, Ewm(xs, alpha, k - 1));
      ProductNonNegative(alpha, xs[k]);
    }
  }

  function RawRsi(closes: seq<real>, period: nat, i: nat): Option<real>
    requires 2 <= period && i < |closes|
  {
    if i < period then None
    else Some(RsiOf(AvgGain(closes, period, i), AvgLoss(closes, period, i)))
  }

  function Rsi(closes: seq<real>, period: int): (r: Result<seq<Option<real>>>)
    ensures r.Ok? <==> 2 <= period
    ensures r.Ok? ==> |r.value| == |closes|
    ensures r.Ok? ==> forall t :: 0 <= t < |closes| ==>
      r.value[t] == if t == 0 then None else RawRsi(closes, period, t - 1)
  {
    if period < 2 then Err("period must be >= 2")
    else Ok(Lag(seq(|closes|, i requires 0 <= i < |closes| => RawRsi(closes, period, i))))
  }

  // ----- No feature reads the bar it is used on --------------------------------

  lemma {:induction false} EwmPrefix(xs: seq<real>, ys: seq<real>, alpha: real, k: nat)
    requires k < |xs| && k < |ys| && xs[..k + 1] == ys[..k + 1]
    ensures Ewm(xs, alpha, k) == Ewm(ys, alpha, k)
  {
    assert xs[k] == xs[..k + 1][k] == ys[k];
    if k > 0 {
      assert xs[..k] == xs[..k + 1][..k] == ys[..k];
      EwmPrefix(xs, ys, alpha, k - 1);
    } else {
      assert xs[0] == ys[0];
    }
  }

  lemma RawZPrefix(a: seq<real>, b: seq<real>, n: nat, sqrt: real -> real, i: nat)
    requires 0 < n && i < |a| && i < |b| && a[..i + 1] == b[..i + 1]
    ensures RawZ(a, n, sqrt, i) == RawZ(b, n, sqrt, i)
    ensures RollingMean(a, n, i) == RollingMean(b, n, i)
    ensures RollingStd(a, n, sqrt, i) == RollingStd(b, n, sqrt, i)
  {
    assert a[i] == a[..i + 1][i] == b[i];
    if n <= i + 1 {
      assert Window(a, n, i) == a[..i + 1][i + 1 - n..] == b[..i + 1][i + 1 - n..] == Window(b, n, i);
    }
  }

  lemma RawRsiPrefix(a: seq<real>, b: seq<real>, period: nat, i: nat)
    requires 2 <= period && i < |a| && i < |b| && a[..i + 1] == b[..i + 1]
    ensures RawRsi(a, period, i) == RawRsi(b, period, i)
  {
    if period <= i {
      forall k | 0 <= k <= i
        ensures a[k] == b[k]
      {
        assert a[k] == a[..i + 1][k] == b[..i + 1][k];
      }
      assert Gains(a)[..i] == Gains(b)[..i];
      assert Losses(a)[..i] == Losses(b)[..i];
      EwmPrefix(Gains(a), Gains(b), 1.0 / period as real, i - 1);
      EwmPrefix(Losses(a), Losses(b), 1.0 / period as real, i - 1);
    }
  }

  /** Both indicators at bar t are determined by the closes strictly before bar t. */
  lemma FeaturesAreLagged(a: seq<real>, b: seq<real>, window: int, period: int, sqrt: real -> real, t: nat)
    requires 2 <= window && 2 <= period && t < |a| && t < |b| && a[..t] == b[..t]
    ensures ZScore(a, window, sqrt).value[t] == ZScore(b, window, sqrt).value[t]
    ensures Rsi(a, period).value[t] == Rsi(b, period).value[t]
  {
    LaggedZScore(a, b, window, sqrt, t);
    LaggedRsi(a, b, period, t);
  }

  lemma LaggedZScore(a: seq<real>, b: seq<real>, window: int, sqrt: real -> real, t: nat)
    requires 2 <= window && t < |a| && t < |b| && a[..t] == b[..t]
    ensures ZScore(a, window, sqrt).value[t] == ZScore(b, window, sqrt).value[t]
  {
    if t > 0 {
      RawZPrefix(a, b, window, sqrt, t - 1);
    }
  }

  lemma LaggedRsi(a: seq<real>, b: seq<real>, period: int, t: nat)
    requires 2 <= period && t < |a| && t < |b| && a[..t] == b[..t]
    ensures Rsi(a, period).value[t] == Rsi(b, period).value[t]
  {
    if t > 0 {
      RawRsiPrefix(a, b, period, t - 1);
    }
  }

  // ----- The z-score is bounded by sqrt(window - 1) -------------------------------

  /** By how much the entries exceed m in total. */
  function Excess(w: seq<real>, m: real): real {
    Sum(w) - |w| as real * m
  }

  lemma ExcessSnoc(w: seq<real>, m: real)
    requires w != []
    ensures Excess(w, m) == Excess(Front(w), m) + Last(w) - m
  {
    OneMore(|Front(w)|, m);
  }

  /** The squared deviation of k entries when the reference point moves by d, from its value q and excess e. */
  function Shifted(q: real, d: real, e: real, k: real): real {
    q - 2.0 * (d * e) + k * (d * d)
  }

  lemma {:induction false} ShiftDeviation(w: seq<real>, y: real, d: real)
    ensures SquaredDeviation(w, y + d) == Shifted(SquaredDeviation(w, y), d, Excess(w, y), |w| as real)
  {
    if w == [] {
      assert Excess(w, y) == 0.0 by { NoMultiple(y); }
      assert Shifted(0.0, d, 0.0, 0.0) == 0.0;
    } else {
      hide Shifted, Square, Excess;
      ShiftDeviation(Front(w), y, d);
      ExcessSnoc(w, y);
      var k := |Front(w)| as real;
      assert |w| as real == k + 1.0;
      ShiftStep(SquaredDeviation(Front(w), y), Last(w), y, d, Excess(Front(w), y), k);
    }
  }

  lemma ShiftStep(q: real, x: real, y: real, d: real, e: real, k: real)
    ensures Shifted(q, d, e, k) + Square(x - (y + d)) == Shifted(q + Square(x - y), d, e + x - y, k + 1.0)
  {
    var c := x - y;
    assert (c - d) * (c - d) == c * c - 2.0 * (d * c) + d * d;
    assert d * (e + c) == d * e + d * c;
    assert (k + 1.0) * (d * d) == k * (d * d) + d * d;
  }

  lemma NoMultiple(y: real)
    ensures 0.0 * y == 0.0
  {
  }

  lemma {:induction false} DeviationNonNegative(w: seq<real>, m: real)
    ensures SquaredDeviation(w, m) >= 0.0
  {
    if w != [] {
      DeviationNonNegative(Front(w), m);
      SquareNonNegative(Last(w) - m);
      hide Square;
    }
  }

  /** A quadratic in d that is never negative has no positive discriminant. */
  lemma CompletedSquare(q: real, e: real, k: real, d: real)
    requires k > 0.0 && d == e / k && Shifted(q, d, e, k) >= 0.0
    ensures Square(e) <= k * q
  {
    var de := d * e;
    assert k * d == e;
    assert k * (d * d) == de;
    assert k * de == e * e;
    ProductNonNegative(k, q - de);
    assert k * (q - de) == k * q - k * de;
  }

  /** Cauchy-Schwarz against the all-ones vector, about the point m. */
  lemma CauchySchwarz(w: seq<real>, m: real)
    requires w != []
    ensures Square(Excess(w, m)) <= |w| as real * SquaredDeviation(w, m)
  {
    hide SquaredDeviation, Square, Excess, Shifted;
    var k, e := |w| as real, Excess(w, m);
    var d := e / k;
    ShiftDeviation(w, m, d);
    DeviationNonNegative(w, m + d);
    CompletedSquare(SquaredDeviation(w, m), e, k, d);
  }

  lemma NoExcessOverMean(w: seq<real>)
    requires w != []
    ensures Excess(w, Mean(w)) == 0.0
  {
    hide Sum;
  }

  /** The last entry of a window is within sqrt(n - 1) population deviations of its mean. */
  lemma LastDeviationBound(w: seq<real>)
    requires |w| >= 2
    ensures Square(Last(w) - Mean(w)) <= (|w| as real - 1.0) * Variance(w)
  {
    var n, m, rest := |w| as real, Mean(w), Front(w);
    var k, d, u := |rest| as real, Last(w) - m, SquaredDeviation(rest, m);
    assert k == n - 1.0;
    assert Variance(w) == (u + Square(d)) / n;
    hide Square, Mean, Variance, SquaredDeviation, Excess;
    NoExcessOverMean(w);
    ExcessSnoc(w, m);
    CauchySchwarz(rest, m);
    assert Excess(rest, m) == -d;
    SquareOfNegation(d);
    LastShare(n, k, u, Square(d), Variance(w));
  }

  lemma LastShare(n: real, k: real, u: real, dd: real, v: real)
    requires n > 0.0 && k == n - 1.0 && v == (u + dd) / n && dd <= k * u
    ensures dd <= k * v
  {
    var kv, total := k * v, u + dd;
    assert n * v == total;
    assert k * total == k * u + k * dd;
    assert n * dd == k * dd + dd;
    assert n * kv == k * total by {
      SwapFactors(n, k, v);
    }
    CancelFactor(n, dd, kv);
  }

  lemma SwapFactors(a: real, b: real, c: real)
    ensures a * (b * c) == b * (a * c)
  {
  }

  predicate IsRootOf(sd: real, v: real) {
    sd >= 0.0 && sd * sd == v
  }

  /** Every defined z-score satisfies z^2 <= window - 1. */
  lemma ZScoreBound(closes: seq<real>, window: int, sqrt: real -> real, t: nat)
    requires 2 <= window && t < |closes|
    requires window <= t ==> var v := Variance(Window(closes, window, t - 1)); IsRootOf(sqrt(v), v)
    ensures var z := ZScore(closes, window, sqrt).value[t];
      z.Some? ==> Square(z.value) <= window as real - 1.0
  {
    var z := ZScore(closes, window, sqrt).value[t];
    if z.Some? {
      var w := Window(closes, window, t - 1);
      assert Last(w) == closes[t - 1];
      LastDeviationBound(w);
      var sd, v, d := sqrt(Variance(w)), Variance(w), Last(w) - Mean(w);
      assert sd != 0.0 && z.value == d / sd;
      hide Square, Mean, Variance, ZScore, IsRootOf;
      QuotientBound(d, sd, v, window as real - 1.0);
    }
  }

  lemma QuotientBound(d: real, sd: real, v: real, c: real)
    requires IsRootOf(sd, v) && sd != 0.0 && Square(d) <= c * v
    ensures Square(d / sd) <= c
  {
    var z := d / sd;
    assert z * sd == d;
    SquareOfProduct(z, sd);
    RootPositive(sd, v);
    CancelFactor(v, z * z, c);
  }

  lemma RootPositive(sd: real, v: real)
    requires IsRootOf(sd, v) && sd != 0.0
    ensures v > 0.0
  {
    assert v / sd == sd;
  }

  // ----- Mirror image: replacing each close c by k - c ------------------------------

  function Mirror(closes: seq<real>, k: real): (mirrored: seq<real>)
    ensures |mirrored| == |closes|
  {
    seq(|closes|, i requires 0 <= i < |closes| => k - closes[i])
  }

  lemma {:induction false} MirrorWindow(w: seq<real>, k: real, m: real)
    ensures Sum(Mirror(w, k)) == |w| as real * k - Sum(w)
    ensures SquaredDeviation(Mirror(w, k), k - m) == SquaredDeviation(w, m)
  {
    if w != [] {
      MirrorWindow(Front(w), k, m);
      var mw := Mirror(w, k);
      assert Front(mw) == Mirror(Front(w), k);
      assert Last(mw) == k - Last(w);
      OneMore(|Front(w)|, k);
      SquareOfNegation(Last(w) - m);
      hide Square;
      assert Last(mw) - (k - m) == -(Last(w) - m);
    }
  }

  lemma OneMore(n: nat, k: real)
    ensures (n + 1) as real * k == n as real * k + k
  {
  }

  lemma SquareOfNegation(x: real)
    ensures Square(-x) == Square(x)
  {
  }

  lemma MirrorStatistics(w: seq<real>, k: real)
    requires w != []
    ensures Mean(Mirror(w, k)) == k - Mean(w)
    ensures Variance(Mirror(w, k)) == Variance(w)
  {
    MirrorWindow(w, k, Mean(w));
    MirrorMean(|w| as real, k, Sum(w));
  }

  lemma MirrorMean(n: real, k: real, s: real)
    requires n > 0.0
    ensures (n * k - s) / n == k - s / n
  {
    assert n * k / n == k;
  }

  function Negate(z: Option<real>): Option<real> {
    if z.Some? then Some(-z.value) else None
  }

  function Complement(r: Option<real>): Option<real> {
    if r.Some? then Some(100.0 - r.value) else None
  }

  lemma MirrorRawZ(closes: seq<real>, k: real, n: nat, sqrt: real -> real, i: nat)
    requires 0 < n && i < |closes|
    ensures RawZ(Mirror(closes, k), n, sqrt, i) == Negate(RawZ(closes, n, sqrt, i))
    ensures RollingStd(Mirror(closes, k), n, sqrt, i) == RollingStd(closes, n, sqrt, i)
  {
    if n <= i + 1 {
      var w := Window(closes, n, i);
      MirrorCutsOut(closes, k, n, i);
      MirrorStatistics(w, k);
      hide Mean, Variance;
      var sd, d := sqrt(Variance(w)), closes[i] - Mean(w);
      if sd != 0.0 {
        NegativeQuotient(d, sd);
      }
    }
  }

  lemma MirrorCutsOut(closes: seq<real>, k: real, n: nat, i: nat)
    requires 0 < n <= i + 1 <= |closes|
    ensures Window(Mirror(closes, k), n, i) == Mirror(Window(closes, n, i), k)
  {
  }

  lemma NegativeQuotient(d: real, sd: real)
    requires sd != 0.0
    ensures -d / sd == -(d / sd)
  {
  }

  lemma MirrorMoves(closes: seq<real>, k: real)
    ensures Gains(Mirror(closes, k)) == Losses(closes)
    ensures Losses(Mirror(closes, k)) == Gains(closes)
  {
    var mc := Mirror(closes, k);
    assert |Deltas(mc)| == |Deltas(closes)|;
    assert forall j :: 0 <= j < |Deltas(closes)| ==> Deltas(mc)[j] == -Deltas(closes)[j];
  }

  /** The textbook form of the index, which the two overrides restore at the poles. */
  lemma RsiIsShareOfGains(gain: real, loss: real)
    requires gain >= 0.0 && loss >= 0.0 && gain + loss > 0.0
    ensures RsiOf(gain, loss) == 100.0 * gain / (gain + loss)
  {
    if loss > 0.0 {
      RatioNonNegative(gain, loss);
      var q := gain / loss;
      assert q * loss == gain;
      assert 100.0 / (1.0 + q) == 100.0 * loss / (gain + loss) by {
        EqualQuotients(100.0, 1.0 + q, 100.0 * loss, gain + loss);
      }
      assert 100.0 - 100.0 * loss / (gain + loss) == 100.0 * gain / (gain + loss) by {
        AddQuotients(100.0 * gain, 100.0 * loss, gain + loss, 100.0);
      }
    }
  }

  // ----- Wilder's averages weight by weight ----------------------------------------

  function Power(b: real, n: nat): real {
    if n == 0 then 1.0 else b * Power(b, n - 1)
  }

  /** Entry j with its weight among the entries 0 to k: alpha * (1 - alpha)^(k - j), without the alpha for entry 0. */
  function Share(xs: seq<real>, alpha: real, k: nat, j: nat): real
    requires j <= k && j < |xs|
  {
    Power(1.0 - alpha, k - j) * (if j == 0 then xs[0] else alpha * xs[j])
  }

  /** The weighted total of the first n entries, with the weights they have among the entries 0 to k. */
  function Weighted(xs: seq<real>, alpha: real, k: nat, n: nat): real
    requires n <= k + 1 && n <= |xs|
  {
    if n == 0 then 0.0 else Weighted(xs, alpha, k, n - 1) + Share(xs, alpha, k, n - 1)
  }

  /** What is left of an average after one more entry. */
  function Kept(alpha: real, x: real): real {
    (1.0 - alpha) * x
  }

  lemma KeptSum(alpha: real, x: real, y: real)
    ensures Kept(alpha, x + y) == Kept(alpha, x) + Kept(alpha, y)
    ensures Kept(alpha, 0.0) == 0.0
  {
  }

  lemma ShareDecays(xs: seq<real>, alpha: real, k: nat, j: nat)
    requires j < k && j < |xs|
    ensures Share(xs, alpha, k, j) == Kept(alpha, Share(xs, alpha, k - 1, j))
  {
    var p, x := Power(1.0 - alpha, k - 1 - j), if j == 0 then xs[0] else alpha * xs[j];
    assert Power(1.0 - alpha, k - j) == (1.0 - alpha) * p;
    assert ((1.0 - alpha) * p) * x == (1.0 - alpha) * (p * x);
  }

  lemma {:induction false} WeightsDecay(xs: seq<real>, alpha: real, k: nat, n: nat)
    requires n <= k && n <= |xs| && 0 < k
    ensures Weighted(xs, alpha, k, n) == Kept(alpha, Weighted(xs, alpha, k - 1, n))
  {
    hide Share, Kept;
    if n == 0 {
      KeptSum(alpha, 0.0, 0.0);
    } else {
      WeightsDecay(xs, alpha, k, n - 1);
      ShareDecays(xs, alpha, k, n - 1);
      KeptSum(alpha, Weighted(xs, alpha, k - 1, n - 1), Share(xs, alpha, k - 1, n - 1));
    }
  }

  lemma NewestShare(xs: seq<real>, alpha: real, k: nat)
    requires k < |xs|
    ensures Share(xs, alpha, k, k) == if k == 0 then xs[0] else alpha * xs[k]
  {
  }

  lemma {:induction false} EwmIsWeighted(xs: seq<real>, alpha: real, k: nat)
    requires k < |xs|
    ensures Ewm(xs, alpha, k) == Weighted(xs, alpha, k, k + 1)
  {
    NewestShare(xs, alpha, k);
    hide Share;
    if k > 0 {
      EwmIsWeighted(xs, alpha, k - 1);
      WeightsDecay(xs, alpha, k, k);
    } else {
      assert Weighted(xs, alpha, 0, 0) == 0.0;
    }
  }

  /** Entry j is how far the close rose (or fell) from bar j to bar j + 1, if it did. */
  function Moves(closes: seq<real>, up: bool): seq<real>
    requires closes != []
  {
    seq(|closes| - 1, j requires 0 <= j < |closes| - 1 =>
      var move := if up then closes[j + 1] - closes[j] else closes[j] - closes[j + 1];
      if move > 0.0 then move else 0.0)
  }

  lemma MovesAre(closes: seq<real>)
    requires closes != []
    ensures Gains(closes) == Moves(closes, true) && Losses(closes) == Moves(closes, false)
  {
  }

  /** The RSI at bar t is the share of upward moves in all moves before t, each weighted as Wilder's average does. */
  lemma RsiIsWeightedShare(closes: seq<real>, period: nat, t: nat)
    requires 2 <= period && t < |closes|
    ensures var r, alpha := Rsi(closes, period).value[t], 1.0 / period as real;
      if t <= period then r == None
      else
        var up := Weighted(Moves(closes, true), alpha, t - 2, t - 1);
        var down := Weighted(Moves(closes, false), alpha, t - 2, t - 1);
        && up >= 0.0 && down >= 0.0
        && r == Some(if up + down == 0.0 then 50.0 else 100.0 * up / (up + down))
  {
    if t > period {
      AveragesAreWeighted(closes, period, t - 1);
      hide Ewm, AvgGain, AvgLoss;
      RsiShare(AvgGain(closes, period, t - 1), AvgLoss(closes, period, t - 1));
      hide Weighted, Moves, RsiOf;
    }
  }

  lemma AveragesAreWeighted(closes: seq<real>, period: nat, i: nat)
    requires 2 <= period <= i < |closes|
    ensures AvgGain(closes, period, i) == Weighted(Moves(closes, true), 1.0 / period as real, i - 1, i)
    ensures AvgLoss(closes, period, i) == Weighted(Moves(closes, false), 1.0 / period as real, i - 1, i)
  {
    MovesAre(closes);
    EwmIsWeighted(Gains(closes), 1.0 / period as real, i - 1);
    EwmIsWeighted(Losses(closes), 1.0 / period as real, i - 1);
    hide Weighted, Ewm, Moves, Gains, Losses;
  }

  lemma RsiShare(gain: real, loss: real)
    requires gain >= 0.0 && loss >= 0.0
    ensures RsiOf(gain, loss) == if gain + loss == 0.0 then 50.0 else 100.0 * gain / (gain + loss)
  {
    if gain + loss > 0.0 {
      RsiIsShareOfGains(gain, loss);
    }
  }

  lemma MirrorRsiOf(gain: real, loss: real)
    requires gain >= 0.0 && loss >= 0.0
    ensures RsiOf(loss, gain) == 100.0 - RsiOf(gain, loss)
  {
    if gain + loss > 0.0 {
      RsiIsShareOfGains(gain, loss);
      RsiIsShareOfGains(loss, gain);
      AddQuotients(100.0 * gain, 100.0 * loss, gain + loss, 100.0);
      assert 100.0 * loss / (loss + gain) == 100.0 * loss / (gain + loss);
    }
  }

  /** Mirroring the closes negates the z-score and complements the RSI at every bar. */
  lemma MirrorFeatures(closes: seq<real>, k: real, window: int, period: int, sqrt: real -> real, t: nat)
    requires 2 <= window && 2 <= period && t < |closes|
    ensures ZScore(Mirror(closes, k), window, sqrt).value[t] == Negate(ZScore(closes, window, sqrt).value[t])
    ensures Rsi(Mirror(closes, k), period).value[t] == Complement(Rsi(closes, period).value[t])
  {
    MirrorZScore(closes, k, window, sqrt, t);
    MirrorRsi(closes, k, period, t);
  }

  lemma MirrorZScore(closes: seq<real>, k: real, window: int, sqrt: real -> real, t: nat)
    requires 2 <= window && t < |closes|
    ensures ZScore(Mirror(closes, k), window, sqrt).value[t] == Negate(ZScore(closes, window, sqrt).value[t])
  {
    if t > 0 {
      MirrorRawZ(closes, k, window, sqrt, t - 1);
    }
  }

  lemma MirrorRsi(closes: seq<real>, k: real, period: int, t: nat)
    requires 2 <= period && t < |closes|
    ensures Rsi(Mirror(closes, k), period).value[t] == Complement(Rsi(closes, period).value[t])
  {
    hide RsiOf, Ewm;
    if 0 < t && period <= t - 1 {
      MirrorMoves(closes, k);
      hide Gains, Losses;
      var mc := Mirror(closes, k);
      assert AvgGain(mc, period, t - 1) == AvgLoss(closes, period, t - 1);
      assert AvgLoss(mc, period, t - 1) == AvgGain(closes, period, t - 1);
      hide AvgGain, AvgLoss;
      MirrorRsiOf(AvgGain(closes, period, t - 1), AvgLoss(closes, period, t - 1));
    }
  }
}
