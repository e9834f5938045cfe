// When one bar can signal both a long and a short entry: the code then prefers long, and
// with that the mirror image of a backtest is lost.
module Overlap {
  import opened Prelude
  import opened Features
  import opened Windows
  import opened Simulator
  import opened SimulatorProperties
  import opened Stops

  /** Two entry thresholds that some score and some RSI meet together. */
  predicate CanOverlap(cfg: StrategyConfig) {
    cfg.rsiOversold >= 50.0 && cfg.zEntry <= if cfg.smaWindow == 2 then -1.0 else 0.0
  }

  // ----- Only if ------------------------------------------------------------------------------

  /** In a window of two, every defined score is 1 or -1. */
  lemma PairScore(w: seq<real>, sqrt: real -> real)
    requires |w| == 2 && ExactRoot(sqrt) && ZOf(w, sqrt).Some?
    ensures Square(ZOf(w, sqrt).value) == 1.0
  {
    var m, v, d := Mean(w), Variance(w), Last(w) - Mean(w);
    PairSums(w, m);
    assert m == (w[0] + w[1]) / 2.0 && w[0] - m == -d;
    SquareOfNegation(d);
    assert v == Square(d);
    VarianceNonNegative(w);
    var sd := sqrt(v);
    assert IsRootOf(sd, v) && sd != 0.0;
    hide Mean, Variance, Square, ExactRoot, IsRootOf;
    ScoreSquared(d, sd, v);
    RootPositive(sd, v);
    OneFactor(v, Square(d / sd));
  }

  lemma OneSum(x: real, m: real)
    ensures Sum([x]) == x && SquaredDeviation([x], m) == Square(x - m)
  {
    assert Front([x]) == [] && [x][..0] == [];
    hide Square;
    assert Sum([x]) == Sum([]) + x;
    assert SquaredDeviation([x], m) == SquaredDeviation([], m) + Square(x - m);
  }

  lemma PairSums(w: seq<real>, m: real)
    requires |w| == 2
    ensures Sum(w) == w[0] + w[1] && SquaredDeviation(w, m) == Square(w[0] - m) + Square(w[1] - m)
  {
    var first := [w[0]];
    assert Front(w) == first && Last(w) == w[1] && w[..|w| - 1] == first;
    OneSum(w[0], m);
    hide Square;
    assert Sum(w) == Sum(first) + w[1];
    assert SquaredDeviation(w, m) == SquaredDeviation(first, m) + Square(w[1] - m);
  }

  lemma OneFactor(v: real, zz: real)
    requires v > 0.0 && v == v * zz
    ensures zz == 1.0
  {
    CancelFactor(v, zz, 1.0);
    CancelFactor(v, 1.0, zz);
  }

  lemma OverlapOnlyIf(closes: seq<real>, cfg: StrategyConfig, sqrt: real -> real, t: nat)
    requires 2 <= cfg.smaWindow && 2 <= cfg.rsiWindow && t < |closes| && ExactRoot(sqrt)
    requires cfg.rsiOversold + cfg.rsiOverbought == 100.0
    ensures var s := ComputeSignals(closes, cfg, sqrt).value[t]; s.entryLong && s.entryShort ==> CanOverlap(cfg)
  {
    hide ComputeSignals, ZScore, Rsi, RollingMean, RollingStd, ZOf, Window, Variance, ExactRoot;
    SignalColumns(closes, cfg, sqrt, t);
    var z := ZScore(closes, cfg.smaWindow, sqrt).value[t];
    ScoreAt(closes, cfg.smaWindow, sqrt, t);
    if cfg.smaWindow == 2 && z.Some? {
      PairScore(Window(closes, 2, t - 1), sqrt);
      if -1.0 < z.value < 1.0 {
        SmallerSquare(Abs(z.value), 1.0);
        SquareOfNegation(z.value);
        assert false;
      }
    }
  }

  // ----- If: a history with a score in the middle and an RSI of exactly 50 --------------------------

  lemma {:induction false} NetAverage(closes: seq<real>, alpha: real, k: nat)
    requires k + 1 < |closes|
    ensures |Gains(closes)| == |Losses(closes)| == |Deltas(closes)| == |closes| - 1
    ensures Ewm(Gains(closes), alpha, k) - Ewm(Losses(closes), alpha, k) == Ewm(Deltas(closes), alpha, k)
  {
    hide Gains, Losses, Deltas, Ewm, Mix;
    var g, l, d := Gains(closes), Losses(closes), Deltas(closes);
    NetMove(closes, k);
    EwmUnfolds(g, alpha, k);
    EwmUnfolds(l, alpha, k);
    EwmUnfolds(d, alpha, k);
    if k > 0 {
      NetAverage(closes, alpha, k - 1);
      Blend(alpha, Ewm(g, alpha, k - 1), Ewm(l, alpha, k - 1), Ewm(d, alpha, k - 1), g[k], l[k], d[k]);
    }
  }

  /** One step of the exponential average. */
  function Mix(alpha: real, before: real, x: real): real {
    (1.0 - alpha) * before + alpha * x
  }

  lemma EwmUnfolds(xs: seq<real>, alpha: real, k: nat)
    requires k < |xs|
    ensures Ewm(xs, alpha, k) == if k == 0 then xs[0] else Mix(alpha, Ewm(xs, alpha, k - 1), xs[k])
  {
  }

  lemma NetMove(closes: seq<real>, k: nat)
    requires k + 1 < |closes|
    ensures |Gains(closes)| == |Losses(closes)| == |Deltas(closes)| == |closes| - 1
    ensures Gains(closes)[k] - Losses(closes)[k] == Deltas(closes)[k]
  {
  }

  lemma Blend(alpha: real, g: real, l: real, d: real, x: real, y: real, u: real)
    requires g - l == d && x - y == u
    ensures Mix(alpha, g, x) - Mix(alpha, l, y) == Mix(alpha, d, u)
  {
  }

  /** Gains and losses in balance, with some gain among them: the RSI is 50. */
  lemma EvenRsi(closes: seq<real>, period: nat, i: nat, k0: nat)
    requires 2 <= period <= i < |closes| && k0 < i && closes[k0] < closes[k0 + 1]
    requires i - 1 < |Deltas(closes)| && Ewm(Deltas(closes), 1.0 / period as real, i - 1) == 0.0
    ensures RawRsi(closes, period, i) == Some(50.0)
  {
    var alpha := 1.0 / period as real;
    AlphaInRange(period);
    NetAverage(closes, alpha, i - 1);
    assert Gains(closes)[k0] > 0.0 && forall j :: 0 <= j < |Gains(closes)| ==> Gains(closes)[j] >= 0.0;
    hide Gains, Losses, Deltas;
    PositiveAverage(Gains(closes), alpha, k0, i - 1);
    var gain, loss := AvgGain(closes, period, i), AvgLoss(closes, period, i);
    assert gain == loss > 0.0;
    hide Ewm, AvgGain, AvgLoss, RsiOf;
    RsiIsShareOfGains(gain, loss);
    Half(gain);
  }

  lemma Half(g: real)
    requires g > 0.0
    ensures 100.0 * g / (g + g) == 50.0
  {
    EqualQuotients(100.0 * g, g + g, 50.0, 1.0);
  }

  lemma {:induction false} StaysZero(xs: seq<real>, alpha: real, k0: nat, k: nat)
    requires k0 <= k < |xs| && Ewm(xs, alpha, k0) == 0.0 && forall j :: k0 < j <= k ==> xs[j] == 0.0
    ensures Ewm(xs, alpha, k) == 0.0
  {
    if k > k0 {
      StaysZero(xs, alpha, k0, k - 1);
    }
  }

  /** The close that balances what follows it. */
  function Balance(beta: real): real
    requires beta > 0.0
  {
    ProductPositive(beta, beta);
    (1.0 - beta) / (beta * beta)
  }

  /** A flat stretch, a balancing close, the two sides of the mean, and the mean itself. */
  function Wave(flat: nat, n: nat, c: real): (closes: seq<real>)
    requires n >= 3
    ensures |closes| == flat + n + 2
  {
    Level(flat, 0.0) + [c] + [1.0] + [-1.0] + Level(n - 1, 0.0)
  }

  lemma WaveWindow(flat: nat, n: nat, c: real, sqrt: real -> real)
    requires n >= 3 && ExactRoot(sqrt)
    ensures var t := flat + n + 1; ZScore(Wave(flat, n, c), n, sqrt).value[t] == Some(0.0)
    ensures var std := RollingStd(Wave(flat, n, c), n, sqrt, flat + n); std.Some? && std.value > 0.0
  {
    var closes, t := Wave(flat, n, c), flat + n + 1;
    var w := Window(closes, n, t - 1);
    ScoreAt(closes, n, sqrt, t);
    assert w == [1.0] + [-1.0] + Level(n - 2, 0.0);
    WaveSum(n);
    VariancePositive(w, 0, 1);
    assert IsRootOf(sqrt(Variance(w)), Variance(w));
    hide ZScore, RollingStd, Variance, Wave, Window, ExactRoot;
    assert Last(w) == 0.0 && Mean(w) == 0.0;
    PositiveRoot(sqrt(Variance(w)), Variance(w));
  }

  lemma WaveSum(n: nat)
    requires n >= 3
    ensures Sum([1.0] + [-1.0] + Level(n - 2, 0.0)) == 0.0
  {
    var head, tail := [1.0] + [-1.0], Level(n - 2, 0.0);
    SumConcat(head, tail);
    HighSums(tail, 0.0);
    assert head[..1] == [1.0] && [1.0][..0] == [];
    assert Sum([1.0]) == 1.0;
    assert Sum(head) == 0.0;
  }

  lemma PositiveRoot(sd: real, v: real)
    requires IsRootOf(sd, v) && v > 0.0
    ensures sd > 0.0
  {
    if sd == 0.0 {
      assert false;
    }
  }

  lemma WaveRsi(flat: nat, n: nat, period: nat, c: real)
    requires n >= 3 && 2 <= period <= flat && c == BalancingClose(period)
    ensures RawRsi(Wave(flat, n, c), period, flat + n) == Some(50.0)
  {
    var closes, alpha := Wave(flat, n, c), 1.0 / period as real;
    AlphaInRange(period);
    var d := Deltas(closes);
    WaveMoves(flat, n, c);
    ZeroAverage(d, alpha, flat - 2);
    hide Deltas, Wave;
    Unroll(d, alpha, flat, c);
    StaysZero(d, alpha, flat + 2, flat + n - 1);
    EvenRsi(closes, period, flat + n, flat - 1);
  }

  lemma WaveMoves(flat: nat, n: nat, c: real)
    requires n >= 3 && flat >= 2 && c > 0.0
    ensures var closes := Wave(flat, n, c); var d := Deltas(closes);
      && |d| == flat + n + 1 && closes[flat - 1] < closes[flat]
      && (forall k :: 0 <= k < flat - 1 ==> d[k] == 0.0)
      && d[flat - 1] == c && d[flat] == 1.0 - c && d[flat + 1] == -2.0 && d[flat + 2] == 1.0
      && (forall k :: flat + 2 < k < flat + n ==> d[k] == 0.0)
  {
  }

  function BalancingClose(period: nat): (c: real)
    requires period >= 2
    ensures c > 0.0
  {
    AlphaInRange(period);
    var beta := 1.0 - 1.0 / period as real;
    ProductPositive(beta, beta);
    SignOfQuotient(1.0 - beta, beta * beta);
    Balance(beta)
  }

  lemma Unroll(d: seq<real>, alpha: real, flat: nat, c: real)
    requires 2 <= flat && flat + 2 < |d| && 0.0 < alpha < 1.0 && c == Balance(1.0 - alpha)
    requires Ewm(d, alpha, flat - 2) == 0.0
    requires d[flat - 1] == c && d[flat] == 1.0 - c && d[flat + 1] == -2.0 && d[flat + 2] == 1.0
    ensures Ewm(d, alpha, flat + 2) == 0.0
  {
    var b := 1.0 - alpha;
    var e1, e2 := Ewm(d, alpha, flat - 1), Ewm(d, alpha, flat);
    var e3 := Ewm(d, alpha, flat + 1);
    assert e1 == b * 0.0 + alpha * c;
    assert e2 == b * e1 + alpha * (1.0 - c);
    assert e3 == b * e2 + alpha * -2.0;
    assert Ewm(d, alpha, flat + 2) == b * e3 + alpha * 1.0;
    hide Ewm;
    BalancedMoves(alpha, b, c, e1, e2, e3);
  }

  lemma BalancedMoves(alpha: real, b: real, c: real, e1: real, e2: real, e3: real)
    requires 0.0 < alpha < 1.0 && b == 1.0 - alpha && c == Balance(b)
    requires e1 == alpha * c && e2 == b * e1 + alpha * (1.0 - c) && e3 == b * e2 + alpha * -2.0
    ensures b * e3 + alpha == 0.0
  {
    ProductPositive(b, b);
    var bbc := (b * b) * c;
    assert bbc == alpha;
    assert b * (b * e1) == alpha * bbc;
    assert b * (alpha * (1.0 - c)) == alpha * b - alpha * (b * c);
    assert b * (b * (alpha * (1.0 - c))) == alpha * (b * b) - alpha * bbc;
    assert b * (b * (b * e1)) == b * (alpha * bbc);
    assert b * e3 == b * (b * e2) - 2.0 * (b * alpha);
    assert b * (b * e2) == b * (b * (b * e1)) + b * (b * (alpha * (1.0 - c)));
    assert b * e3 == b * (alpha * alpha) + alpha * (b * b) - alpha * alpha - 2.0 * (b * alpha);
    assert b * (alpha * alpha) == alpha * (b * alpha);
    assert alpha * (b * b) + alpha * (b * alpha) == alpha * b;
  }

  /** For a window of two: a flat stretch and two closes that balance. */
  function Step2(flat: nat, alpha: real): (closes: seq<real>)
    ensures |closes| == flat + 3
  {
    Level(flat, 0.0) + [1.0] + [alpha] + [0.0]
  }

  lemma StepScore(flat: nat, alpha: real, sqrt: real -> real)
    requires ExactRoot(sqrt) && 0.0 < alpha < 1.0
    ensures var z := ZScore(Step2(flat, alpha), 2, sqrt).value[flat + 2]; z.Some? && -1.0 <= z.value <= 1.0
    ensures var std := RollingStd(Step2(flat, alpha), 2, sqrt, flat + 1); std.Some? && std.value > 0.0
  {
    var closes := Step2(flat, alpha);
    var w := Window(closes, 2, flat + 1);
    ScoreAt(closes, 2, sqrt, flat + 2);
    assert w == [1.0, alpha];
    VariancePositive(w, 0, 1);
    assert IsRootOf(sqrt(Variance(w)), Variance(w));
    hide ZScore, RollingStd, Variance, Step2, Window, Mean;
    PositiveRoot(sqrt(Variance(w)), Variance(w));
    PairScore(w, sqrt);
    var z := ZOf(w, sqrt).value;
    hide ZOf, ExactRoot;
    if z > 1.0 || z < -1.0 {
      SmallerSquare(1.0, Abs(z));
      SquareOfNegation(1.0);
      SquareOfNegation(z);
      assert false;
    }
  }

  lemma StepRsi(flat: nat, period: nat)
    requires 2 <= period <= flat
    ensures RawRsi(Step2(flat, 1.0 / period as real), period, flat + 1) == Some(50.0)
  {
    var alpha := 1.0 / period as real;
    AlphaInRange(period);
    var closes := Step2(flat, alpha);
    var d := Deltas(closes);
    StepMoves(flat, alpha);
    hide Deltas, Step2;
    ZeroAverage(d, alpha, flat - 2);
    StepAverage(d, alpha, flat);
    EvenRsi(closes, period, flat + 1, flat - 1);
  }

  lemma StepMoves(flat: nat, alpha: real)
    requires flat >= 2
    ensures var closes := Step2(flat, alpha); var d := Deltas(closes);
      && |d| == flat + 2 && (forall k :: 0 <= k < flat - 1 ==> d[k] == 0.0)
      && d[flat - 1] == 1.0 && d[flat] == alpha - 1.0 && closes[flat - 1] < closes[flat]
  {
  }

  lemma StepAverage(d: seq<real>, alpha: real, flat: nat)
    requires 2 <= flat < |d| && Ewm(d, alpha, flat - 2) == 0.0 && d[flat - 1] == 1.0 && d[flat] == alpha - 1.0
    ensures Ewm(d, alpha, flat) == 0.0
  {
    var e := Ewm(d, alpha, flat - 1);
    assert e == (1.0 - alpha) * 0.0 + alpha * 1.0;
    assert Ewm(d, alpha, flat) == (1.0 - alpha) * e + alpha * (alpha - 1.0);
    hide Ewm;
    assert e == alpha;
    assert (1.0 - alpha) * alpha + alpha * (alpha - 1.0) == 0.0;
  }

  /** A history of positive closes whose bar t signals both entries on a positive deviation. */
  ghost predicate SignalsBoth(closes: seq<real>, t: nat, cfg: StrategyConfig, sqrt: real -> real)
    requires 2 <= cfg.smaWindow && 2 <= cfg.rsiWindow
  {
    t < |closes| && AllPositive(closes)
    && var s := ComputeSignals(closes, cfg, sqrt).value[t];
       s.entryLong && s.entryShort && s.std.Some? && s.std.value > 0.0
  }

  /** Such a base history, before it is raised to positive closes. */
  lemma OverlapBase(cfg: StrategyConfig, sqrt: real -> real) returns (base: seq<real>, t: nat)
    requires 2 <= cfg.smaWindow && 2 <= cfg.rsiWindow && ExactRoot(sqrt) && CanOverlap(cfg)
    ensures 0 < t < |base| && forall i :: 0 <= i < |base| ==> base[i] > -2.0
    ensures var z := ZScore(base, cfg.smaWindow, sqrt).value[t]; z.Some? && cfg.zEntry <= z.value <= -cfg.zEntry
    ensures Rsi(base, cfg.rsiWindow).value[t] == Some(50.0)
    ensures var std := RollingStd(base, cfg.smaWindow, sqrt, t - 1); std.Some? && std.value > 0.0
  {
    var n, flat := cfg.smaWindow, cfg.rsiWindow;
    hide ZScore, RollingStd, RawRsi, ExactRoot;
    if n == 2 {
      var alpha := 1.0 / flat as real;
      AlphaInRange(flat);
      base, t := Step2(flat, alpha), flat + 2;
      StepScore(flat, alpha, sqrt);
      StepRsi(flat, flat);
    } else {
      var c := BalancingClose(flat);
      base, t := Wave(flat, n, c), flat + n + 1;
      WaveWindow(flat, n, c, sqrt);
      WaveRsi(flat, n, flat, c);
    }
  }

  lemma OverlapIf(cfg: StrategyConfig, sqrt: real -> real) returns (closes: seq<real>, t: nat)
    requires 2 <= cfg.smaWindow && 2 <= cfg.rsiWindow && ExactRoot(sqrt) && CanOverlap(cfg)
    requires cfg.rsiOversold + cfg.rsiOverbought == 100.0
    ensures SignalsBoth(closes, t, cfg, sqrt)
  {
    hide ComputeSignals, ZScore, Rsi, RollingStd, Shift, ExactRoot, AllPositive, CanOverlap;
    var base: seq<real>;
    base, t := OverlapBase(cfg, sqrt);
    closes := Shift(base, 2.0);
    RaisedIsPositive(base);
    OversoldIsMiddle(cfg);
    RaisedSignals(base, t, cfg, sqrt);
  }

  lemma RaisedIsPositive(base: seq<real>)
    requires forall i :: 0 <= i < |base| ==> base[i] > -2.0
    ensures AllPositive(Shift(base, 2.0))
  {
    ShiftEach(base, 2.0);
  }

  lemma OversoldIsMiddle(cfg: StrategyConfig)
    requires CanOverlap(cfg)
    ensures cfg.rsiOversold >= 50.0
  {
  }

  lemma RaisedSignals(base: seq<real>, t: nat, cfg: StrategyConfig, sqrt: real -> real)
    requires 2 <= cfg.smaWindow && 2 <= cfg.rsiWindow && 0 < t < |base|
    requires cfg.rsiOversold >= 50.0 && cfg.rsiOversold + cfg.rsiOverbought == 100.0
    requires var z := ZScore(base, cfg.smaWindow, sqrt).value[t]; z.Some? && cfg.zEntry <= z.value <= -cfg.zEntry
    requires Rsi(base, cfg.rsiWindow).value[t] == Some(50.0)
    ensures var s := ComputeSignals(Shift(base, 2.0), cfg, sqrt).value[t];
      s.entryLong && s.entryShort && s.std == RollingStd(base, cfg.smaWindow, sqrt, t - 1)
  {
    hide ComputeSignals, ZScore, Rsi, RollingMean, RollingStd, Shift;
    ShiftFeatures(base, 2.0, cfg.smaWindow, cfg.rsiWindow, sqrt, t);
    SignalColumns(Shift(base, 2.0), cfg, sqrt, t);
  }

  /** Some history signals both entries on one bar exactly when the thresholds overlap. */
  lemma BothColumnsIff(cfg: StrategyConfig, sqrt: real -> real)
    requires 2 <= cfg.smaWindow && 2 <= cfg.rsiWindow && ExactRoot(sqrt) && cfg.rsiOversold + cfg.rsiOverbought == 100.0
    ensures (exists closes: seq<real>, t: nat :: SignalsBoth(closes, t, cfg, sqrt)) <==> CanOverlap(cfg)
  {
    if CanOverlap(cfg) {
      var closes, t := OverlapIf(cfg, sqrt);
    } else {
      forall closes: seq<real>, t: nat
        ensures !SignalsBoth(closes, t, cfg, sqrt)
      {
        if t < |closes| {
          OverlapOnlyIf(closes, cfg, sqrt, t);
        }
      }
    }
  }

  // ----- When the mirror image of a backtest holds ---------------------------------------------------------

  /** Everything but the configuration that a backtest and its mirror image share. */
  datatype Setting = Setting(symbol: string, candles: Candles, k: real, sim: SimulatorConfig, rng: nat -> real,
                             firstDraw: nat)

  ghost predicate Mirrored(s: Setting, cfg: StrategyConfig, sqrt: real -> real)
    requires 2 <= cfg.smaWindow && 2 <= cfg.rsiWindow
  {
    s.candles.Aligned() ==>
      var a := MarketOf(s.symbol, s.candles, cfg, s.sim, sqrt, s.rng, s.firstDraw);
      var b := MarketOf(s.symbol, s.candles.(closes := Mirror(s.candles.closes, s.k)), cfg, s.sim, sqrt,
                        s.rng, s.firstDraw);
      MirrorBooks(Run(a, a.Bars()), Run(b, b.Bars()))
  }

  /** Some equity gives positions of positive size. */
  predicate Sizeable(cfg: StrategyConfig) {
    cfg.stopDistanceMultiplier > 0.0 && cfg.riskPerTradePct * cfg.maxNotionalPct > 0.0
  }

  /**
   * Every backtest has its mirror image exactly when the thresholds do not overlap, or no position can
   * ever be sized.
   */
  lemma MirrorIff(cfg: StrategyConfig, sqrt: real -> real)
    requires 2 <= cfg.smaWindow && 2 <= cfg.rsiWindow && ExactRoot(sqrt) && cfg.rsiOversold + cfg.rsiOverbought == 100.0
    ensures (forall s: Setting :: Mirrored(s, cfg, sqrt)) <==> !CanOverlap(cfg) || !Sizeable(cfg)
  {
    hide Mirrored, ExactRoot, Sizeable, CanOverlap;
    if CanOverlap(cfg) && Sizeable(cfg) {
      var s := MirrorFails(cfg, sqrt);
    } else {
      forall s: Setting
        ensures Mirrored(s, cfg, sqrt)
      {
        MirrorHolds(s, cfg, sqrt);
      }
    }
  }

  lemma MirrorHolds(s: Setting, cfg: StrategyConfig, sqrt: real -> real)
    requires 2 <= cfg.smaWindow && 2 <= cfg.rsiWindow && ExactRoot(sqrt) && cfg.rsiOversold + cfg.rsiOverbought == 100.0
    requires !CanOverlap(cfg) || !Sizeable(cfg)
    ensures Mirrored(s, cfg, sqrt)
  {
    hide ComputeSignals, MirrorBooks, Run, ExactRoot, CanOverlap, Sizeable;
    if s.candles.Aligned() {
      if CanOverlap(cfg) {
        MirrorWhenIdle(s, cfg, sqrt);
      } else {
        var signals := ComputeSignals(s.candles.closes, cfg, sqrt).value;
        forall t | 0 <= t < |signals|
          ensures !(signals[t].entryLong && signals[t].entryShort)
        {
          OverlapOnlyIf(s.candles.closes, cfg, sqrt, t);
        }
        MirrorWhenDecided(s.symbol, s.candles, s.k, cfg, s.sim, sqrt, s.rng, s.firstDraw);
      }
    }
  }

  /** Without any position the two backtests draw and skip alike. */
  lemma MirrorWhenIdle(s: Setting, cfg: StrategyConfig, sqrt: real -> real)
    requires 2 <= cfg.smaWindow && 2 <= cfg.rsiWindow && cfg.rsiOversold + cfg.rsiOverbought == 100.0
    requires s.candles.Aligned() && !Sizeable(cfg)
    ensures var a := MarketOf(s.symbol, s.candles, cfg, s.sim, sqrt, s.rng, s.firstDraw);
      var b := MarketOf(s.symbol, s.candles.(closes := Mirror(s.candles.closes, s.k)), cfg, s.sim, sqrt,
                        s.rng, s.firstDraw);
      MirrorBooks(Run(a, a.Bars()), Run(b, b.Bars()))
  {
    hide ComputeSignals, Run, Sizeable;
    var a := MarketOf(s.symbol, s.candles, cfg, s.sim, sqrt, s.rng, s.firstDraw);
    var b := MarketOf(s.symbol, s.candles.(closes := Mirror(s.candles.closes, s.k)), cfg, s.sim, sqrt,
                      s.rng, s.firstDraw);
    forall t | 0 <= t < a.Bars()
      ensures a.signals[t].entryLong == b.signals[t].entryShort && a.signals[t].entryShort == b.signals[t].entryLong
    {
      MirrorSignals(s.candles.closes, s.k, cfg, sqrt, t);
    }
    IdleRuns(a, b, a.Bars());
  }

  lemma {:induction false} IdleRuns(a: Market, b: Market, t: nat)
    requires a.Valid() && b.Valid() && a.Bars() == b.Bars() && t <= a.Bars() && a.candles.opens == b.candles.opens
    requires a.cfg == b.cfg && a.sim == b.sim && a.rng == b.rng && a.firstDraw == b.firstDraw && !Sizeable(a.cfg)
    requires forall u :: 0 <= u < a.Bars() ==>
      a.signals[u].entryLong == b.signals[u].entryShort && a.signals[u].entryShort == b.signals[u].entryLong
    ensures Run(a, t) == Run(b, t) && Run(a, t).position.Flat? && Run(a, t).trades == []
  {
    if t > 0 {
      IdleRuns(a, b, t - 1);
      hide SizePosition, Sizeable;
      NothingSized(a, t - 1);
      NothingSized(b, t - 1);
    }
  }

  lemma NothingSized(m: Market, t: nat)
    requires m.Valid() && t < m.Bars() && !Sizeable(m.cfg)
    ensures var open := m.candles.opens[t];
      open.Some? && open.value > 0.0 ==> SizePosition(open.value, m.signals[t].std, m.cfg, m.sim).size <= 0.0
  {
    hide SizePosition;
    var open := m.candles.opens[t];
    if open.Some? && open.value > 0.0 && SizePosition(open.value, m.signals[t].std, m.cfg, m.sim).size > 0.0 {
      SizedIff(open.value, m.signals[t].std, m.cfg, m.sim);
      SameSigns(m.cfg.riskPerTradePct, m.cfg.maxNotionalPct, m.sim.initialEquity);
      assert false;
    }
  }

  lemma SameSigns(a: real, b: real, e: real)
    requires a * e > 0.0 && b * e > 0.0
    ensures a * b > 0.0
  {
    if e > 0.0 {
      PositiveFactor(a, e);
      PositiveFactor(b, e);
      ProductPositive(a, b);
    } else {
      assert -a * -e == a * e && -b * -e == b * e;
      NonZeroFactor(a, e);
      PositiveFactor(-a, -e);
      PositiveFactor(-b, -e);
      ProductPositive(-a, -b);
      assert -a * -b == a * b;
    }
  }

  lemma NonZeroFactor(a: real, e: real)
    requires a * e > 0.0
    ensures e != 0.0
  {
  }

  /** The equity whose sign makes both limits positive. */
  lemma RightEquity(cfg: StrategyConfig) returns (sim: SimulatorConfig)
    requires Sizeable(cfg)
    ensures CanTrade(cfg, sim)
  {
    var equity := if cfg.riskPerTradePct > 0.0 then 1.0 else -1.0;
    sim := SimulatorConfig(equity, 0.0, 0.0, 1.0);
    if cfg.riskPerTradePct > 0.0 {
      if cfg.maxNotionalPct <= 0.0 {
        ProductNonNegative(cfg.riskPerTradePct, -cfg.maxNotionalPct);
        assert false;
      }
    } else {
      if cfg.maxNotionalPct >= 0.0 {
        ProductNonNegative(-cfg.riskPerTradePct, cfg.maxNotionalPct);
        assert false;
      }
      NonZeroFactor(cfg.maxNotionalPct, cfg.riskPerTradePct);
    }
  }

  /** Both backtests buy on the overlapping bar. */
  lemma MirrorFails(cfg: StrategyConfig, sqrt: real -> real) returns (s: Setting)
    requires 2 <= cfg.smaWindow && 2 <= cfg.rsiWindow && ExactRoot(sqrt) && cfg.rsiOversold + cfg.rsiOverbought == 100.0
    requires CanOverlap(cfg) && Sizeable(cfg)
    ensures !Mirrored(s, cfg, sqrt)
  {
    hide ComputeSignals, ExactRoot, CanOverlap, Sizeable, CanTrade, BarsFrom, Run, Mirror;
    var closes, t := OverlapIf(cfg, sqrt);
    var sim := RightEquity(cfg);
    var cut := closes[..t + 1];
    s := Setting("X", BarsFrom(cut, t), 0.0, sim, (k: nat) => 0.0, 0);
    CutSignals(closes, cut, t, cfg, sqrt);
    var a := MarketOf(s.symbol, s.candles, cfg, sim, sqrt, s.rng, 0);
    var b := MarketOf(s.symbol, s.candles.(closes := Mirror(cut, 0.0)), cfg, sim, sqrt, s.rng, 0);
    MirrorSignals(cut, 0.0, cfg, sqrt, t);
    BuysAt(a, t);
    BuysAt(b, t);
  }

  lemma CutSignals(closes: seq<real>, cut: seq<real>, t: nat, cfg: StrategyConfig, sqrt: real -> real)
    requires 2 <= cfg.smaWindow && 2 <= cfg.rsiWindow && t < |closes| && cut == closes[..t + 1]
    ensures ComputeSignals(cut, cfg, sqrt).value[t] == ComputeSignals(closes, cfg, sqrt).value[t]
  {
    hide ComputeSignals;
    SignalsAreLagged(cut, closes, cfg, sqrt, t);
  }

  lemma BuysAt(m: Market, t: nat)
    requires m.Valid() && m.Bars() == t + 1 && CanTrade(m.cfg, m.sim) && m.rng(m.firstDraw) == 0.0
    requires m.candles.opens[t] == Some(1.0) && forall u :: 0 <= u < t ==> m.candles.opens[u].None?
    requires m.signals[t].entryLong && m.signals[t].std.Some? && m.signals[t].std.value > 0.0
    ensures Run(m, t + 1).position.Open? && Run(m, t + 1).position.side == Long
  {
    hide Run, CanTrade;
    QuietStart(m, t);
    EntersAt(m, t, Long);
  }
}
