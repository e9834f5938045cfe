// When a backtest can be stopped out: the z-score bound carried to signals, and from
// signals to trades.
module Stops {
  import opened Prelude
  import opened Features
  import opened Windows
  import opened Simulator
  import opened SimulatorProperties

  // ----- Which stops can fire -----------------------------------------------------------

  lemma StopsBounded(closes: seq<real>, cfg: StrategyConfig, sqrt: real -> real, t: nat)
    requires 2 <= cfg.smaWindow && 2 <= cfg.rsiWindow && t < |closes| && ExactRoot(sqrt)
    requires cfg.zStop > 0.0 && Square(cfg.zStop) > cfg.smaWindow as real - 1.0
    ensures var s := ComputeSignals(closes, cfg, sqrt).value[t]; !s.exitStopLong && !s.exitStopShort
  {
    if cfg.smaWindow <= t {
      VarianceNonNegative(Window(closes, cfg.smaWindow, t - 1));
    }
    ZScoreBound(closes, cfg.smaWindow, sqrt, t);
    SignalColumns(closes, cfg, sqrt, t);
    hide ZScore, Rsi, RollingMean, RollingStd, ComputeSignals, Square;
    var z := ZScore(closes, cfg.smaWindow, sqrt).value[t];
    if z.Some? && (z.value >= cfg.zStop || z.value <= -cfg.zStop) {
      SquareMonotone(cfg.zStop, z.value);
      assert false;
    }
  }

  lemma SquareMonotone(a: real, x: real)
    requires a > 0.0 && (x >= a || x <= -a)
    ensures Square(x) >= Square(a)
  {
    var y := if x >= a then x else -x;
    ProductNonNegative(y - a, y + a);
    assert (y - a) * (y + a) == y * y - a * a;
    assert y * y == x * x;
  }

  /** With z_stop^2 > window - 1 no trade of any run is ever stopped out. */
  lemma NoTradeIsStopped(symbol: string, candles: Candles, cfg: StrategyConfig, sim: SimulatorConfig,
                         sqrt: real -> real, rng: nat -> real, firstDraw: nat)
    requires 2 <= cfg.smaWindow && 2 <= cfg.rsiWindow && candles.Aligned() && ExactRoot(sqrt)
    requires cfg.zStop > 0.0 && Square(cfg.zStop) > cfg.smaWindow as real - 1.0
    ensures var m := MarketOf(symbol, candles, cfg, sim, sqrt, rng, firstDraw);
      forall i :: 0 <= i < |Run(m, m.Bars()).trades| ==> Run(m, m.Bars()).trades[i].reason != Stop
  {
    var m := MarketOf(symbol, candles, cfg, sim, sqrt, rng, firstDraw);
    RunIsJustified(m, m.Bars());
    var trades := Run(m, m.Bars()).trades;
    forall i | 0 <= i < |trades|
      ensures trades[i].reason != Stop
    {
      assert ExitJustified(m, trades[i]);
      hide BookJustified, ComputeSignals, Run;
      StopsBounded(candles.closes, cfg, sqrt, trades[i].exitBar);
    }
  }

  lemma SmallerSquare(y: real, a: real)
    requires 0.0 <= y < a
    ensures Square(-y) < Square(a)
  {
    ProductPositive(a - y, a + y);
    assert (a - y) * (a + y) == a * a - y * y;
  }

  /** A negative score whose square reaches that of a level lies at or below minus the level. */
  lemma AtOrBelow(z: real, level: real)
    requires z < 0.0 && (level <= 0.0 || Square(z) >= Square(level))
    ensures z <= -level
  {
    if z > -level {
      SmallerSquare(-z, level);
      assert false;
    }
  }

  /** Whether the level is one a score can reach. */
  predicate Reachable(level: real, n: int) {
    level <= 0.0 || Square(level) <= n as real - 1.0
  }

  predicate AllPositive(closes: seq<real>) {
    forall i :: 0 <= i < |closes| ==> closes[i] > 0.0
  }

  // ----- A falling history and its rising mirror image, both with positive closes ---------------------

  /** What the history that falls below 0 looks like to a long or to a short position. */
  function Face(base: seq<real>, k: real, side: Side): (closes: seq<real>)
    ensures |closes| == |base|
  {
    if side.Long? then Shift(base, k) else Mirror(base, k)
  }

  lemma FaceIsPositive(base: seq<real>, k: real, side: Side)
    requires forall i :: 0 <= i < |base| ==> -k < base[i] < k
    ensures AllPositive(Face(base, k, side))
  {
    ShiftEach(base, k);
  }

  /** The signals of either face, from the features of the falling history. */
  lemma FaceRow(base: seq<real>, k: real, side: Side, cfg: StrategyConfig, sqrt: real -> real, t: nat)
    requires 2 <= cfg.smaWindow && 2 <= cfg.rsiWindow && t < |base|
    ensures var n := cfg.smaWindow;
      var z, r := ZScore(base, n, sqrt).value[t], Rsi(base, cfg.rsiWindow).value[t];
      var s := ComputeSignals(Face(base, k, side), cfg, sqrt).value[t];
      && s == SignalAt(if side.Long? then z else Negate(z), if side.Long? then r else Complement(r), s.sma, s.std, cfg)
      && (t > 0 ==> s.std == RollingStd(base, n, sqrt, t - 1))
  {
    hide ComputeSignals, ZScore, Rsi, RollingMean, RollingStd, RawZ, Shift, Mirror;
    var n, closes := cfg.smaWindow, Face(base, k, side);
    SignalRow(closes, cfg, sqrt, t);
    if side.Long? {
      ShiftFeatures(base, k, n, cfg.rsiWindow, sqrt, t);
    } else {
      MirrorFeatures(base, k, n, cfg.rsiWindow, sqrt, t);
      if t > 0 {
        MirrorRawZ(base, k, n, sqrt, t - 1);
      }
    }
  }

  /** The RSI level of that side lies within the scale. */
  predicate SideSignals(side: Side, cfg: StrategyConfig) {
    if side.Long? then cfg.rsiOversold >= 0.0 else cfg.rsiOversold < 0.0 && cfg.rsiOverbought <= 100.0
  }

  predicate Wants(s: Signal, side: Side) {
    if side.Long? then s.entryLong else s.entryShort && !s.entryLong
  }

  /** A low score on an RSI of 0 signals an entry, a score beyond the stop level a stop, one in between neither exit. */
  lemma FaceSignals(base: seq<real>, k: real, side: Side, cfg: StrategyConfig, sqrt: real -> real, t: nat)
    requires 2 <= cfg.smaWindow && 2 <= cfg.rsiWindow && t < |base|
    ensures var z := ZScore(base, cfg.smaWindow, sqrt).value[t];
      var s := ComputeSignals(Face(base, k, side), cfg, sqrt).value[t];
      && (z.None? ==> !s.entryLong && !s.entryShort)
      && (z.Some? && z.value <= -cfg.zEntry && Rsi(base, cfg.rsiWindow).value[t] == Some(0.0) ==>
            SideSignals(side, cfg) ==> Wants(s, side))
      && (z.Some? && z.value <= -cfg.zStop ==> StopSignal(s, side))
      && (z.Some? && -cfg.zStop < z.value < 0.0 && cfg.zTarget >= 0.0 ==>
          !StopSignal(s, side) && !TargetSignal(s, side))
  {
    hide ComputeSignals, ZScore, Rsi, RollingMean, RollingStd, Face;
    FaceRow(base, k, side, cfg, sqrt, t);
  }

  // ----- Which stop columns can be set ---------------------------------------------------------

  /** The outlier and a bar to act on it. */
  function Spike(n: nat): (w: seq<real>)
    requires n >= 2
    ensures |w| == n + 1
  {
    TwoLevel(n, n - 1) + [0.0]
  }

  lemma SpikeScore(n: nat, sqrt: real -> real)
    requires n >= 2 && ExactRoot(sqrt)
    ensures var z := ZScore(Spike(n), n, sqrt).value[n];
      z.Some? && z.value < 0.0 && Square(z.value) == n as real - 1.0
  {
    assert Window(Spike(n), n, n - 1) == TwoLevel(n, n - 1);
    hide ZScore, ZOf, TwoLevel, Spike, Window, Square, Variance, ExactRoot, RollingStd;
    ScoreAt(Spike(n), n, sqrt, n);
    OutlierScore(n, sqrt);
  }

  lemma SpikeIsPositive(n: nat, side: Side)
    requires n >= 2
    ensures AllPositive(Face(Spike(n), 2.0, side))
  {
    var base := Spike(n);
    assert forall i :: 0 <= i < |base| ==> -2.0 < base[i] < 2.0;
    FaceIsPositive(base, 2.0, side);
  }

  /** Some history of positive closes sets that side's stop column. */
  ghost predicate StopCanFire(side: Side, cfg: StrategyConfig, sqrt: real -> real)
    requires 2 <= cfg.smaWindow && 2 <= cfg.rsiWindow
  {
    exists closes: seq<real>, t: nat ::
      t < |closes| && AllPositive(closes) && StopSignal(ComputeSignals(closes, cfg, sqrt).value[t], side)
  }

  /** Either stop column can be set exactly when z_stop^2 <= window - 1, or z_stop is not positive. */
  lemma StopReachableIff(side: Side, cfg: StrategyConfig, sqrt: real -> real)
    requires 2 <= cfg.smaWindow && 2 <= cfg.rsiWindow && ExactRoot(sqrt)
    ensures StopCanFire(side, cfg, sqrt) <==> Reachable(cfg.zStop, cfg.smaWindow)
  {
    hide ComputeSignals, ZScore, Rsi, RollingMean, RollingStd, Square, ExactRoot, Spike, Face;
    var n := cfg.smaWindow;
    if Reachable(cfg.zStop, n) {
      var closes := Face(Spike(n), 2.0, side);
      SpikeScore(n, sqrt);
      AtOrBelow(ZScore(Spike(n), n, sqrt).value[n].value, cfg.zStop);
      FaceSignals(Spike(n), 2.0, side, cfg, sqrt, n);
      SpikeIsPositive(n, side);
      assert StopSignal(ComputeSignals(closes, cfg, sqrt).value[n], side);
    } else {
      forall closes: seq<real>, t: nat | t < |closes|
        ensures !StopSignal(ComputeSignals(closes, cfg, sqrt).value[t], side)
      {
        StopsBounded(closes, cfg, sqrt, t);
      }
    }
  }

  // ----- Which trades can be stopped out ---------------------------------------------------------

  lemma RsiRange(gain: real, loss: real)
    requires gain >= 0.0 && loss >= 0.0
    ensures 0.0 <= RsiOf(gain, loss) <= 100.0
  {
    RsiNonNegative(gain, loss);
    RsiNonNegative(loss, gain);
    MirrorRsiOf(gain, loss);
    hide RsiOf;
  }

  lemma RsiNonNegative(gain: real, loss: real)
    requires gain >= 0.0 && loss >= 0.0
    ensures RsiOf(gain, loss) >= 0.0
  {
    if gain + loss > 0.0 {
      RsiIsShareOfGains(gain, loss);
      RatioNonNegative(100.0 * gain, gain + loss);
      hide RsiOf;
    }
  }

  /** The fill model and the sizing leave room for a position at all. */
  predicate CanTrade(cfg: StrategyConfig, sim: SimulatorConfig) {
    sim.fillProb > 0.0 && HasBudget(cfg, sim)
  }

  /** The entry thresholds lie within what the two indicators can reach. */
  predicate CanSignal(cfg: StrategyConfig) {
    Reachable(cfg.zEntry, cfg.smaWindow) && (cfg.rsiOversold >= 0.0 || cfg.rsiOverbought <= 100.0)
  }

  /** The generator yields numbers in [0, 1). */
  ghost predicate UnitDraws(rng: nat -> real) {
    forall k: nat :: 0.0 <= rng(k) < 1.0
  }

  /** Otherwise no run ever opens a position. */
  lemma {:induction false} NeverTrades(m: Market, t: nat)
    requires m.Valid() && t <= m.Bars() && UnitDraws(m.rng) && !CanTrade(m.cfg, m.sim)
    ensures Run(m, t).position.Flat? && Run(m, t).trades == []
  {
    hide SizePosition, CanTrade;
    if t > 0 {
      NeverTrades(m, t - 1);
      NeverEnters(m, t - 1, Run(m, t - 1));
    }
  }

  lemma NeverEnters(m: Market, t: nat, b: Book)
    requires m.Valid() && t < m.Bars() && UnitDraws(m.rng) && !CanTrade(m.cfg, m.sim) && b.position.Flat?
    ensures TryEnter(m, t, b).position.Flat? && TryEnter(m, t, b).trades == b.trades
  {
    hide SizePosition;
    if m.candles.opens[t].Some? && m.candles.opens[t].value > 0.0 {
      var open := m.candles.opens[t].value;
      if SizePosition(open, m.signals[t].std, m.cfg, m.sim).size > 0.0 {
        SizedIff(open, m.signals[t].std, m.cfg, m.sim);
      }
    }
    assert 0.0 <= m.rng(b.draws);
  }

  /** A signalled entry puts its thresholds within reach. */
  lemma SignalNeedsReach(closes: seq<real>, cfg: StrategyConfig, sqrt: real -> real, t: nat)
    requires 2 <= cfg.smaWindow && 2 <= cfg.rsiWindow && t < |closes| && ExactRoot(sqrt)
    ensures var s := ComputeSignals(closes, cfg, sqrt).value[t]; s.entryLong || s.entryShort ==> CanSignal(cfg)
  {
    hide ComputeSignals, ZScore, Rsi, RollingMean, RollingStd, Square, Variance, Window, IsRootOf;
    var n := cfg.smaWindow;
    SignalColumns(closes, cfg, sqrt, t);
    if n <= t {
      VarianceNonNegative(Window(closes, n, t - 1));
    }
    ZScoreBound(closes, n, sqrt, t);
    RsiColumnRange(closes, cfg.rsiWindow, t);
    hide ExactRoot;
    var z := ZScore(closes, n, sqrt).value[t];
    if z.Some? && cfg.zEntry > 0.0 && (z.value >= cfg.zEntry || z.value <= -cfg.zEntry) {
      SquareMonotone(cfg.zEntry, z.value);
    }
  }

  lemma RsiColumnRange(closes: seq<real>, period: nat, t: nat)
    requires 2 <= period && t < |closes|
    ensures var r := Rsi(closes, period).value[t]; r.Some? ==> 0.0 <= r.value <= 100.0
  {
    hide RsiOf, AvgGain, AvgLoss;
    if t > 0 && period <= t - 1 {
      RsiRange(AvgGain(closes, period, t - 1), AvgLoss(closes, period, t - 1));
    }
  }

  /** The longest hold before a stop that the time stop allows, as far as a window reaches. */
  function LongestHold(cfg: StrategyConfig): (j: nat)
    requires 2 <= cfg.smaWindow
    ensures 0 < j < cfg.smaWindow
  {
    if MaxInt(cfg.timeStopBars, 0) + 1 < cfg.smaWindow then MaxInt(cfg.timeStopBars, 0) + 1 else cfg.smaWindow - 1
  }

  /** The entry level is one that a score can reach j bars before window - 1 equal closes end. */
  predicate EntryBefore(j: int, cfg: StrategyConfig) {
    cfg.zEntry <= 0.0 || DepthAtMost(cfg.zEntry, j, cfg.smaWindow - j)
  }

  /** The stop level is the bound of the score itself. */
  predicate OnEdge(cfg: StrategyConfig) {
    cfg.zStop > 0.0 && Square(cfg.zStop) == cfg.smaWindow as real - 1.0
  }

  /** A stop level that a held position can meet: on the bound itself, one entered early enough. */
  predicate StopInReach(cfg: StrategyConfig)
    requires 2 <= cfg.smaWindow
  {
    Reachable(cfg.zStop, cfg.smaWindow) && (OnEdge(cfg) ==> EntryBefore(LongestHold(cfg), cfg))
  }

  /** A stop on the bound ends a flat stretch, which limits the score of every entry inside it. */
  lemma EdgeLimitsEntry(closes: seq<real>, cfg: StrategyConfig, sqrt: real -> real, t: nat, exit: nat)
    requires 2 <= cfg.smaWindow && 2 <= cfg.rsiWindow && t < exit < |closes| && ExactRoot(sqrt) && OnEdge(cfg)
    ensures var signals := ComputeSignals(closes, cfg, sqrt).value;
      exit - t < cfg.smaWindow && (signals[t].entryLong || signals[t].entryShort)
      && (signals[exit].exitStopLong || signals[exit].exitStopShort) ==>
        EntryBefore(exit - t, cfg)
  {
    hide ComputeSignals, ZScore, Rsi, RollingMean, RollingStd, Square, Variance, ExactRoot, ZOf, Window, EntryBefore,
         OnEdge, DepthAtMost;
    var n, j := cfg.smaWindow, exit - t;
    EdgeLevel(cfg);
    SignalColumns(closes, cfg, sqrt, t);
    SignalColumns(closes, cfg, sqrt, exit);
    ScoreAt(closes, n, sqrt, t);
    ScoreAt(closes, n, sqrt, exit);
    var z, zx := ZScore(closes, n, sqrt).value[t], ZScore(closes, n, sqrt).value[exit];
    if z.Some? && zx.Some? && (zx.value >= cfg.zStop || zx.value <= -cfg.zStop) && j < n
       && (z.value >= cfg.zEntry || z.value <= -cfg.zEntry) {
      SquareMonotone(cfg.zStop, zx.value);
      ExtremeScore(Window(closes, n, exit - 1), sqrt);
      EqualTail(closes, n, t, exit);
      TailScore(Window(closes, n, t - 1), n - j, sqrt);
      EntryWithin(z.value, j, cfg);
    }
  }

  lemma EntryWithin(z: real, j: int, cfg: StrategyConfig)
    requires 0 < j < cfg.smaWindow && (z >= cfg.zEntry || z <= -cfg.zEntry)
    requires DepthAtMost(z, j, cfg.smaWindow - j)
    ensures EntryBefore(j, cfg)
  {
    if cfg.zEntry > 0.0 {
      SquareMonotone(cfg.zEntry, z);
      hide Square;
      ScaledOrder(Square(cfg.zEntry), Square(z), (cfg.smaWindow - j) as real);
    }
  }

  lemma ScaledOrder(a: real, b: real, k: real)
    requires a <= b && k >= 0.0
    ensures a * k <= b * k
  {
    ProductNonNegative(b - a, k);
    assert (b - a) * k == b * k - a * k;
  }

  /** Where two windows overlap, equal entries of the later are equal entries of the earlier. */
  lemma EqualTail(closes: seq<real>, n: nat, t: nat, exit: nat)
    requires 2 <= n <= t < exit < |closes| && exit - t < n
    requires var w := Window(closes, n, exit - 1); forall i, j :: 0 <= i < n - 1 && 0 <= j < n - 1 ==> w[i] == w[j]
    ensures var w := Window(closes, n, t - 1);
      |w| == n && forall i :: n - (n - (exit - t)) <= i < n ==> w[i] == Last(w)
  {
    var early, late, shift := Window(closes, n, t - 1), Window(closes, n, exit - 1), exit - t;
    assert forall i :: shift <= i < n ==> early[i] == late[i - shift];
  }

  /** Entering later than allowed does not help: a longer hold reaches a higher level. */
  lemma EntryBeforeMonotone(i: int, j: int, cfg: StrategyConfig)
    requires 0 < i <= j < cfg.smaWindow && EntryBefore(i, cfg)
    ensures EntryBefore(j, cfg)
  {
    if cfg.zEntry > 0.0 {
      var a, ni, nj := Square(cfg.zEntry), (cfg.smaWindow - i) as real, (cfg.smaWindow - j) as real;
      SquareNonNegative(cfg.zEntry);
      hide Square;
      ProductNonNegative(a, ni - nj);
      assert a * (ni - nj) == a * ni - a * nj;
    }
  }

  /** A run of the backtest on positive closes with a trade that exits by its stop. */
  ghost predicate StoppedRun(symbol: string, candles: Candles, cfg: StrategyConfig, sim: SimulatorConfig,
                             sqrt: real -> real, rng: nat -> real, firstDraw: nat)
    requires 2 <= cfg.smaWindow && 2 <= cfg.rsiWindow
  {
    && candles.Aligned() && AllPositive(candles.closes) && UnitDraws(rng)
    && var m := MarketOf(symbol, candles, cfg, sim, sqrt, rng, firstDraw);
       exists i :: 0 <= i < |Run(m, m.Bars()).trades| && Run(m, m.Bars()).trades[i].reason == Stop
  }

  lemma StoppedOnlyIf(symbol: string, candles: Candles, cfg: StrategyConfig, sim: SimulatorConfig,
                      sqrt: real -> real, rng: nat -> real, firstDraw: nat)
    requires 2 <= cfg.smaWindow && 2 <= cfg.rsiWindow && ExactRoot(sqrt)
    ensures StoppedRun(symbol, candles, cfg, sim, sqrt, rng, firstDraw) ==>
      StopInReach(cfg) && CanSignal(cfg) && CanTrade(cfg, sim)
  {
    hide ComputeSignals, CanSignal, CanTrade, ExactRoot, Square;
    if StoppedRun(symbol, candles, cfg, sim, sqrt, rng, firstDraw) {
      var m := MarketOf(symbol, candles, cfg, sim, sqrt, rng, firstDraw);
      if !Reachable(cfg.zStop, cfg.smaWindow) {
        NoTradeIsStopped(symbol, candles, cfg, sim, sqrt, rng, firstDraw);
      }
      if !CanTrade(cfg, sim) {
        NeverTrades(m, m.Bars());
      }
      RunIsJustified(m, m.Bars());
      var trades := Run(m, m.Bars()).trades;
      var i :| 0 <= i < |trades| && trades[i].reason == Stop;
      assert TradeJustified(m, trades[i]);
      hide BookJustified, Run;
      StoppedTradeFits(m, trades[i], sqrt);
    }
  }

  lemma StoppedTradeFits(m: Market, tr: Trade, sqrt: real -> real)
    requires m.Valid() && 2 <= m.cfg.smaWindow && 2 <= m.cfg.rsiWindow && ExactRoot(sqrt)
    requires m.signals == ComputeSignals(m.candles.closes, m.cfg, sqrt).value
    requires TradeJustified(m, tr) && tr.reason == Stop
    ensures CanSignal(m.cfg) && (OnEdge(m.cfg) ==> EntryBefore(LongestHold(m.cfg), m.cfg))
  {
    hide ComputeSignals, ExactRoot, EntryBefore, OnEdge, TradeJustified, CanSignal, LongestHold;
    TradeSignals(m, tr);
    SignalsFit(m.candles.closes, m.cfg, sqrt, tr.entryBar, tr.exitBar);
  }

  /** The signals behind a stopped trade, and how long it may have been held. */
  lemma TradeSignals(m: Market, tr: Trade)
    requires m.Valid() && TradeJustified(m, tr) && tr.reason == Stop
    ensures tr.entryBar < tr.exitBar < m.Bars() && tr.exitBar - tr.entryBar <= MaxInt(m.cfg.timeStopBars, 0) + 1
    ensures m.signals[tr.entryBar].entryLong || m.signals[tr.entryBar].entryShort
    ensures m.signals[tr.exitBar].exitStopLong || m.signals[tr.exitBar].exitStopShort
  {
    assert ExitJustified(m, tr);
    hide CashJustified, SizedToTheLimit;
  }

  lemma SignalsFit(closes: seq<real>, cfg: StrategyConfig, sqrt: real -> real, t: nat, exit: nat)
    requires 2 <= cfg.smaWindow && 2 <= cfg.rsiWindow && ExactRoot(sqrt) && t < exit < |closes|
    requires exit - t <= MaxInt(cfg.timeStopBars, 0) + 1
    requires var s := ComputeSignals(closes, cfg, sqrt).value[t]; s.entryLong || s.entryShort
    requires var s := ComputeSignals(closes, cfg, sqrt).value[exit]; s.exitStopLong || s.exitStopShort
    ensures CanSignal(cfg) && (OnEdge(cfg) ==> EntryBefore(LongestHold(cfg), cfg))
  {
    hide ComputeSignals, ExactRoot, EntryBefore, OnEdge, Square, Reachable, CanSignal, LongestHold, MaxInt;
    SignalNeedsReach(closes, cfg, sqrt, t);
    if OnEdge(cfg) {
      if exit - t < cfg.smaWindow {
        EdgeLimitsEntry(closes, cfg, sqrt, t, exit);
        LongEnough(exit - t, cfg);
        EntryBeforeMonotone(exit - t, LongestHold(cfg), cfg);
      } else {
        LongEnough(cfg.smaWindow - 1, cfg);
        FullReach(cfg);
      }
    }
  }

  lemma LongEnough(j: int, cfg: StrategyConfig)
    requires 2 <= cfg.smaWindow && j <= MaxInt(cfg.timeStopBars, 0) + 1 && j < cfg.smaWindow
    ensures j <= LongestHold(cfg)
  {
  }

  lemma FullReach(cfg: StrategyConfig)
    requires 2 <= cfg.smaWindow && CanSignal(cfg)
    ensures EntryBefore(cfg.smaWindow - 1, cfg)
  {
    hide Square;
  }

  // ----- ... and the run that is ----------------------------------------------------------------------

  /** Enter at bar t, hold, and be stopped j bars later. */
  lemma StopLater(m: Market, t: nat, j: nat, side: Side)
    requires m.Valid() && 0 < j && t + j < m.Bars() && CanTrade(m.cfg, m.sim) && m.rng(m.firstDraw) == 0.0
    requires Run(m, t) == Book(Flat, [], 0, m.firstDraw)
    requires m.candles.opens[t] == Some(1.0) && m.signals[t].std.Some? && m.signals[t].std.value > 0.0
    requires Wants(m.signals[t], side) && StopSignal(m.signals[t + j], side)
    requires forall u :: t < u < t + j ==> ExitAt(m, u, side, t) == None
    ensures exists i :: 0 <= i < |Run(m, m.Bars()).trades| && Run(m, m.Bars()).trades[i].reason == Stop
  {
    hide Run, ExitAt, StopSignal, Wants, CanTrade;
    EntersAt(m, t, side);
    HeldOn(m, t, j, side, t + j);
    StopsAt(m, t, t + j, side);
    TradesStayAt(m, t + j + 1, m.Bars());
  }

  lemma EntersAt(m: Market, t: nat, side: Side)
    requires m.Valid() && t < m.Bars() && CanTrade(m.cfg, m.sim) && m.rng(m.firstDraw) == 0.0
    requires Run(m, t) == Book(Flat, [], 0, m.firstDraw)
    requires m.candles.opens[t] == Some(1.0) && m.signals[t].std.Some? && m.signals[t].std.value > 0.0
    requires Wants(m.signals[t], side)
    ensures var b := Run(m, t + 1);
      b.position.Open? && b.position.side == side && b.position.entryBar == t && b.trades == []
  {
    SizedIff(1.0, m.signals[t].std, m.cfg, m.sim);
    hide SizePosition, EntryFill;
    assert Run(m, t + 1) == TryEnter(m, t, Run(m, t));
    hide Run;
  }

  lemma StopsAt(m: Market, t: nat, u: nat, side: Side)
    requires m.Valid() && t < u < m.Bars() && StopSignal(m.signals[u], side)
    requires var b := Run(m, u);
      b.position.Open? && b.position.side == side && b.position.entryBar == t && b.trades == []
    ensures var b := Run(m, u + 1); |b.trades| == 1 && b.trades[0].reason == Stop
  {
    hide SettleCash, ExitFill, RawExit, StopSignal;
    assert Run(m, u + 1) == Step(m, u, Run(m, u));
    hide Run;
  }

  lemma {:induction false} HeldOn(m: Market, t: nat, j: nat, side: Side, u: nat)
    requires m.Valid() && t < u <= t + j < m.Bars()
    requires var p := Run(m, t + 1).position; p.Open? && p.entryBar == t && p.side == side
    requires forall v :: t < v < t + j ==> ExitAt(m, v, side, t) == None
    ensures Run(m, u) == Run(m, t + 1)
  {
    if u > t + 1 {
      HeldOn(m, t, j, side, u - 1);
    }
  }

  lemma {:induction false} TradesStayAt(m: Market, t: nat, u: nat)
    requires m.Valid() && t <= u <= m.Bars()
    ensures Run(m, t).trades <= Run(m, u).trades
  {
    if u > t {
      TradesStayAt(m, t, u - 1);
      hide ExitAt, SettleCash, SizePosition;
    }
  }

  lemma {:induction false} QuietStart(m: Market, t: nat)
    requires m.Valid() && t <= m.Bars()
    requires forall u :: 0 <= u < t ==>
      (!m.signals[u].entryLong && !m.signals[u].entryShort) || m.candles.opens[u].None?
    ensures Run(m, t) == Book(Flat, [], 0, m.firstDraw)
  {
    if t > 0 {
      QuietStart(m, t - 1);
    }
  }

  /** Bars with open price 1, missing before bar `from`. */
  function BarsFrom(closes: seq<real>, from: nat): (c: Candles)
    ensures c.Aligned() && c.closes == closes
    ensures forall t :: 0 <= t < |closes| ==> c.opens[t] == if t < from then None else Some(1.0)
  {
    Candles(seq(|closes|, i => i), seq(|closes|, i => if i < from then None else Some(1.0)), closes)
  }

  /** Nothing is entered before bar t: no signal, or no open. */
  predicate QuietBefore(signals: seq<Signal>, t: nat, from: nat)
    requires t <= |signals|
  {
    forall u :: 0 <= u < t ==> (!signals[u].entryLong && !signals[u].entryShort) || u < from
  }

  /** These signals enter that side at bar t, give no reason to leave it, and stop it j bars later. */
  predicate EntersAndStops(signals: seq<Signal>, cfg: StrategyConfig, t: nat, j: nat, side: Side)
    requires t + j < |signals|
  {
    && Wants(signals[t], side) && signals[t].std.Some? && signals[t].std.value > 0.0
    && StopSignal(signals[t + j], side)
    && (forall u :: t < u < t + j ==> !StopSignal(signals[u], side) && !TargetSignal(signals[u], side))
    && j <= MaxInt(cfg.timeStopBars, 0) + 1
  }

  lemma NoOpenNoEntry(signals: seq<Signal>, t: nat)
    requires t <= |signals|
    ensures QuietBefore(signals, t, t)
  {
  }

  /** Such signals make a stopped run of the backtest. */
  lemma SignalsMakeRun(symbol: string, closes: seq<real>, from: nat, cfg: StrategyConfig, sim: SimulatorConfig,
                       sqrt: real -> real, rng: nat -> real, t: nat, j: nat, side: Side)
    requires 2 <= cfg.smaWindow && 2 <= cfg.rsiWindow && AllPositive(closes) && UnitDraws(rng) && rng(0) == 0.0
    requires CanTrade(cfg, sim) && 0 < j && from <= t && t + j < |closes|
    requires var signals := ComputeSignals(closes, cfg, sqrt).value;
      QuietBefore(signals, t, from) && EntersAndStops(signals, cfg, t, j, side)
    ensures StoppedRun(symbol, BarsFrom(closes, from), cfg, sim, sqrt, rng, 0)
  {
    hide ComputeSignals, CanTrade, Run, AllPositive, BarsFrom, Wants;
    var m := MarketOf(symbol, BarsFrom(closes, from), cfg, sim, sqrt, rng, 0);
    QuietStart(m, t);
    StopLater(m, t, j, side);
  }

  /** A long flat stretch, the outlier, the fall, and a bar to act on it. */
  function Crash(flat: nat, M: real): (closes: seq<real>)
    ensures |closes| == flat + 3
  {
    Level(flat, 0.0) + [-1.0] + [-M] + [0.0]
  }

  lemma CrashWindows(n: nat, flat: nat, M: real, i: nat)
    requires 2 <= n <= flat + 1 && n <= i + 1 && i <= flat + 1
    ensures var w := Window(Crash(flat, M), n, i);
      && (i < flat ==> forall j :: 0 <= j < n ==> w[j] == 0.0)
      && (i == flat ==> w == TwoLevel(n, n - 1))
      && (i == flat + 1 ==> w == Fall(n, M))
  {
    var closes := Crash(flat, M);
    var w := Window(closes, n, i);
    assert forall j :: 0 <= j < n ==> w[j] == closes[i + 1 - n + j];
    if i == flat {
      assert forall j :: 0 <= j < n ==> w[j] == TwoLevel(n, n - 1)[j];
    } else if i == flat + 1 {
      assert forall j :: 0 <= j < n ==> w[j] == Fall(n, M)[j];
    }
  }

  lemma CrashIsQuiet(n: nat, flat: nat, M: real, sqrt: real -> real, t: nat)
    requires 2 <= n <= flat && t <= flat && ExactRoot(sqrt)
    ensures ZScore(Crash(flat, M), n, sqrt).value[t] == None
  {
    hide ZScore, ZOf, Crash, Window, RollingStd, ExactRoot;
    ScoreAt(Crash(flat, M), n, sqrt, t);
    if n <= t {
      CrashWindows(n, flat, M, t - 1);
      FlatHasNoScore(Window(Crash(flat, M), n, t - 1), sqrt);
    }
  }

  /** At the outlier the score is at its bound, on a positive deviation. */
  lemma CrashOutlier(n: nat, flat: nat, M: real, sqrt: real -> real)
    requires 2 <= n <= flat && ExactRoot(sqrt)
    ensures var z := ZScore(Crash(flat, M), n, sqrt).value[flat + 1];
      z.Some? && z.value < 0.0 && Square(z.value) == n as real - 1.0
    ensures var std := RollingStd(Crash(flat, M), n, sqrt, flat); std.Some? && std.value > 0.0
  {
    hide ZScore, ZOf, Variance, TwoLevel, Crash, Window, Square, RollingStd, ExactRoot;
    CrashWindows(n, flat, M, flat);
    ScoreAt(Crash(flat, M), n, sqrt, flat + 1);
    OutlierScore(n, sqrt);
  }

  /** At the fall it is beyond the level. */
  lemma CrashFall(n: nat, flat: nat, M: real, level: real, sqrt: real -> real)
    requires 2 <= n <= flat && ExactRoot(sqrt) && Square(level) < n as real - 1.0 && Deep(M, n, level)
    ensures var z := ZScore(Crash(flat, M), n, sqrt).value[flat + 2];
      z.Some? && z.value < 0.0 && Square(z.value) >= Square(level)
  {
    hide ZScore, ZOf, Variance, Fall, Crash, Window, Square, RollingStd, Deep, ExactRoot;
    CrashWindows(n, flat, M, flat + 1);
    ScoreAt(Crash(flat, M), n, sqrt, flat + 2);
    FallScore(n, M, level, sqrt);
  }

  lemma CrashRsi(flat: nat, M: real, period: nat)
    requires 2 <= period <= flat
    ensures Rsi(Crash(flat, M), period).value[flat + 1] == Some(0.0)
  {
    FallingRsi(Crash(flat, M), period, flat, flat - 1);
    hide RawRsi;
  }

  /** The crash as a backtest: entered at the outlier, stopped at the fall. */
  lemma CrashStops(symbol: string, side: Side, cfg: StrategyConfig, sim: SimulatorConfig, sqrt: real -> real,
                   rng: nat -> real, flat: nat, M: real, level: real)
    requires 2 <= cfg.smaWindow <= flat && 2 <= cfg.rsiWindow <= flat && ExactRoot(sqrt) && UnitDraws(rng)
    requires rng(0) == 0.0
    requires Square(level) < cfg.smaWindow as real - 1.0 && Deep(M, cfg.smaWindow, level)
    requires CanTrade(cfg, sim) && Reachable(cfg.zEntry, cfg.smaWindow) && SideSignals(side, cfg)
    requires cfg.zStop <= 0.0 || level == cfg.zStop
    ensures StoppedRun(symbol, BarsFrom(Face(Crash(flat, M), M + 1.0, side), 0), cfg, sim, sqrt, rng, 0)
  {
    hide StoppedRun, Crash, Square, CanTrade, Deep, ExactRoot, Face, SideSignals, QuietBefore, EntersAndStops,
         AllPositive, ComputeSignals, Reachable, UnitDraws, BarsFrom;
    CrashIsPositive(flat, M, side, cfg.smaWindow, level);
    CrashSignals(flat, M, level, side, cfg, sqrt);
    SignalsMakeRun(symbol, Face(Crash(flat, M), M + 1.0, side), 0, cfg, sim, sqrt, rng, flat + 1, 1, side);
  }

  lemma CrashIsPositive(flat: nat, M: real, side: Side, n: nat, level: real)
    requires Deep(M, n, level)
    ensures AllPositive(Face(Crash(flat, M), M + 1.0, side))
  {
    assert M >= 3.0;
    hide Deep;
    FaceIsPositive(Crash(flat, M), M + 1.0, side);
  }

  lemma LedgeIsPositive(flat: nat, n: nat, side: Side)
    requires n >= 2
    ensures AllPositive(Face(Ledge(flat, n), 3.0, side))
  {
    var base := Ledge(flat, n);
    assert forall i :: 0 <= i < |base| ==> -3.0 < base[i] < 3.0;
    FaceIsPositive(base, 3.0, side);
  }

  lemma CrashSignals(flat: nat, M: real, level: real, side: Side, cfg: StrategyConfig, sqrt: real -> real)
    requires 2 <= cfg.smaWindow <= flat && 2 <= cfg.rsiWindow <= flat && ExactRoot(sqrt)
    requires Square(level) < cfg.smaWindow as real - 1.0 && Deep(M, cfg.smaWindow, level)
    requires Reachable(cfg.zEntry, cfg.smaWindow) && SideSignals(side, cfg) && (cfg.zStop <= 0.0 || level == cfg.zStop)
    ensures var signals := ComputeSignals(Face(Crash(flat, M), M + 1.0, side), cfg, sqrt).value;
      QuietBefore(signals, flat + 1, 0) && EntersAndStops(signals, cfg, flat + 1, 1, side)
  {
    hide ComputeSignals, Crash, Square, Deep, ExactRoot, Face, SideSignals, Wants, MaxInt, StopSignal, Reachable;
    var signals := ComputeSignals(Face(Crash(flat, M), M + 1.0, side), cfg, sqrt).value;
    forall u | 0 <= u < flat + 1
      ensures !signals[u].entryLong && !signals[u].entryShort
    {
      CrashWaits(flat, M, side, cfg, sqrt, u);
    }
    CrashEnters(flat, M, side, cfg, sqrt);
    CrashLeaves(flat, M, level, side, cfg, sqrt);
    HoldIsPositive(cfg.timeStopBars);
  }

  lemma CrashWaits(flat: nat, M: real, side: Side, cfg: StrategyConfig, sqrt: real -> real, u: nat)
    requires 2 <= cfg.smaWindow <= flat && 2 <= cfg.rsiWindow && ExactRoot(sqrt) && u <= flat
    ensures var s := ComputeSignals(Face(Crash(flat, M), M + 1.0, side), cfg, sqrt).value[u];
      !s.entryLong && !s.entryShort
  {
    hide ComputeSignals, Crash, ZScore, Rsi, Face, SideSignals, Wants, StopSignal, TargetSignal, ExactRoot;
    CrashIsQuiet(cfg.smaWindow, flat, M, sqrt, u);
    FaceSignals(Crash(flat, M), M + 1.0, side, cfg, sqrt, u);
  }

  lemma CrashEnters(flat: nat, M: real, side: Side, cfg: StrategyConfig, sqrt: real -> real)
    requires 2 <= cfg.smaWindow <= flat && 2 <= cfg.rsiWindow <= flat && ExactRoot(sqrt)
    requires Reachable(cfg.zEntry, cfg.smaWindow) && SideSignals(side, cfg)
    ensures var s := ComputeSignals(Face(Crash(flat, M), M + 1.0, side), cfg, sqrt).value[flat + 1];
      Wants(s, side) && s.std.Some? && s.std.value > 0.0
  {
    hide ComputeSignals, Crash, ZScore, Rsi, RollingStd, Square, Face, SideSignals, Wants, StopSignal, TargetSignal,
         ExactRoot, SignalAt, RollingMean;
    var base, n, k := Crash(flat, M), cfg.smaWindow, M + 1.0;
    CrashOutlier(n, flat, M, sqrt);
    CrashRsi(flat, M, cfg.rsiWindow);
    AtOrBelow(ZScore(base, n, sqrt).value[flat + 1].value, cfg.zEntry);
    FaceSignals(base, k, side, cfg, sqrt, flat + 1);
    FaceRow(base, k, side, cfg, sqrt, flat + 1);
  }

  lemma CrashLeaves(flat: nat, M: real, level: real, side: Side, cfg: StrategyConfig, sqrt: real -> real)
    requires 2 <= cfg.smaWindow <= flat && 2 <= cfg.rsiWindow && ExactRoot(sqrt)
    requires Square(level) < cfg.smaWindow as real - 1.0 && Deep(M, cfg.smaWindow, level)
    requires cfg.zStop <= 0.0 || level == cfg.zStop
    ensures StopSignal(ComputeSignals(Face(Crash(flat, M), M + 1.0, side), cfg, sqrt).value[flat + 2], side)
  {
    hide ComputeSignals, Crash, ZScore, Rsi, Square, Face, SideSignals, Wants, StopSignal, TargetSignal, ExactRoot,
         Deep;
    CrashFall(cfg.smaWindow, flat, M, level, sqrt);
    AtOrBelow(ZScore(Crash(flat, M), cfg.smaWindow, sqrt).value[flat + 2].value, cfg.zStop);
    FaceSignals(Crash(flat, M), M + 1.0, side, cfg, sqrt, flat + 2);
  }

  lemma HoldIsPositive(bars: int)
    ensures 1 <= MaxInt(bars, 0) + 1
  {
  }

  /** A step down, window - 1 equal closes, one more step down, and a bar to act on it. */
  function Ledge(flat: nat, n: nat): (closes: seq<real>)
    requires n >= 2
    ensures |closes| == flat + n + 1
  {
    Level(flat, 0.0) + Level(n - 1, -1.0) + [-2.0] + [0.0]
  }

  lemma LedgeWindows(n: nat, flat: nat, j: nat)
    requires 2 <= n <= flat && 0 < j < n
    ensures Window(Ledge(flat, n), n, flat + n - j - 1) == TwoLevel(n, j)
    ensures Window(Ledge(flat, n), n, flat + n - 1) == Shift(TwoLevel(n, n - 1), -1.0)
  {
    var closes := Ledge(flat, n);
    var w, last := Window(closes, n, flat + n - j - 1), Window(closes, n, flat + n - 1);
    assert forall i :: 0 <= i < n ==> w[i] == closes[flat - j + i] == TwoLevel(n, j)[i];
    ShiftEach(TwoLevel(n, n - 1), -1.0);
    assert forall i :: 0 <= i < n ==> last[i] == closes[flat + i] == Shift(TwoLevel(n, n - 1), -1.0)[i];
  }

  lemma LedgeRsi(flat: nat, n: nat, period: nat, t: nat)
    requires n >= 2 && 2 <= period <= flat && flat < t < flat + n
    ensures Rsi(Ledge(flat, n), period).value[t] == Some(0.0)
  {
    FallingRsi(Ledge(flat, n), period, t - 1, flat - 1);
    hide RawRsi;
  }

  /** j bars before the last step the score is -sqrt(j / (n - j)); at the last step it is at its bound. */
  lemma LedgeScores(n: nat, flat: nat, j: nat, sqrt: real -> real)
    requires 2 <= n <= flat && 0 < j < n && ExactRoot(sqrt)
    ensures var z := ZScore(Ledge(flat, n), n, sqrt).value; var t := flat + n - j;
      && z[t].Some? && DepthIs(z[t].value, j, n - j)
      && z[flat + n].Some? && z[flat + n].value < 0.0 && Square(z[flat + n].value) == n as real - 1.0
    ensures var std := RollingStd(Ledge(flat, n), n, sqrt, flat + n - j - 1); std.Some? && std.value > 0.0
  {
    hide ZScore, ZOf, Variance, TwoLevel, Ledge, Window, Square, RollingStd, ExactRoot, Shift, DepthIs;
    LedgeWindows(n, flat, j);
    ScoreAt(Ledge(flat, n), n, sqrt, flat + n - j);
    ScoreAt(Ledge(flat, n), n, sqrt, flat + n);
    TwoLevelScore(n, j, sqrt);
    OutlierScore(n, sqrt);
    ShiftedScore(TwoLevel(n, n - 1), -1.0, sqrt);
  }

  /** Inside the ledge the score lies strictly between the stop level and zero. */
  lemma BetweenOnLedge(z: real, n: nat, i: nat, level: real)
    requires 0 < i < n - 1 && DepthIs(z, i, n - i)
    requires level > 0.0 && Square(level) == n as real - 1.0
    ensures -level < z < 0.0
  {
    if z <= -level {
      SquareMonotone(level, z);
      hide Square;
      ScaledOrder(n as real - 1.0, Square(z), (n - i) as real);
      Strictly(n, i);
      assert false;
    }
  }

  lemma Strictly(n: nat, i: nat)
    requires 0 < i < n - 1
    ensures (n as real - 1.0) * (n - i) as real > i as real
  {
    ProductNonNegative(n as real - 2.0, (n - i) as real - 2.0);
    var a, b := n as real - 1.0, (n - i) as real;
    assert (a - 1.0) * (b - 2.0) == a * b - 2.0 * a - b + 2.0;
  }

  lemma EntryOnLedge(z: real, n: nat, j: nat, cfg: StrategyConfig)
    requires 0 < j < n && cfg.smaWindow == n && DepthIs(z, j, n - j)
    requires EntryBefore(j, cfg)
    ensures z <= -cfg.zEntry
  {
    var k := (n - j) as real;
    if cfg.zEntry > 0.0 {
      assert k * Square(cfg.zEntry) <= k * Square(z);
      CancelFactor(k, Square(cfg.zEntry), Square(z));
    }
    hide Square;
    AtOrBelow(z, cfg.zEntry);
  }

  /** The ledge as a backtest whose opens are missing until late: entered as early as the time stop allows. */
  lemma LedgeStops(symbol: string, side: Side, cfg: StrategyConfig, sim: SimulatorConfig, sqrt: real -> real,
                   rng: nat -> real, flat: nat, n: nat, j: nat, t: nat)
    requires n == cfg.smaWindow && 2 <= n <= flat && 2 <= cfg.rsiWindow <= flat && j == LongestHold(cfg)
    requires t == flat + n - j
    requires ExactRoot(sqrt) && UnitDraws(rng) && rng(0) == 0.0
    requires OnEdge(cfg) && cfg.zTarget >= 0.0 && EntryBefore(j, cfg)
    requires CanTrade(cfg, sim) && SideSignals(side, cfg)
    ensures StoppedRun(symbol, BarsFrom(Face(Ledge(flat, n), 3.0, side), t), cfg, sim, sqrt, rng, 0)
  {
    hide StoppedRun, Ledge, CanTrade, ExactRoot, Face, SideSignals, EntersAndStops, AllPositive, ComputeSignals,
         OnEdge, EntryBefore, UnitDraws, LongestHold, QuietBefore, BarsFrom;
    var closes := Face(Ledge(flat, n), 3.0, side);
    assert |closes| == t + j + 1;
    LedgeIsPositive(flat, n, side);
    LedgeSignals(flat, n, j, t, side, cfg, sqrt);
    NoOpenNoEntry(ComputeSignals(closes, cfg, sqrt).value, t);
    SignalsMakeRun(symbol, closes, t, cfg, sim, sqrt, rng, t, j, side);
  }

  lemma LedgeSignals(flat: nat, n: nat, j: nat, t: nat, side: Side, cfg: StrategyConfig, sqrt: real -> real)
    requires n == cfg.smaWindow && 2 <= n <= flat && 2 <= cfg.rsiWindow <= flat && j == LongestHold(cfg)
    requires t == flat + n - j
    requires ExactRoot(sqrt) && OnEdge(cfg) && cfg.zTarget >= 0.0 && EntryBefore(j, cfg) && SideSignals(side, cfg)
    ensures EntersAndStops(ComputeSignals(Face(Ledge(flat, n), 3.0, side), cfg, sqrt).value, cfg, t, j, side)
  {
    hide ComputeSignals, Ledge, ZScore, Rsi, RollingStd, Square, ExactRoot, Face, SideSignals, Wants, EntryBefore,
         OnEdge, LongestHold, MaxInt, StopSignal, TargetSignal;
    EdgeLevel(cfg);
    HoldAllowed(cfg);
    var base := Ledge(flat, n);
    assert t + j == flat + n;
    LedgeEnters(flat, n, j, side, cfg, sqrt);
    forall u | t < u < t + j
      ensures var s := ComputeSignals(Face(base, 3.0, side), cfg, sqrt).value[u];
        !StopSignal(s, side) && !TargetSignal(s, side)
    {
      LedgeHolds(flat, n, flat + n - u, side, cfg, sqrt);
    }
  }

  lemma EdgeLevel(cfg: StrategyConfig)
    requires OnEdge(cfg)
    ensures cfg.zStop > 0.0 && Square(cfg.zStop) == cfg.smaWindow as real - 1.0
  {
  }

  lemma HoldAllowed(cfg: StrategyConfig)
    requires 2 <= cfg.smaWindow
    ensures LongestHold(cfg) <= MaxInt(cfg.timeStopBars, 0) + 1
  {
  }

  lemma LedgeEnters(flat: nat, n: nat, j: nat, side: Side, cfg: StrategyConfig, sqrt: real -> real)
    requires 2 <= n <= flat && 0 < j < n && cfg.smaWindow == n && 2 <= cfg.rsiWindow <= flat && ExactRoot(sqrt)
    requires cfg.zStop > 0.0 && Square(cfg.zStop) == n as real - 1.0 && EntryBefore(j, cfg) && SideSignals(side, cfg)
    ensures var t := flat + n - j; var signals := ComputeSignals(Face(Ledge(flat, n), 3.0, side), cfg, sqrt).value;
      && Wants(signals[t], side) && signals[t].std.Some? && signals[t].std.value > 0.0
      && StopSignal(signals[flat + n], side)
  {
    hide ComputeSignals, Ledge, ZScore, Rsi, RollingStd, Square, ExactRoot, Face, SideSignals, Wants, EntryBefore,
         StopSignal, TargetSignal, DepthIs, SignalAt, RollingMean;
    var base, t := Ledge(flat, n), flat + n - j;
    LedgeRsi(flat, n, cfg.rsiWindow, t);
    LedgeScores(n, flat, j, sqrt);
    var z := ZScore(base, n, sqrt).value;
    EntryOnLedge(z[t].value, n, j, cfg);
    AtOrBelow(z[flat + n].value, cfg.zStop);
    FaceSignals(base, 3.0, side, cfg, sqrt, t);
    FaceSignals(base, 3.0, side, cfg, sqrt, flat + n);
    FaceRow(base, 3.0, side, cfg, sqrt, t);
  }

  lemma LedgeHolds(flat: nat, n: nat, i: nat, side: Side, cfg: StrategyConfig, sqrt: real -> real)
    requires 2 <= n <= flat && 0 < i < n - 1 && cfg.smaWindow == n && 2 <= cfg.rsiWindow && ExactRoot(sqrt)
    requires cfg.zStop > 0.0 && Square(cfg.zStop) == n as real - 1.0 && cfg.zTarget >= 0.0
    ensures var s := ComputeSignals(Face(Ledge(flat, n), 3.0, side), cfg, sqrt).value[flat + n - i];
      !StopSignal(s, side) && !TargetSignal(s, side)
  {
    hide ComputeSignals, Ledge, ZScore, Rsi, RollingStd, Square, ExactRoot, Face, SideSignals, Wants, StopSignal,
         TargetSignal, DepthIs;
    LedgeScores(n, flat, i, sqrt);
    BetweenOnLedge(ZScore(Ledge(flat, n), n, sqrt).value[flat + n - i].value, n, i, cfg.zStop);
    FaceSignals(Ledge(flat, n), 3.0, side, cfg, sqrt, flat + n - i);
  }

  /**
   * Some backtest on positive closes has a trade that exits by its stop exactly when the stop
   * and the entry are within reach of the indicators and positions can be filled and sized.
   * With the stop level on the bound itself this is for z_target >= 0.
   */
  lemma StoppedTradeIff(symbol: string, cfg: StrategyConfig, sim: SimulatorConfig, sqrt: real -> real)
    requires 2 <= cfg.smaWindow && 2 <= cfg.rsiWindow && ExactRoot(sqrt)
    requires OnEdge(cfg) ==> cfg.zTarget >= 0.0
    ensures (exists candles: Candles, rng: nat -> real, firstDraw: nat ::
               StoppedRun(symbol, candles, cfg, sim, sqrt, rng, firstDraw))
       <==> StopInReach(cfg) && CanSignal(cfg) && CanTrade(cfg, sim)
  {
    hide StoppedRun, ExactRoot, Square, CanTrade, CanSignal;
    if StopInReach(cfg) && CanSignal(cfg) && CanTrade(cfg, sim) {
      StoppedIf(symbol, cfg, sim, sqrt);
    } else {
      forall candles: Candles, rng: nat -> real, firstDraw: nat
        ensures !StoppedRun(symbol, candles, cfg, sim, sqrt, rng, firstDraw)
      {
        StoppedOnlyIf(symbol, candles, cfg, sim, sqrt, rng, firstDraw);
      }
    }
  }

  lemma StoppedIf(symbol: string, cfg: StrategyConfig, sim: SimulatorConfig, sqrt: real -> real)
    requires 2 <= cfg.smaWindow && 2 <= cfg.rsiWindow && ExactRoot(sqrt)
    requires (OnEdge(cfg) ==> cfg.zTarget >= 0.0) && StopInReach(cfg) && CanSignal(cfg) && CanTrade(cfg, sim)
    ensures exists candles: Candles, rng: nat -> real, firstDraw: nat ::
              StoppedRun(symbol, candles, cfg, sim, sqrt, rng, firstDraw)
  {
    assert Square(0.0) == 0.0;
    hide StoppedRun, ExactRoot, Square, CanTrade, EntryBefore;
    var flat := cfg.smaWindow + cfg.rsiWindow;
    var rng := (k: nat) => 0.0;
    assert UnitDraws(rng);
    var side := if cfg.rsiOversold >= 0.0 then Long else Short;
    if OnEdge(cfg) {
      var n, j := cfg.smaWindow, LongestHold(cfg);
      LedgeStops(symbol, side, cfg, sim, sqrt, rng, flat, n, j, flat + n - j);
    } else {
      var level := Max(cfg.zStop, 0.0);
      var M := DeepFall(cfg.smaWindow, level);
      CrashStops(symbol, side, cfg, sim, sqrt, rng, flat, M, level);
    }
  }
}
