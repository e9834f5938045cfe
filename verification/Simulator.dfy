// src/backtest/simulator.py: signal columns, sizing, and the per-symbol position machine.
//
// Bars are numbered from 0. The random generator is an infinite stream read at an
// index, so that "how often it was drawn" is part of the state. A non-finite open is
// `None`.
module Simulator {
  import opened Prelude
  import opened Features

  // ----- Configuration and data ------------------------------------------------

  datatype StrategyConfig = StrategyConfig(
    smaWindow: int, rsiWindow: int, zEntry: real, rsiOversold: real, rsiOverbought: real,
    zTarget: real, zStop: real, timeStopBars: int, riskPerTradePct: real,
    maxNotionalPct: real, stopDistanceMultiplier: real)

  datatype SimulatorConfig = SimulatorConfig(
    initialEquity: real, makerFeeRate: real, slippageBps: real, fillProb: real)

  datatype Candles = Candles(times: seq<int>, opens: seq<Option<real>>, closes: seq<real>) {
    predicate Aligned() {
      |times| == |opens| == |closes|
    }
  }

  datatype Signal = Signal(
    z: Option<real>, r: Option<real>, sma: Option<real>, std: Option<real>,
    entryLong: bool, entryShort: bool,
    exitTargetLong: bool, exitTargetShort: bool,
    exitStopLong: bool, exitStopShort: bool)

  datatype Side = Long | Short

  datatype ExitReason = Target | Stop | TimeStop

  datatype Trade = Trade(
    symbol: string, side: Side, entryBar: nat, exitBar: nat, entryTime: int, exitTime: int,
    entryPrice: real, exitPrice: real, size: real, notional: real,
    fees: real, slippageCost: real, pnl: real, reason: ExitReason, barsHeld: int)

  // ----- compute_signals ----------------------------------------------------------

  predicate AtMost(x: Option<real>, bound: real) {
    x.Some? && x.value <= bound
  }

  predicate AtLeast(x: Option<real>, bound: real) {
    x.Some? && x.value >= bound
  }

  function SignalAt(z: Option<real>, r: Option<real>, sma: Option<real>, std: Option<real>,
                    cfg: StrategyConfig): Signal
  {
    Signal(z, r, sma, std,
           AtMost(z, -cfg.zEntry) && AtMost(r, cfg.rsiOversold),
           AtLeast(z, cfg.zEntry) && AtLeast(r, cfg.rsiOverbought),
           AtLeast(z, cfg.zTarget), AtMost(z, -cfg.zTarget),
           AtMost(z, -cfg.zStop), AtLeast(z, cfg.zStop))
  }

  function ComputeSignals(closes: seq<real>, cfg: StrategyConfig, sqrt: real -> real): (r: Result<seq<Signal>>)
    ensures r.Ok? <==> 2 <= cfg.smaWindow && 2 <= cfg.rsiWindow
    ensures r.Ok? ==> |r.value| == |closes|
  {
    var z := ZScore(closes, cfg.smaWindow, sqrt);
    var r := Rsi(closes, cfg.rsiWindow);
    if z.Err? then Err(z.error)
    else if r.Err? then Err(r.error)
    else
      var n := cfg.smaWindow;
      var sma := Lag(seq(|closes|, i requires 0 <= i < |closes| => RollingMean(closes, n, i)));
      var std := Lag(seq(|closes|, i requires 0 <= i < |closes| => RollingStd(closes, n, sqrt, i)));
      Ok(seq(|closes|, t requires 0 <= t < |closes| =>
        SignalAt(z.value[t], r.value[t], sma[t], std[t], cfg)))
  }

  // ----- _size_position -----------------------------------------------------------

  datatype Sizing = Sizing(notional: real, size: real, stopDistancePct: real)

  const UNSIZED := Sizing(0.0, 0.0, 0.0)

  function SizePosition(price: real, std: Option<real>, cfg: StrategyConfig, sim: SimulatorConfig): Sizing {
    if std.None? || std.value <= 0.0 || price <= 0.0 then UNSIZED
    else
      var stopPct := cfg.stopDistanceMultiplier * std.value / price;
      if stopPct <= 0.0 then UNSIZED
      else
        var raw := cfg.riskPerTradePct * sim.initialEquity / stopPct;
        var cap := cfg.maxNotionalPct * sim.initialEquity;
        var notional := Min(raw, cap);
        Sizing(notional, notional / price, stopPct)
  }

  // ----- The position machine as a function of the bar ------------------------------

  /** Everything `_simulate_symbol` is called with; `rng` is read from index `firstDraw` on. */
  datatype Market = Market(
    symbol: string, candles: Candles, signals: seq<Signal>,
    cfg: StrategyConfig, sim: SimulatorConfig, rng: nat -> real, firstDraw: nat)
  {
    predicate Valid() {
      candles.Aligned() && |signals| == |candles.opens|
    }

    function Bars(): nat {
      |signals|
    }

    function Slippage(): real {
      sim.slippageBps / 10000.0
    }
  }

  datatype Position = Flat | Open(side: Side, entryBar: nat, entryFill: real, size: real, notional: real)

  datatype Book = Book(position: Position, trades: seq<Trade>, skipped: nat, draws: nat)

  predicate StopSignal(s: Signal, side: Side) {
    if side.Long? then s.exitStopLong else s.exitStopShort
  }

  predicate TargetSignal(s: Signal, side: Side) {
    if side.Long? then s.exitTargetLong else s.exitTargetShort
  }

  function ExitAt(m: Market, t: nat, side: Side, entryBar: nat): Option<ExitReason>
    requires t < m.Bars()
  {
    if StopSignal(m.signals[t], side) then Some(Stop)
    else if TargetSignal(m.signals[t], side) then Some(Target)
    else if t - entryBar > m.cfg.timeStopBars then Some(TimeStop)
    else None
  }

  function Sign(side: Side): real {
    if side.Long? then 1.0 else -1.0
  }

  /** The price the exit works from: the open, or the entry fill when the open is not finite. */
  function RawExit(m: Market, t: nat, entryFill: real): real
    requires m.Valid() && t < m.Bars()
  {
    if m.candles.opens[t].Some? then m.candles.opens[t].value else entryFill
  }

  function ExitFill(raw: real, slippage: real, side: Side): real {
    if side.Long? then raw * (1.0 - slippage) else raw * (1.0 + slippage)
  }

  function EntryFill(raw: real, slippage: real, side: Side): real {
    if side.Long? then raw * (1.0 + slippage) else raw * (1.0 - slippage)
  }

  /** The three dollar columns of a trade. */
  datatype Cash = Cash(fees: real, slippageCost: real, pnl: real)

  function SettleCash(side: Side, entryFill: real, rawExit: real, exitFill: real,
                      size: real, notional: real, feeRate: real): Cash
  {
    var exitFee := Abs(size) * exitFill * feeRate;
    var gross := if side.Long? then (exitFill - entryFill) * size else (entryFill - exitFill) * size;
    var entryFee := notional * feeRate;
    var slippageCost := Abs(size) * (rawExit - exitFill) * (if side.Long? then 1.0 else -1.0);
    Cash(entryFee + exitFee, slippageCost, gross - entryFee - exitFee)
  }

  function CloseTrade(m: Market, t: nat, p: Position, reason: ExitReason): Trade
    requires m.Valid() && t < m.Bars() && p.Open? && p.entryBar < m.Bars()
  {
    var raw := RawExit(m, t, p.entryFill);
    var exitFill := ExitFill(raw, m.Slippage(), p.side);
    var cash := SettleCash(p.side, p.entryFill, raw, exitFill, p.size, p.notional, m.sim.makerFeeRate);
    Trade(m.symbol, p.side, p.entryBar, t, m.candles.times[p.entryBar], m.candles.times[t],
          p.entryFill, exitFill, p.size, p.notional, cash.fees, cash.slippageCost, cash.pnl,
          reason, t - p.entryBar)
  }

  function TryEnter(m: Market, t: nat, b: Book): Book
    requires m.Valid() && t < m.Bars() && b.position.Flat?
  {
    var s := m.signals[t];
    var open := m.candles.opens[t];
    if !s.entryLong && !s.entryShort then b
    else if open.None? || open.value <= 0.0 then b
    else if m.rng(b.draws) >= m.sim.fillProb then b.(skipped := b.skipped + 1, draws := b.draws + 1)
    else
      var sizing := SizePosition(open.value, s.std, m.cfg, m.sim);
      if sizing.size <= 0.0 then b.(skipped := b.skipped + 1, draws := b.draws + 1)
      else
        var side := if s.entryLong then Long else Short;
        b.(position := Open(side, t, EntryFill(open.value, m.Slippage(), side), sizing.size, sizing.notional),
           draws := b.draws + 1)
  }

  function Step(m: Market, t: nat, b: Book): Book
    requires m.Valid() && t < m.Bars()
    requires b.position.Open? ==> b.position.entryBar < m.Bars()
  {
    match b.position
    case Flat => TryEnter(m, t, b)
    case Open(side, entryBar, _, _, _) =>
      var exit := ExitAt(m, t, side, entryBar);
      if exit.None? then b
      else b.(position := Flat, trades := b.trades + [CloseTrade(m, t, b.position, exit.value)])
  }

  /** The book after the bars before `t`. */
  function Run(m: Market, t: nat): (b: Book)
    requires m.Valid() && t <= m.Bars()
    ensures b.position.Open? ==> b.position.entryBar < t
  {
    if t == 0 then Book(Flat, [], 0, m.firstDraw) else Step(m, t - 1, Run(m, t - 1))
  }

  /** The exit arithmetic of `_simulate_symbol`. */
  method SettleExit(m: Market, t: nat, side: Side, entryIdx: nat, entryFill: real, size: real, notional: real,
                    reason: ExitReason) returns (trade: Trade)
    requires m.Valid() && t < m.Bars() && entryIdx < m.Bars()
    ensures trade == CloseTrade(m, t, Open(side, entryIdx, entryFill, size, notional), reason)
  {
    var slippage, feeRate := m.Slippage(), m.sim.makerFeeRate;
    var rawExit := entryFill;
    if m.candles.opens[t].Some? {
      rawExit := m.candles.opens[t].value;
    }
    var exitFill := if side == Long then rawExit * (1.0 - slippage) else rawExit * (1.0 + slippage);
    var exitFee := Abs(size) * exitFill * feeRate;
    var gross := if side == Long then (exitFill - entryFill) * size else (entryFill - exitFill) * size;
    var entryFee := notional * feeRate;
    var slippageCost := Abs(size) * (rawExit - exitFill) * (if side == Long then 1.0 else -1.0);
    trade := Trade(m.symbol, side, entryIdx, t, m.candles.times[entryIdx], m.candles.times[t],
                   entryFill, exitFill, size, notional, entryFee + exitFee, slippageCost,
                   gross - entryFee - exitFee, reason, t - entryIdx);
  }

  /** `_simulate_symbol`, with the local variables and the loop of the source. */
  method SimulateSymbol(m: Market) returns (trades: seq<Trade>, skipped: nat, draws: nat)
    requires m.Valid()
    ensures var b := Run(m, m.Bars()); trades == b.trades && skipped == b.skipped && draws == b.draws
  {
    trades, skipped, draws := [], 0, m.firstDraw;
    var opens := m.candles.opens;
    var slippage := m.Slippage();
    var inPosition, side, entryIdx := false, Long, 0;
    var entryFill, size, notional := 0.0, 0.0, 0.0;
    for t := 0 to m.Bars()
      invariant inPosition ==> entryIdx < t
      invariant var b := Run(m, t); trades == b.trades && skipped == b.skipped && draws == b.draws
      invariant Run(m, t).position.Open? == inPosition
      invariant inPosition ==> Run(m, t).position == Open(side, entryIdx, entryFill, size, notional)
    {
      assert Run(m, t + 1) == Step(m, t, Run(m, t));
      if inPosition {
        var barsHeld := t - entryIdx;
        var shouldExit, reason := false, Target;
        if side == Long {
          if m.signals[t].exitStopLong {
            shouldExit, reason := true, Stop;
          } else if m.signals[t].exitTargetLong {
            shouldExit, reason := true, Target;
          } else if barsHeld > m.cfg.timeStopBars {
            shouldExit, reason := true, TimeStop;
          }
        } else {
          if m.signals[t].exitStopShort {
            shouldExit, reason := true, Stop;
          } else if m.signals[t].exitTargetShort {
            shouldExit, reason := true, Target;
          } else if barsHeld > m.cfg.timeStopBars {
            shouldExit, reason := true, TimeStop;
          }
        }
        if shouldExit {
          var trade := SettleExit(m, t, side, entryIdx, entryFill, size, notional, reason);
          trades := trades + [trade];
          inPosition, entryIdx, entryFill, size, notional := false, 0, 0.0, 0.0, 0.0;
          continue;
        }
      }
      if !inPosition && (m.signals[t].entryLong || m.signals[t].entryShort) {
        var wants := if m.signals[t].entryLong then Long else Short;
        if opens[t].None? || opens[t].value <= 0.0 {
          continue;
        }
        var rawOpen := opens[t].value;
        var sample := m.rng(draws);
        draws := draws + 1;
        if sample >= m.sim.fillProb {
          skipped := skipped + 1;
          continue;
        }
        var sizing := SizePosition(rawOpen, m.signals[t].std, m.cfg, m.sim);
        if sizing.size <= 0.0 {
          skipped := skipped + 1;
          continue;
        }
        entryFill := EntryFill(rawOpen, slippage, wants);
        inPosition, side, entryIdx := true, wants, t;
        size, notional := sizing.size, sizing.notional;
      }
    }
  }
}
