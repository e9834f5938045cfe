// Whole-run properties of the backtest machine: no look-ahead, the order and the
// arithmetic of its trades, the chances it takes, and long/short symmetry.
module SimulatorProperties {
  import opened Prelude
  import opened Features
  import opened Simulator

  // ----- The trade list only grows, and grows at the current bar -------------------

  function ExitedBy(trades: seq<Trade>, k: nat): seq<Trade> {
    if trades == [] then []
    else ExitedBy(trades[..|trades| - 1], k) +
         (if trades[|trades| - 1].exitBar <= k then [trades[|trades| - 1]] else [])
  }

  lemma {:induction false} ExitedByAll(trades: seq<Trade>, k: nat)
    requires forall i :: 0 <= i < |trades| ==> trades[i].exitBar <= k
    ensures ExitedBy(trades, k) == trades
  {
    if trades != [] {
      ExitedByAll(trades[..|trades| - 1], k);
      assert trades == trades[..|trades| - 1] + [trades[|trades| - 1]];
    }
  }

  lemma {:induction false} ExitsBeforeNow(m: Market, t: nat)
    requires m.Valid() && t <= m.Bars()
    ensures forall i :: 0 <= i < |Run(m, t).trades| ==> Run(m, t).trades[i].exitBar < t
  {
    if t > 0 {
      ExitsBeforeNow(m, t - 1);
    }
  }

  lemma {:induction false} SettledTradesStay(m: Market, k: nat, t: nat)
    requires m.Valid() && k < t <= m.Bars()
    ensures ExitedBy(Run(m, t).trades, k) == Run(m, k + 1).trades
  {
    hide ExitedBy, Step;
    if t == k + 1 {
      ExitsBeforeNow(m, t);
      ExitedByAll(Run(m, t).trades, k);
    } else {
      SettledTradesStay(m, k, t - 1);
      var before := Run(m, t - 1);
      assert Run(m, t) == Step(m, t - 1, before);
      hide Run;
      StepExits(m, t - 1, before, k);
    }
  }

  lemma StepExits(m: Market, t: nat, b: Book, k: nat)
    requires m.Valid() && k < t < m.Bars()
    requires b.position.Open? ==> b.position.entryBar < m.Bars()
    ensures ExitedBy(Step(m, t, b).trades, k) == ExitedBy(b.trades, k)
  {
    var now := Step(m, t, b).trades;
    hide SettleCash, ExitFill, RawExit, SizePosition;
    assert now == b.trades || (|now| > 0 && now[..|now| - 1] == b.trades && now[|now| - 1].exitBar == t);
  }

  // ----- No look-ahead ---------------------------------------------------------------

  /** The two histories cannot be told apart at the open of bar k. */
  predicate SameUntilOpenOf(a: Candles, b: Candles, k: nat)
    requires a.Aligned() && b.Aligned() && k < |a.closes| && k < |b.closes|
  {
    && a.times[..k + 1] == b.times[..k + 1]
    && a.opens[..k + 1] == b.opens[..k + 1]
    && a.closes[..k] == b.closes[..k]
  }

  function MarketOf(symbol: string, candles: Candles, cfg: StrategyConfig, sim: SimulatorConfig,
                    sqrt: real -> real, rng: nat -> real, firstDraw: nat): Market
    requires 2 <= cfg.smaWindow && 2 <= cfg.rsiWindow
  {
    Market(symbol, candles, ComputeSignals(candles.closes, cfg, sqrt).value, cfg, sim, rng, firstDraw)
  }

  lemma SignalsAreLagged(a: seq<real>, b: seq<real>, cfg: StrategyConfig, sqrt: real -> real, t: nat)
    requires 2 <= cfg.smaWindow && 2 <= cfg.rsiWindow
    requires t < |a| && t < |b| && a[..t] == b[..t]
    ensures ComputeSignals(a, cfg, sqrt).value[t] == ComputeSignals(b, cfg, sqrt).value[t]
  {
    FeaturesAreLagged(a, b, cfg.smaWindow, cfg.rsiWindow, sqrt, t);
    if t > 0 {
      RawZPrefix(a, b, cfg.smaWindow, sqrt, t - 1);
    }
    hide ComputeSignals, ZScore, Rsi, RollingMean, RollingStd, SignalAt;
    SignalRow(a, cfg, sqrt, t);
    SignalRow(b, cfg, sqrt, t);
  }

  lemma SignalRow(closes: seq<real>, cfg: StrategyConfig, sqrt: real -> real, t: nat)
    requires 2 <= cfg.smaWindow && 2 <= cfg.rsiWindow && t < |closes|
    ensures ComputeSignals(closes, cfg, sqrt).value[t]
         == SignalAt(ZScore(closes, cfg.smaWindow, sqrt).value[t], Rsi(closes, cfg.rsiWindow).value[t],
                     if t == 0 then None else RollingMean(closes, cfg.smaWindow, t - 1),
                     if t == 0 then None else RollingStd(closes, cfg.smaWindow, sqrt, t - 1), cfg)
  {
    hide ZScore, Rsi, RollingMean, RollingStd, SignalAt;
    var n := cfg.smaWindow;
    var sma := seq(|closes|, i requires 0 <= i < |closes| => RollingMean(closes, n, i));
    var std := seq(|closes|, i requires 0 <= i < |closes| => RollingStd(closes, n, sqrt, i));
    assert t > 0 ==> Lag(sma)[t] == sma[t - 1] && Lag(std)[t] == std[t - 1];
  }

  /** One row of the signal table, column by column: inclusive comparisons that no undefined value passes. */
  lemma SignalColumns(closes: seq<real>, cfg: StrategyConfig, sqrt: real -> real, t: nat)
    requires 2 <= cfg.smaWindow && 2 <= cfg.rsiWindow && t < |closes|
    ensures var s, n := ComputeSignals(closes, cfg, sqrt).value[t], cfg.smaWindow;
      var z, r := ZScore(closes, n, sqrt).value[t], Rsi(closes, cfg.rsiWindow).value[t];
      && s.z == z && s.r == r
      && s.sma == (if t == 0 then None else RollingMean(closes, n, t - 1))
      && s.std == (if t == 0 then None else RollingStd(closes, n, sqrt, t - 1))
      && (s.entryLong <==> z.Some? && r.Some? && z.value <= -cfg.zEntry && r.value <= cfg.rsiOversold)
      && (s.entryShort <==> z.Some? && r.Some? && z.value >= cfg.zEntry && r.value >= cfg.rsiOverbought)
      && (s.exitTargetLong <==> z.Some? && z.value >= cfg.zTarget)
      && (s.exitTargetShort <==> z.Some? && z.value <= -cfg.zTarget)
      && (s.exitStopLong <==> z.Some? && z.value <= -cfg.zStop)
      && (s.exitStopShort <==> z.Some? && z.value >= cfg.zStop)
  {
    hide ComputeSignals, ZScore, Rsi, RollingMean, RollingStd;
    SignalRow(closes, cfg, sqrt, t);
  }

  lemma {:induction false} SameInputsSameBook(a: Market, b: Market, t: nat)
    requires a.Valid() && b.Valid() && t <= a.Bars() && t <= b.Bars()
    requires a.symbol == b.symbol && a.cfg == b.cfg && a.sim == b.sim && a.rng == b.rng && a.firstDraw == b.firstDraw
    requires forall u :: 0 <= u < t ==> a.signals[u] == b.signals[u]
    requires forall u :: 0 <= u < t ==> a.candles.opens[u] == b.candles.opens[u]
    requires forall u :: 0 <= u < t ==> a.candles.times[u] == b.candles.times[u]
    ensures Run(a, t) == Run(b, t)
  {
    if t > 0 {
      SameInputsSameBook(a, b, t - 1);
      assert a.Slippage() == b.Slippage();
      assert Step(a, t - 1, Run(a, t - 1)) == Step(b, t - 1, Run(a, t - 1));
    }
  }

  /** What the machine has done by the open of bar k is a function of the past alone. */
  lemma NoLookAhead(symbol: string, a: Candles, b: Candles, cfg: StrategyConfig, sim: SimulatorConfig,
                    sqrt: real -> real, rng: nat -> real, firstDraw: nat, k: nat)
    requires 2 <= cfg.smaWindow && 2 <= cfg.rsiWindow
    requires a.Aligned() && b.Aligned() && k < |a.closes| && k < |b.closes|
    requires SameUntilOpenOf(a, b, k)
    ensures var ma := MarketOf(symbol, a, cfg, sim, sqrt, rng, firstDraw);
      var mb := MarketOf(symbol, b, cfg, sim, sqrt, rng, firstDraw);
      && Run(ma, k + 1) == Run(mb, k + 1)
      && ExitedBy(Run(ma, ma.Bars()).trades, k) == ExitedBy(Run(mb, mb.Bars()).trades, k)
  {
    var ma := MarketOf(symbol, a, cfg, sim, sqrt, rng, firstDraw);
    var mb := MarketOf(symbol, b, cfg, sim, sqrt, rng, firstDraw);
    forall u | 0 <= u < k + 1
      ensures ma.signals[u] == mb.signals[u] && a.opens[u] == b.opens[u] && a.times[u] == b.times[u]
    {
      assert a.closes[..u] == a.closes[..k][..u] == b.closes[..k][..u] == b.closes[..u];
      SignalsAreLagged(a.closes, b.closes, cfg, sqrt, u);
      assert a.opens[u] == a.opens[..k + 1][u] == b.opens[..k + 1][u];
      assert a.times[u] == a.times[..k + 1][u] == b.times[..k + 1][u];
    }
    SameInputsSameBook(ma, mb, k + 1);
    SettledTradesStay(ma, k, ma.Bars());
    SettledTradesStay(mb, k, mb.Bars());
  }

  // ----- Accounting --------------------------------------------------------------------

  function MaxInt(a: int, b: int): int {
    if a >= b then a else b
  }

  /** The entry that opened the position: signal, fill and size. */
  predicate EntryJustified(m: Market, side: Side, entryBar: nat, fill: real, size: real, notional: real)
    requires m.Valid()
  {
    && entryBar < m.Bars()
    && m.candles.opens[entryBar].Some?
    && var open := m.candles.opens[entryBar].value;
    && var s := m.signals[entryBar];
    && open > 0.0 && size > 0.0
    && (if side.Long? then s.entryLong else s.entryShort && !s.entryLong)
    && fill == open + Sign(side) * (m.sim.slippageBps / 10000.0) * open
    && notional == size * open
    && s.std.Some?
    && SizedToTheLimit(size, notional, m.cfg.stopDistanceMultiplier * s.std.value,
                       m.cfg.riskPerTradePct * m.sim.initialEquity, m.cfg.maxNotionalPct * m.sim.initialEquity)
  }

  /** Both limits hold, and at least one of them is exhausted. */
  predicate SizedToTheLimit(size: real, notional: real, reach: real, risk: real, cap: real) {
    notional <= cap && size * reach <= risk && (notional == cap || size * reach == risk)
  }

  /** Bar u gives the held side no reason to leave: neither of its two columns, and the time is not up. */
  predicate NoExit(m: Market, side: Side, entryBar: nat, u: nat)
    requires m.Valid() && u < m.Bars()
  {
    var s := m.signals[u];
    && !(if side.Long? then s.exitStopLong || s.exitTargetLong else s.exitStopShort || s.exitTargetShort)
    && u - entryBar <= m.cfg.timeStopBars
  }

  /** Bar t makes it leave for that reason: a stop before a target, and the time only without either. */
  predicate ExitFor(m: Market, side: Side, entryBar: nat, t: nat, reason: ExitReason)
    requires m.Valid() && t < m.Bars()
  {
    var s := m.signals[t];
    var stop := if side.Long? then s.exitStopLong else s.exitStopShort;
    var target := if side.Long? then s.exitTargetLong else s.exitTargetShort;
    match reason
    case Stop => stop
    case Target => target && !stop
    case TimeStop => !stop && !target && t - entryBar > m.cfg.timeStopBars
  }

  lemma ExitAtIs(m: Market, side: Side, entryBar: nat, t: nat)
    requires m.Valid() && t < m.Bars()
    ensures ExitAt(m, t, side, entryBar) == None <==> NoExit(m, side, entryBar, t)
    ensures forall reason :: ExitAt(m, t, side, entryBar) == Some(reason) <==> ExitFor(m, side, entryBar, t, reason)
  {
  }

  /** The exit happens at the first bar after the entry with a reason to leave, for that reason. */
  predicate ExitJustified(m: Market, tr: Trade)
    requires m.Valid()
  {
    && tr.entryBar < tr.exitBar < m.Bars()
    && ExitFor(m, tr.side, tr.entryBar, tr.exitBar, tr.reason)
    && forall u :: tr.entryBar < u < tr.exitBar ==> NoExit(m, tr.side, tr.entryBar, u)
  }

  /**
   * The cash account of one trade, in terms of the opens of its entry and exit bars rather than of the
   * fills; without an exit open the exit works from the entry fill.
   */
  predicate CashJustified(m: Market, tr: Trade)
    requires m.Valid() && tr.entryBar < m.Bars() && tr.exitBar < m.Bars()
  {
    && m.candles.opens[tr.entryBar].Some?
    && var rawEntry := m.candles.opens[tr.entryBar].value;
    && var exitOpen := m.candles.opens[tr.exitBar];
    && CashAccount(tr.side, rawEntry, if exitOpen.Some? then exitOpen.value else tr.entryPrice,
                   m.sim.slippageBps / 10000.0, tr.size, tr.notional, m.sim.makerFeeRate, tr.exitPrice,
                   tr.fees, tr.slippageCost, tr.pnl)
  }

  /** Profit is the signed move of the two opens times the size, less the fees and the slippage of both fills. */
  predicate CashAccount(side: Side, rawEntry: real, rawExit: real, slip: real, size: real, notional: real,
                        feeRate: real, exitPrice: real, fees: real, slippageCost: real, pnl: real)
  {
    && exitPrice == rawExit - Sign(side) * slip * rawExit
    && fees == feeRate * (notional + size * exitPrice)
    && slippageCost == slip * rawExit * size
    && pnl == Sign(side) * (rawExit - rawEntry) * size - fees - slip * rawEntry * size - slippageCost
  }

  predicate TradeJustified(m: Market, tr: Trade)
    requires m.Valid()
  {
    && EntryJustified(m, tr.side, tr.entryBar, tr.entryPrice, tr.size, tr.notional)
    && ExitJustified(m, tr)
    && CashJustified(m, tr)
    && tr.symbol == m.symbol
    && tr.entryTime == m.candles.times[tr.entryBar] && tr.exitTime == m.candles.times[tr.exitBar]
    && tr.barsHeld == tr.exitBar - tr.entryBar
    && 1 <= tr.barsHeld <= MaxInt(m.cfg.timeStopBars, 0) + 1
  }

  predicate Disjoint(trades: seq<Trade>) {
    forall i, j :: 0 <= i < j < |trades| ==> trades[i].exitBar < trades[j].entryBar
  }

  predicate OpenJustified(m: Market, t: nat, b: Book)
    requires m.Valid() && t <= m.Bars()
  {
    match b.position
    case Flat => true
    case Open(side, entryBar, fill, size, notional) =>
      && entryBar < t
      && EntryJustified(m, side, entryBar, fill, size, notional)
      && (forall u :: entryBar < u < t ==> NoExit(m, side, entryBar, u))
      && (forall i :: 0 <= i < |b.trades| ==> b.trades[i].exitBar < entryBar)
  }

  predicate BookJustified(m: Market, t: nat, b: Book)
    requires m.Valid() && t <= m.Bars()
  {
    && (forall i :: 0 <= i < |b.trades| ==> TradeJustified(m, b.trades[i]) && b.trades[i].exitBar < t)
    && Disjoint(b.trades)
    && OpenJustified(m, t, b)
  }

  /** A sized position respects the notional cap and the risk budget, and uses one of them up. */
  lemma SizingIsTight(price: real, std: Option<real>, cfg: StrategyConfig, sim: SimulatorConfig)
    requires price > 0.0
    ensures var z := SizePosition(price, std, cfg, sim);
      z.size > 0.0 ==>
        && std.Some?
        && z.notional == z.size * price && z.stopDistancePct * price == cfg.stopDistanceMultiplier * std.value
        && SizedToTheLimit(z.size, z.notional, cfg.stopDistanceMultiplier * std.value,
                           cfg.riskPerTradePct * sim.initialEquity, cfg.maxNotionalPct * sim.initialEquity)
  {
    var z := SizePosition(price, std, cfg, sim);
    if z.size > 0.0 {
      var risk, reach := cfg.riskPerTradePct * sim.initialEquity, cfg.stopDistanceMultiplier * std.value;
      var cap := cfg.maxNotionalPct * sim.initialEquity;
      assert z.notional == Min(risk / (reach / price), cap) && z.size == z.notional / price;
      hide SizePosition;
      RiskOfSize(z.notional, price, reach, risk);
    }
  }

  /** The two budgets and the stop distance leave room for a position. */
  predicate HasBudget(cfg: StrategyConfig, sim: SimulatorConfig) {
    && cfg.stopDistanceMultiplier > 0.0
    && cfg.riskPerTradePct * sim.initialEquity > 0.0 && cfg.maxNotionalPct * sim.initialEquity > 0.0
  }

  /** At a positive price a position has a size exactly when the deviation is positive and both budgets are. */
  lemma SizedIff(price: real, std: Option<real>, cfg: StrategyConfig, sim: SimulatorConfig)
    requires price > 0.0
    ensures SizePosition(price, std, cfg, sim).size > 0.0 <==> std.Some? && std.value > 0.0 && HasBudget(cfg, sim)
  {
    if std.Some? && std.value > 0.0 {
      var reach, risk := cfg.stopDistanceMultiplier * std.value, cfg.riskPerTradePct * sim.initialEquity;
      SignOfMultiple(cfg.stopDistanceMultiplier, std.value);
      SignOfSize(price, reach, risk, cfg.maxNotionalPct * sim.initialEquity);
    }
  }

  lemma SignOfSize(price: real, reach: real, risk: real, cap: real)
    requires price > 0.0
    ensures var pct := reach / price;
      pct > 0.0 && Min(risk / pct, cap) / price > 0.0 <==> reach > 0.0 && risk > 0.0 && cap > 0.0
  {
    var pct := reach / price;
    SignOfQuotient(reach, price);
    if pct > 0.0 {
      SignOfQuotient(risk, pct);
      SignOfQuotient(Min(risk / pct, cap), price);
    }
  }

  lemma SignOfMultiple(a: real, b: real)
    requires b > 0.0
    ensures a * b > 0.0 <==> a > 0.0
  {
    if a > 0.0 {
      ProductPositive(a, b);
    } else {
      ProductNonNegative(-a, b);
    }
  }

  lemma SignOfQuotient(a: real, b: real)
    requires b > 0.0
    ensures a / b > 0.0 <==> a > 0.0
  {
    assert a / b * b == a;
    if a / b > 0.0 {
      ProductPositive(a / b, b);
    } else {
      ProductNonNegative(-(a / b), b);
    }
  }

  lemma RiskOfSize(notional: real, price: real, reach: real, risk: real)
    requires price > 0.0 && reach / price > 0.0 && notional <= risk / (reach / price)
    ensures notional == notional / price * price
    ensures notional / price * reach <= risk
    ensures notional == risk / (reach / price) ==> notional / price * reach == risk
  {
    var pct := reach / price;
    var raw := risk / pct;
    assert raw * pct == risk;
    ProductNonNegative(raw - notional, pct);
    assert (raw - notional) * pct == raw * pct - notional * pct;
    assert pct * price == reach;
    var size := notional / price;
    assert size * price == notional;
    assert size * reach == size * (pct * price) == (size * price) * pct;
  }

  lemma EntriesAreJustified(m: Market, t: nat, b: Book)
    requires m.Valid() && t < m.Bars() && b.position.Flat?
    ensures var p := TryEnter(m, t, b).position;
      p.Open? ==> p.entryBar == t && EntryJustified(m, p.side, t, p.entryFill, p.size, p.notional)
  {
    var p := TryEnter(m, t, b).position;
    if p.Open? {
      var open := m.candles.opens[t].value;
      SizingIsTight(open, m.signals[t].std, m.cfg, m.sim);
      FillForms(open, m.Slippage());
    }
  }

  lemma FillForms(raw: real, slip: real)
    ensures raw * (1.0 + slip) == raw + 1.0 * slip * raw == raw - -1.0 * slip * raw
    ensures raw * (1.0 - slip) == raw + -1.0 * slip * raw == raw - 1.0 * slip * raw
  {
  }

  lemma CashIsJustified(m: Market, t: nat, p: Position, reason: ExitReason)
    requires m.Valid() && t < m.Bars() && p.Open?
    requires EntryJustified(m, p.side, p.entryBar, p.entryFill, p.size, p.notional)
    ensures CashJustified(m, CloseTrade(m, t, p, reason))
  {
    var x, raw, s := m.candles.opens[p.entryBar].value, RawExit(m, t, p.entryFill), m.Slippage();
    assert p.size > 0.0 && p.entryFill == x + Sign(p.side) * s * x;
    hide EntryJustified, CashAccount, ExitFill, SettleCash, Sign, RawExit;
    CashForms(p.side, x, p.entryFill, raw, s, p.size, p.notional, m.sim.makerFeeRate);
  }

  lemma CashForms(side: Side, x: real, fill: real, raw: real, s: real, q: real, notional: real, fee: real)
    requires q > 0.0 && fill == x + Sign(side) * s * x
    ensures var exit := ExitFill(raw, s, side);
      var cash := SettleCash(side, fill, raw, exit, q, notional, fee);
      CashAccount(side, x, raw, s, q, notional, fee, exit, cash.fees, cash.slippageCost, cash.pnl)
  {
    FillForms(x, s);
    FillForms(raw, s);
    var exit := ExitFill(raw, s, side);
    FeeForms(notional, q, exit, fee);
    if side.Long? {
      LongCash(x, raw, s, q);
    } else {
      ShortCash(x, raw, s, q);
    }
  }

  lemma FeeForms(notional: real, q: real, exit: real, fee: real)
    ensures notional * fee + q * exit * fee == fee * (notional + q * exit)
  {
  }

  lemma LongCash(x: real, raw: real, s: real, q: real)
    ensures q * (raw - raw * (1.0 - s)) * 1.0 == s * raw * q
    ensures (raw * (1.0 - s) - x * (1.0 + s)) * q == 1.0 * (raw - x) * q - s * x * q - s * raw * q
  {
  }

  lemma ShortCash(x: real, raw: real, s: real, q: real)
    ensures q * (raw - raw * (1.0 + s)) * -1.0 == s * raw * q
    ensures (x * (1.0 - s) - raw * (1.0 + s)) * q == -1.0 * (raw - x) * q - s * x * q - s * raw * q
  {
  }

  lemma HeldLongEnough(m: Market, t: nat, side: Side, entryBar: nat)
    requires m.Valid() && entryBar < t < m.Bars()
    requires forall u :: entryBar < u < t ==> NoExit(m, side, entryBar, u)
    ensures t - entryBar <= MaxInt(m.cfg.timeStopBars, 0) + 1
  {
    if entryBar < t - 1 {
      assert NoExit(m, side, entryBar, t - 1);
    }
  }

  lemma ClosedTradeIsJustified(m: Market, t: nat, p: Position, reason: ExitReason)
    requires m.Valid() && t < m.Bars() && p.Open? && p.entryBar < t
    requires EntryJustified(m, p.side, p.entryBar, p.entryFill, p.size, p.notional)
    requires forall u :: p.entryBar < u < t ==> NoExit(m, p.side, p.entryBar, u)
    requires ExitFor(m, p.side, p.entryBar, t, reason)
    ensures TradeJustified(m, CloseTrade(m, t, p, reason))
  {
    CashIsJustified(m, t, p, reason);
    HeldLongEnough(m, t, p.side, p.entryBar);
  }

  lemma StepKeepsBook(m: Market, t: nat, b: Book)
    requires m.Valid() && t < m.Bars() && BookJustified(m, t, b)
    ensures BookJustified(m, t + 1, Step(m, t, b))
  {
    match b.position
    case Flat => EntriesAreJustified(m, t, b);
    case Open(side, entryBar, _, _, _) =>
      var exit := ExitAt(m, t, side, entryBar);
      ExitAtIs(m, side, entryBar, t);
      if exit.Some? {
        ClosedTradeIsJustified(m, t, b.position, exit.value);
      }
  }

  /** Over any run: trades are disjoint, ordered, and each entry, exit and cash figure is justified. */
  lemma {:induction false} RunIsJustified(m: Market, t: nat)
    requires m.Valid() && t <= m.Bars()
    ensures BookJustified(m, t, Run(m, t))
  {
    if t > 0 {
      RunIsJustified(m, t - 1);
      hide BookJustified, Step;
      StepKeepsBook(m, t - 1, Run(m, t - 1));
    }
  }

  /** Every draw of the generator is accounted for: skipped, traded, or still open. */
  lemma {:induction false} DrawsAreConserved(m: Market, t: nat)
    requires m.Valid() && t <= m.Bars()
    ensures var b := Run(m, t);
      b.draws == m.firstDraw + b.skipped + |b.trades| + if b.position.Open? then 1 else 0
  {
    if t > 0 {
      DrawsAreConserved(m, t - 1);
    }
  }

  /** A bar on which a flat machine has to try an entry. */
  predicate Actionable(m: Market, u: nat)
    requires m.Valid() && u < m.Bars()
  {
    (m.signals[u].entryLong || m.signals[u].entryShort)
    && m.candles.opens[u].Some? && m.candles.opens[u].value > 0.0
  }

  /** Some trade of the book, or its open position, was entered before bar u and not left before u. */
  predicate Busy(b: Book, u: nat) {
    (exists i :: 0 <= i < |b.trades| && b.trades[i].entryBar < u <= b.trades[i].exitBar)
    || (b.position.Open? && b.position.entryBar < u)
  }

  /** The actionable bars before `n` on which the book was not busy. */
  function Chances(m: Market, b: Book, n: nat): nat
    requires m.Valid() && n <= m.Bars()
  {
    if n == 0 then 0 else Chances(m, b, n - 1) + if Actionable(m, n - 1) && !Busy(b, n - 1) then 1 else 0
  }

  lemma {:induction false} SameBusySameChances(m: Market, a: Book, b: Book, n: nat)
    requires m.Valid() && n <= m.Bars() && forall u :: 0 <= u < n ==> Busy(a, u) == Busy(b, u)
    ensures Chances(m, a, n) == Chances(m, b, n)
  {
    if n > 0 {
      SameBusySameChances(m, a, b, n - 1);
    }
  }

  /** One bar leaves the past as busy as it was, and is itself busy exactly when it began with a position. */
  lemma BusyStep(m: Market, t: nat, b: Book, u: nat)
    requires m.Valid() && u <= t < m.Bars() && (b.position.Open? ==> b.position.entryBar < t)
    requires forall i :: 0 <= i < |b.trades| ==> b.trades[i].exitBar < t
    ensures Busy(Step(m, t, b), u) <==> if u < t then Busy(b, u) else b.position.Open?
  {
    var after := Step(m, t, b);
    hide ExitAt, SettleCash, ExitFill, RawExit, SizePosition;
    assert forall i :: 0 <= i < |b.trades| ==> after.trades[i] == b.trades[i];
    if b.position.Open? && |after.trades| > |b.trades| {
      assert after.trades[|b.trades|].entryBar == b.position.entryBar && after.trades[|b.trades|].exitBar == t;
    }
  }

  /** No chance is missed and none is taken twice: the generator is drawn once per actionable bar outside the trades. */
  lemma {:induction false} DrawsAreChances(m: Market, t: nat)
    requires m.Valid() && t <= m.Bars()
    ensures Run(m, t).draws == m.firstDraw + Chances(m, Run(m, t), t)
  {
    if t > 0 {
      var before := Run(m, t - 1);
      DrawsAreChances(m, t - 1);
      ExitsBeforeNow(m, t - 1);
      assert Run(m, t) == Step(m, t - 1, before);
      hide Step, Busy, Actionable;
      forall u | 0 <= u < t
        ensures Busy(Run(m, t), u) <==> if u < t - 1 then Busy(before, u) else before.position.Open?
      {
        BusyStep(m, t - 1, before, u);
      }
      DrawsOfStep(m, t - 1, before);
      hide Run;
      SameBusySameChances(m, before, Run(m, t), t - 1);
    }
  }

  lemma DrawsOfStep(m: Market, t: nat, b: Book)
    requires m.Valid() && t < m.Bars() && (b.position.Open? ==> b.position.entryBar < t)
    ensures Step(m, t, b).draws == b.draws + if b.position.Flat? && Actionable(m, t) then 1 else 0
  {
  }

  /**
   * A chance becomes a position exactly when the draw is below the fill probability, the deviation is
   * positive and the budgets are; otherwise it is counted as skipped.
   */
  lemma ChanceIsTakenIff(m: Market, t: nat)
    requires m.Valid() && t < m.Bars() && Run(m, t).position.Flat? && Actionable(m, t)
    ensures var b, after, std := Run(m, t), Run(m, t + 1), m.signals[t].std;
      && (after.position.Open? <==>
            m.rng(b.draws) < m.sim.fillProb && std.Some? && std.value > 0.0 && HasBudget(m.cfg, m.sim))
      && after.skipped == b.skipped + (if after.position.Open? then 0 else 1)
      && after.trades == b.trades
  {
    SizedIff(m.candles.opens[t].value, m.signals[t].std, m.cfg, m.sim);
    hide SizePosition, HasBudget;
  }

  // ----- Long/short symmetry ---------------------------------------------------------

  function Flip(side: Side): Side {
    if side.Long? then Short else Long
  }

  /** `b` is `a` with every long column exchanged for its short counterpart. */
  predicate SwappedColumns(a: Signal, b: Signal) {
    && b.z == Negate(a.z) && b.r == Complement(a.r) && b.std == a.std
    && b.entryLong == a.entryShort && b.entryShort == a.entryLong
    && b.exitTargetLong == a.exitTargetShort && b.exitTargetShort == a.exitTargetLong
    && b.exitStopLong == a.exitStopShort && b.exitStopShort == a.exitStopLong
  }

  lemma MirrorSignals(closes: seq<real>, k: real, cfg: StrategyConfig, sqrt: real -> real, t: nat)
    requires 2 <= cfg.smaWindow && 2 <= cfg.rsiWindow && t < |closes|
    requires cfg.rsiOversold + cfg.rsiOverbought == 100.0
    ensures SwappedColumns(ComputeSignals(closes, cfg, sqrt).value[t],
                           ComputeSignals(Mirror(closes, k), cfg, sqrt).value[t])
  {
    hide ComputeSignals, ZScore, Rsi, RollingMean, RollingStd, RawZ, Mirror, SignalAt, SwappedColumns, Negate,
         Complement;
    var mirrored, n := Mirror(closes, k), cfg.smaWindow;
    MirrorFeatures(closes, k, n, cfg.rsiWindow, sqrt, t);
    if t > 0 {
      MirrorRawZ(closes, k, n, sqrt, t - 1);
    }
    SignalRow(closes, cfg, sqrt, t);
    SignalRow(mirrored, cfg, sqrt, t);
    SwappedSignal(ZScore(closes, n, sqrt).value[t], Rsi(closes, cfg.rsiWindow).value[t],
                  if t == 0 then None else RollingMean(closes, n, t - 1),
                  if t == 0 then None else RollingMean(mirrored, n, t - 1),
                  if t == 0 then None else RollingStd(closes, n, sqrt, t - 1), cfg);
  }

  lemma SwappedSignal(z: Option<real>, r: Option<real>, sma: Option<real>, mirroredSma: Option<real>,
                      std: Option<real>, cfg: StrategyConfig)
    requires cfg.rsiOversold + cfg.rsiOverbought == 100.0
    ensures SwappedColumns(SignalAt(z, r, sma, std, cfg), SignalAt(Negate(z), Complement(r), mirroredSma, std, cfg))
  {
  }

  predicate MirrorTrades(a: Trade, b: Trade) {
    && b.side == Flip(a.side) && b.entryBar == a.entryBar && b.exitBar == a.exitBar
    && b.size == a.size && b.notional == a.notional && b.reason == a.reason && b.barsHeld == a.barsHeld
  }

  predicate MirrorPositions(a: Position, b: Position) {
    match a
    case Flat => b.Flat?
    case Open(side, entryBar, _, size, notional) =>
      b.Open? && b.side == Flip(side) && b.entryBar == entryBar && b.size == size && b.notional == notional
  }

  predicate MirrorBooks(a: Book, b: Book) {
    && MirrorPositions(a.position, b.position)
    && a.skipped == b.skipped && a.draws == b.draws
    && |a.trades| == |b.trades|
    && forall i :: 0 <= i < |a.trades| ==> MirrorTrades(a.trades[i], b.trades[i])
  }

  ghost predicate MirrorMarkets(a: Market, b: Market)
    requires a.Valid() && b.Valid()
  {
    && a.Bars() == b.Bars() && a.candles.opens == b.candles.opens
    && a.cfg == b.cfg && a.sim == b.sim && a.rng == b.rng && a.firstDraw == b.firstDraw
    && forall t :: 0 <= t < a.Bars() ==>
         && SwappedColumns(a.signals[t], b.signals[t])
         && !(a.signals[t].entryLong && a.signals[t].entryShort)
  }

  lemma {:induction false} MirrorRun(a: Market, b: Market, t: nat)
    requires a.Valid() && b.Valid() && MirrorMarkets(a, b) && t <= a.Bars()
    ensures MirrorBooks(Run(a, t), Run(b, t))
  {
    if t > 0 {
      MirrorRun(a, b, t - 1);
      hide MirrorBooks, MirrorMarkets, Step;
      MirrorStep(a, b, t - 1, Run(a, t - 1), Run(b, t - 1));
    }
  }

  lemma MirrorStep(a: Market, b: Market, t: nat, x: Book, y: Book)
    requires a.Valid() && b.Valid() && MirrorMarkets(a, b) && t < a.Bars() && MirrorBooks(x, y)
    requires x.position.Open? ==> x.position.entryBar < a.Bars()
    ensures MirrorBooks(Step(a, t, x), Step(b, t, y))
  {
    match x.position
    case Flat => MirrorEntry(a, b, t, x, y);
    case Open(side, entryBar, _, _, _) =>
      assert ExitAt(a, t, side, entryBar) == ExitAt(b, t, Flip(side), entryBar);
  }

  lemma MirrorEntry(a: Market, b: Market, t: nat, x: Book, y: Book)
    requires a.Valid() && b.Valid() && MirrorMarkets(a, b) && t < a.Bars() && MirrorBooks(x, y)
    requires x.position.Flat?
    ensures MirrorBooks(TryEnter(a, t, x), TryEnter(b, t, y))
  {
    assert SwappedColumns(a.signals[t], b.signals[t]);
  }

  /**
   * Backtesting k - c instead of c on the same opens trades the same bars and sizes on the other side,
   * if no bar signals both.
   */
  lemma MirrorWhenDecided(symbol: string, candles: Candles, k: real, cfg: StrategyConfig, sim: SimulatorConfig,
                          sqrt: real -> real, rng: nat -> real, firstDraw: nat)
    requires 2 <= cfg.smaWindow && 2 <= cfg.rsiWindow && candles.Aligned()
    requires cfg.rsiOversold + cfg.rsiOverbought == 100.0
    requires var signals := ComputeSignals(candles.closes, cfg, sqrt).value;
      forall t :: 0 <= t < |signals| ==> !(signals[t].entryLong && signals[t].entryShort)
    ensures var mirrored := candles.(closes := Mirror(candles.closes, k));
      var a := MarketOf(symbol, candles, cfg, sim, sqrt, rng, firstDraw);
      var b := MarketOf(symbol, mirrored, cfg, sim, sqrt, rng, firstDraw);
      MirrorBooks(Run(a, a.Bars()), Run(b, b.Bars()))
  {
    hide ComputeSignals, SwappedColumns;
    var a := MarketOf(symbol, candles, cfg, sim, sqrt, rng, firstDraw);
    var b := MarketOf(symbol, candles.(closes := Mirror(candles.closes, k)), cfg, sim, sqrt, rng, firstDraw);
    forall t | 0 <= t < a.Bars()
      ensures SwappedColumns(a.signals[t], b.signals[t])
    {
      MirrorSignals(candles.closes, k, cfg, sqrt, t);
    }
    MirrorRun(a, b, a.Bars());
  }

  /** A positive z_entry, or an oversold level below 50, keeps the two entry columns apart. */
  lemma NeverBothColumns(closes: seq<real>, cfg: StrategyConfig, sqrt: real -> real, t: nat)
    requires 2 <= cfg.smaWindow && 2 <= cfg.rsiWindow && t < |closes|
    requires cfg.rsiOversold + cfg.rsiOverbought == 100.0 && (cfg.zEntry > 0.0 || cfg.rsiOversold < 50.0)
    ensures var s := ComputeSignals(closes, cfg, sqrt).value[t]; !(s.entryLong && s.entryShort)
  {
    hide ComputeSignals, ZScore, Rsi, RollingMean, RollingStd;
    SignalColumns(closes, cfg, sqrt, t);
  }

  /** So the mirror image holds for such configurations, whatever the square root. */
  lemma MirrorTheorem(symbol: string, candles: Candles, k: real, cfg: StrategyConfig, sim: SimulatorConfig,
                      sqrt: real -> real, rng: nat -> real, firstDraw: nat)
    requires 2 <= cfg.smaWindow && 2 <= cfg.rsiWindow && candles.Aligned()
    requires cfg.rsiOversold + cfg.rsiOverbought == 100.0 && (cfg.zEntry > 0.0 || cfg.rsiOversold < 50.0)
    ensures var mirrored := candles.(closes := Mirror(candles.closes, k));
      var a := MarketOf(symbol, candles, cfg, sim, sqrt, rng, firstDraw);
      var b := MarketOf(symbol, mirrored, cfg, sim, sqrt, rng, firstDraw);
      MirrorBooks(Run(a, a.Bars()), Run(b, b.Bars()))
  {
    hide ComputeSignals, MirrorBooks, Run;
    var signals := ComputeSignals(candles.closes, cfg, sqrt).value;
    forall t | 0 <= t < |signals|
      ensures !(signals[t].entryLong && signals[t].entryShort)
    {
      NeverBothColumns(candles.closes, cfg, sqrt, t);
    }
    MirrorWhenDecided(symbol, candles, k, cfg, sim, sqrt, rng, firstDraw);
  }
}
