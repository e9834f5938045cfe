// src/backtest/simulator.py, run_simulation: one generator shared by all symbols, the
// union of their bar timestamps, and the equity curve over it.
module Portfolio {
  import opened Prelude
  import opened Simulator
  import opened SimulatorProperties
  import Report

  /** One item of `candles_by_symbol`, in dictionary order. */
  datatype Holding = Holding(symbol: string, candles: Candles)

  datatype SimulationResult = SimulationResult(trades: seq<Trade>, index: seq<int>, equity: seq<real>, skipped: nat)

  predicate Increasing(ts: seq<int>) {
    forall i, j :: 0 <= i < j < |ts| ==> ts[i] < ts[j]
  }

  predicate WellIndexed(c: Candles) {
    c.Aligned() && Increasing(c.times)
  }

  /** `DatetimeIndex.union` of two sorted, duplicate-free indexes. */
  function Union(a: seq<int>, b: seq<int>): (u: seq<int>)
    requires Increasing(a) && Increasing(b)
    ensures Increasing(u)
    ensures forall x :: x in u <==> x in a || x in b
  {
    if b == [] then a
    else if a == [] then b
    else
      var x := if a[0] <= b[0] then a[0] else b[0];
      var a' := if a[0] == x then a[1..] else a;
      var b' := if b[0] == x then b[1..] else b;
      DropLeast(a, x);
      DropLeast(b, x);
      var rest := Union(a', b');
      assert forall y :: y in rest ==> x < y;
      [x] + rest
  }

  lemma DropLeast(a: seq<int>, x: int)
    requires a != [] && Increasing(a) && x <= a[0]
    ensures var rest := if a[0] == x then a[1..] else a;
      && Increasing(rest)
      && (forall y :: y in rest ==> x < y)
      && (forall y :: y in a <==> y in rest || (y == x && a[0] == x))
  {
    assert a == [a[0]] + a[1..];
  }

  // ----- What the trades say the equity is -------------------------------------------

  /** The pnl of all trades that exited at or before `ts`. */
  function PnlExitedBy(trades: seq<Trade>, ts: int): real {
    if trades == [] then 0.0
    else PnlExitedBy(Front(trades), ts) + if Last(trades).exitTime <= ts then Last(trades).pnl else 0.0
  }

  /** One cell of `groupby("exit_time")["pnl"].sum()`, 0 where the group is missing. */
  function PnlAt(trades: seq<Trade>, ts: int): real {
    if trades == [] then 0.0
    else PnlAt(Front(trades), ts) + if Last(trades).exitTime == ts then Last(trades).pnl else 0.0
  }

  function TotalPnl(trades: seq<Trade>): real {
    if trades == [] then 0.0 else TotalPnl(Front(trades)) + Last(trades).pnl
  }

  predicate ExitsIn(trades: seq<Trade>, index: seq<int>) {
    forall i :: 0 <= i < |trades| ==> trades[i].exitTime in index
  }

  lemma {:induction false} NextCell(trades: seq<Trade>, index: seq<int>, i: nat)
    requires Increasing(index) && ExitsIn(trades, index) && i < |index|
    ensures PnlExitedBy(trades, index[i])
         == PnlAt(trades, index[i]) + if i == 0 then 0.0 else PnlExitedBy(trades, index[i - 1])
  {
    if trades != [] {
      NextCell(Front(trades), index, i);
      assert Last(trades) == trades[|trades| - 1];
      var k :| 0 <= k < |index| && index[k] == Last(trades).exitTime;
      if k < i {
        assert index[k] <= index[i - 1] < index[i];
      } else if k > i {
        assert index[i] < index[k];
      }
    }
  }

  lemma {:induction false} AllExited(trades: seq<Trade>, ts: int)
    requires forall i :: 0 <= i < |trades| ==> trades[i].exitTime <= ts
    ensures PnlExitedBy(trades, ts) == TotalPnl(trades)
  {
    if trades != [] {
      AllExited(Front(trades), ts);
    }
  }

  /** No trade exits on the first stamp of the index. */
  predicate ExitsLate(trades: seq<Trade>, index: seq<int>) {
    forall i :: 0 <= i < |trades| ==> index != [] && index[0] < trades[i].exitTime
  }

  /** The equity curve and the trade list of a result tell the same story. */
  predicate CurveAgrees(r: SimulationResult, initial: real) {
    && Increasing(r.index) && ExitsIn(r.trades, r.index) && ExitsLate(r.trades, r.index)
    && |r.equity| == |r.index|
    && forall i :: 0 <= i < |r.index| ==> r.equity[i] == initial + PnlExitedBy(r.trades, r.index[i])
  }

  /** The curve ends at initial equity plus everything the trades made. */
  lemma EquityEndsAtTotal(r: SimulationResult, initial: real)
    requires r.index != [] && CurveAgrees(r, initial)
    ensures Last(r.equity) == initial + TotalPnl(r.trades)
  {
    forall i | 0 <= i < |r.trades|
      ensures r.trades[i].exitTime <= Last(r.index)
    {
      var k :| 0 <= k < |r.index| && r.index[k] == r.trades[i].exitTime;
    }
    AllExited(r.trades, Last(r.index));
  }

  lemma {:induction false} NoneExited(trades: seq<Trade>, ts: int)
    requires forall i :: 0 <= i < |trades| ==> ts < trades[i].exitTime
    ensures PnlExitedBy(trades, ts) == 0.0
  {
    if trades != [] {
      NoneExited(Front(trades), ts);
    }
  }

  /** The curve starts at initial equity, and stays there when there are no trades. */
  lemma EquityStartsAtInitial(r: SimulationResult, initial: real)
    requires CurveAgrees(r, initial)
    ensures r.equity != [] ==> r.equity[0] == initial
    ensures r.trades == [] ==> forall i :: 0 <= i < |r.equity| ==> r.equity[i] == initial
  {
    if r.equity != [] {
      NoneExited(r.trades, r.index[0]);
    }
  }

  /**
   * What the report makes of a simulation from positive equity that never goes negative: the worst
   * change of its curve.
   */
  lemma DrawdownOfSimulation(r: SimulationResult, initial: real)
    requires CurveAgrees(r, initial) && initial > 0.0
    ensures r.equity != [] ==> r.equity[0] > 0.0
    ensures r.equity != [] && (forall i :: 0 <= i < |r.equity| ==> r.equity[i] >= 0.0) ==>
      Report.IsWorstChange(Report.MaxDrawdown(r.equity, |r.trades|), r.equity)
  {
    EquityStartsAtInitial(r, initial);
    hide CurveAgrees;
    Report.MaxDrawdownIsWorstChange(r.equity, |r.trades|);
  }

  // ----- The trade table ----------------------------------------------------------------

  predicate SortedByExit(trades: seq<Trade>) {
    forall i, j :: 0 <= i < j < |trades| ==> trades[i].exitTime <= trades[j].exitTime
  }

  function InsertByExit(trades: seq<Trade>, tr: Trade): seq<Trade> {
    if trades == [] || Last(trades).exitTime <= tr.exitTime then trades + [tr]
    else InsertByExit(Front(trades), tr) + [Last(trades)]
  }

  lemma {:induction false} InsertKeepsTrades(trades: seq<Trade>, tr: Trade)
    ensures multiset(InsertByExit(trades, tr)) == multiset(trades) + multiset{tr}
  {
    if trades != [] {
      assert trades == Front(trades) + [Last(trades)];
      InsertKeepsTrades(Front(trades), tr);
    }
  }

  lemma {:induction false} InsertKeepsOrder(trades: seq<Trade>, tr: Trade)
    requires SortedByExit(trades)
    ensures SortedByExit(InsertByExit(trades, tr))
  {
    if trades == [] || Last(trades).exitTime <= tr.exitTime {
      SortedSnoc(trades, tr);
    } else {
      var front, rest := Front(trades), InsertByExit(Front(trades), tr);
      InsertKeepsOrder(front, tr);
      InsertKeepsTrades(front, tr);
      hide InsertByExit, SortedByExit;
      NoneAfter(rest, front, tr, Last(trades).exitTime);
      SortedSnoc(rest, Last(trades));
    }
  }

  lemma NoneAfter(rest: seq<Trade>, front: seq<Trade>, tr: Trade, ts: int)
    requires multiset(rest) == multiset(front) + multiset{tr} && tr.exitTime <= ts
    requires forall i :: 0 <= i < |front| ==> front[i].exitTime <= ts
    ensures forall i :: 0 <= i < |rest| ==> rest[i].exitTime <= ts
  {
    forall i | 0 <= i < |rest|
      ensures rest[i].exitTime <= ts
    {
      assert rest[i] in multiset(rest);
      assert rest[i] == tr || rest[i] in front;
    }
  }

  lemma SortedSnoc(trades: seq<Trade>, tr: Trade)
    requires SortedByExit(trades) && forall i :: 0 <= i < |trades| ==> trades[i].exitTime <= tr.exitTime
    ensures SortedByExit(trades + [tr])
  {
  }

  /** `sort_values("exit_time")`; the order of trades with equal exit times is not promised. */
  function SortByExit(trades: seq<Trade>): (out: seq<Trade>)
    ensures SortedByExit(out) && multiset(out) == multiset(trades)
  {
    if trades == [] then []
    else
      assert trades == Front(trades) + [Last(trades)];
      InsertKeepsOrder(SortByExit(Front(trades)), Last(trades));
      InsertKeepsTrades(SortByExit(Front(trades)), Last(trades));
      InsertByExit(SortByExit(Front(trades)), Last(trades))
  }

  lemma SortedExits(trades: seq<Trade>, index: seq<int>)
    requires ExitsIn(trades, index)
    ensures ExitsIn(SortByExit(trades), index)
    ensures ExitsLate(trades, index) ==> ExitsLate(SortByExit(trades), index)
  {
    var sorted := SortByExit(trades);
    forall i | 0 <= i < |sorted|
      ensures sorted[i].exitTime in index
      ensures ExitsLate(trades, index) ==> index != [] && index[0] < sorted[i].exitTime
    {
      assert sorted[i] in multiset(sorted);
      assert sorted[i] in trades;
    }
  }

  // ----- run_simulation ------------------------------------------------------------------

  /** What the symbols before some point of the loop produced together. */
  datatype Tally = Tally(trades: seq<Trade>, skipped: nat, draws: nat)

  ghost predicate Configured(holdings: seq<Holding>, cfg: StrategyConfig) {
    && (forall i :: 0 <= i < |holdings| ==> WellIndexed(holdings[i].candles))
    && 2 <= cfg.smaWindow && 2 <= cfg.rsiWindow
  }

  ghost function Collect(holdings: seq<Holding>, cfg: StrategyConfig, sim: SimulatorConfig,
                         sqrt: real -> real, rng: nat -> real): Tally
    requires Configured(holdings, cfg)
  {
    if holdings == [] then Tally([], 0, 0)
    else
      var before, h := Collect(Front(holdings), cfg, sim, sqrt, rng), Last(holdings);
      if h.candles.closes == [] then before
      else
        var m := MarketOf(h.symbol, h.candles, cfg, sim, sqrt, rng, before.draws);
        var b := Run(m, m.Bars());
        Tally(before.trades + b.trades, before.skipped + b.skipped, b.draws)
  }

  ghost predicate Covers(index: seq<int>, holdings: seq<Holding>) {
    forall x :: x in index <==> exists i :: 0 <= i < |holdings| && x in holdings[i].candles.times
  }

  predicate AllEmpty(holdings: seq<Holding>) {
    forall i :: 0 <= i < |holdings| ==> holdings[i].candles.closes == []
  }

  lemma CoversNext(index: seq<int>, holdings: seq<Holding>, i: nat)
    requires i < |holdings| && WellIndexed(holdings[i].candles)
    requires Increasing(index) && Covers(index, holdings[..i])
    ensures Covers(Union(index, holdings[i].candles.times), holdings[..i + 1])
  {
    var next := holdings[..i + 1];
    var u := Union(index, holdings[i].candles.times);
    forall x
      ensures x in u <==> exists j :: 0 <= j < |next| && x in next[j].candles.times
    {
      if x in u {
        if x in index {
          var j :| 0 <= j < i && x in holdings[..i][j].candles.times;
          assert x in next[j].candles.times;
        } else {
          assert x in next[i].candles.times;
        }
      } else {
        forall j | 0 <= j < |next|
          ensures x !in next[j].candles.times
        {
          if j < i {
            assert next[j] == holdings[..i][j];
          }
        }
      }
    }
  }

  lemma CollectNext(holdings: seq<Holding>, i: nat, cfg: StrategyConfig, sim: SimulatorConfig,
                    sqrt: real -> real, rng: nat -> real)
    requires i < |holdings| && Configured(holdings, cfg)
    ensures var before, h := Collect(holdings[..i], cfg, sim, sqrt, rng), holdings[i];
      Collect(holdings[..i + 1], cfg, sim, sqrt, rng) ==
      if h.candles.closes == [] then before
      else
        var m := MarketOf(h.symbol, h.candles, cfg, sim, sqrt, rng, before.draws);
        var b := Run(m, m.Bars());
        Tally(before.trades + b.trades, before.skipped + b.skipped, b.draws)
  {
    assert Front(holdings[..i + 1]) == holdings[..i];
  }

  /** The symbols that end their bars in a position. */
  ghost function OpenAtEnd(holdings: seq<Holding>, cfg: StrategyConfig, sim: SimulatorConfig,
                           sqrt: real -> real, rng: nat -> real): nat
    requires Configured(holdings, cfg)
  {
    if holdings == [] then 0
    else
      var h := Last(holdings);
      var m := MarketOf(h.symbol, h.candles, cfg, sim, sqrt, rng, Collect(Front(holdings), cfg, sim, sqrt, rng).draws);
      OpenAtEnd(Front(holdings), cfg, sim, sqrt, rng) + if Run(m, m.Bars()).position.Open? then 1 else 0
  }

  /** Over all symbols together, each draw of the one generator is a skip, a trade, or a position left open. */
  lemma {:induction false} AllDrawsAreConserved(holdings: seq<Holding>, cfg: StrategyConfig, sim: SimulatorConfig,
                                                sqrt: real -> real, rng: nat -> real)
    requires Configured(holdings, cfg)
    ensures var all := Collect(holdings, cfg, sim, sqrt, rng);
      all.draws == all.skipped + |all.trades| + OpenAtEnd(holdings, cfg, sim, sqrt, rng)
  {
    if holdings != [] {
      AllDrawsAreConserved(Front(holdings), cfg, sim, sqrt, rng);
      var h, before := Last(holdings), Collect(Front(holdings), cfg, sim, sqrt, rng);
      var m := MarketOf(h.symbol, h.candles, cfg, sim, sqrt, rng, before.draws);
      assert h.candles.closes == [] ==> Run(m, m.Bars()).position.Flat?;
      DrawsAreConserved(m, m.Bars());
      hide Run, ComputeSignals;
    }
  }

  method EquityCurve(trades: seq<Trade>, index: seq<int>, initial: real) returns (equity: seq<real>)
    requires Increasing(index) && ExitsIn(trades, index)
    ensures |equity| == |index|
    ensures forall i :: 0 <= i < |index| ==> equity[i] == initial + PnlExitedBy(trades, index[i])
  {
    equity := [];
    var cumulated := 0.0;
    for i := 0 to |index|
      invariant |equity| == i
      invariant cumulated == if i == 0 then 0.0 else PnlExitedBy(trades, index[i - 1])
      invariant forall j :: 0 <= j < i ==> equity[j] == initial + PnlExitedBy(trades, index[j])
    {
      NextCell(trades, index, i);
      cumulated := cumulated + PnlAt(trades, index[i]);
      equity := equity + [initial + cumulated];
    }
  }

  lemma TradesExitOnBars(m: Market)
    requires m.Valid() && Increasing(m.candles.times)
    ensures ExitsIn(Run(m, m.Bars()).trades, m.candles.times)
    ensures ExitsLate(Run(m, m.Bars()).trades, m.candles.times)
  {
    RunIsJustified(m, m.Bars());
    var trades := Run(m, m.Bars()).trades;
    forall i | 0 <= i < |trades|
      ensures trades[i].exitTime in m.candles.times && m.candles.times[0] < trades[i].exitTime
    {
      assert TradeJustified(m, trades[i]);
    }
  }

  /** A union starts no later than either of its parts. */
  lemma UnionKeepsLate(trades: seq<Trade>, part: seq<int>, index: seq<int>)
    requires Increasing(index) && ExitsLate(trades, part) && forall x :: x in part ==> x in index
    ensures ExitsLate(trades, index)
  {
    if trades != [] {
      var first := trades[0];
      assert part != [] && part[0] < first.exitTime;
      assert part[0] in index;
      var k :| 0 <= k < |index| && index[k] == part[0];
    }
  }

  method RunSimulation(holdings: seq<Holding>, cfg: StrategyConfig, sim: SimulatorConfig,
                       sqrt: real -> real, rng: nat -> real) returns (r: Result<SimulationResult>)
    requires forall i :: 0 <= i < |holdings| ==> WellIndexed(holdings[i].candles)
    ensures r.Err? <==> ((cfg.smaWindow < 2 || cfg.rsiWindow < 2) && !AllEmpty(holdings))
    ensures r.Ok? ==> Covers(r.value.index, holdings) && CurveAgrees(r.value, sim.initialEquity)
    ensures r.Ok? && Configured(holdings, cfg) ==>
      var all := Collect(holdings, cfg, sim, sqrt, rng);
      multiset(r.value.trades) == multiset(all.trades) && r.value.skipped == all.skipped
    ensures r.Ok? ==> SortedByExit(r.value.trades)
  {
    var trades, skipped, draws: nat, index := [], 0, 0, [];
    for i := 0 to |holdings|
      invariant Increasing(index) && Covers(index, holdings[..i]) && ExitsIn(trades, index) && ExitsLate(trades, index)
      invariant cfg.smaWindow < 2 || cfg.rsiWindow < 2 ==> AllEmpty(holdings[..i])
      invariant Configured(holdings, cfg) ==>
        Collect(holdings[..i], cfg, sim, sqrt, rng) == Tally(trades, skipped, draws)
    {
      var h := holdings[i];
      assert WellIndexed(h.candles);
      if Configured(holdings, cfg) {
        CollectNext(holdings, i, cfg, sim, sqrt, rng);
      }
      CoversNext(index, holdings, i);
      if h.candles.closes == [] {
        continue;
      }
      var signals := ComputeSignals(h.candles.closes, cfg, sqrt);
      if signals.Err? {
        return Err(signals.error);
      }
      var m := Market(h.symbol, h.candles, signals.value, cfg, sim, rng, draws);
      var symbolTrades, symbolSkipped, drawsAfter := SimulateSymbol(m);
      TradesExitOnBars(m);
      var union := Union(index, h.candles.times);
      UnionKeepsLate(trades, index, union);
      UnionKeepsLate(symbolTrades, h.candles.times, union);
      trades, skipped, draws := trades + symbolTrades, skipped + symbolSkipped, drawsAfter;
      index := union;
    }
    assert holdings[..|holdings|] == holdings;
    var sorted := SortByExit(trades);
    SortedExits(trades, index);
    var equity := EquityCurve(sorted, index, sim.initialEquity);
    r := Ok(SimulationResult(sorted, index, equity, skipped));
  }
}
