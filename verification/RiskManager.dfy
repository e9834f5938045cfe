// src/risk/manager.py: the gatekeeper every order intent passes, and what its caps keep.
module RiskManager {
  import opened Prelude

  datatype Side = Buy | Sell

  datatype Code =
    | Halted | NoEquity | DailyLossLimit | WeeklyLossLimit | ConsecutiveLosersPause
    | RateLimit | MaxOpenOrders | BadIntent | MaxRiskPerTrade | MaxPositionNotional
    | MaxConcurrentPositions | MaxLeverage | LiquidationBuffer

  datatype Decision = Approved | Rejected(code: Code)

  datatype Intent = Intent(symbol: string, side: Side, size: real, price: real, reduceOnly: bool, riskDollars: real)

  datatype Position = Position(symbol: string, size: real, mark: real, liq: Option<real>)

  datatype OpenOrder = OpenOrder(symbol: string, side: Side, size: real, price: real)

  datatype Caps = Caps(
    maxRiskPerTradePct: real, maxPositionNotionalPct: real, maxAccountLeverage: real,
    liquidationBufferPct: real, maxConcurrentPositions: int, maxOpenOrders: int,
    maxOrdersPerMinute: int, dailyLossLimitPct: real, weeklyLossLimitPct: real, consecutiveLosersPause: int)

  const DEFAULT_CAPS := Caps(0.005, 0.30, 3.0, 0.08, 2, 6, 20, 0.02, 0.05, 3)

  datatype Account = Account(
    equity: real, positions: seq<Position>, openOrders: seq<OpenOrder>, recent: seq<real>,
    dailyPnl: real, weeklyPnl: real, consecutiveLosers: int, lossPauseUntil: Option<real>,
    halted: bool, now: real, caps: Caps)

  // ----- Helpers of check_order ------------------------------------------------------

  function SignedDelta(intent: Intent): real {
    if intent.side.Buy? then intent.size else -intent.size
  }

  /** The first position in that symbol. */
  function PositionFor(positions: seq<Position>, symbol: string): Option<Position> {
    if positions == [] then None
    else
      var earlier := PositionFor(Front(positions), symbol);
      if earlier.Some? then earlier
      else if Last(positions).symbol == symbol then Some(Last(positions)) else None
  }

  function CurrentSize(positions: seq<Position>, symbol: string): real {
    var p := PositionFor(positions, symbol);
    if p.Some? then p.value.size else 0.0
  }

  /** The signed size after the intent fills; reduce-only fills stop at zero and never grow. */
  function PostFillSize(intent: Intent, current: real): real {
    var next := current + SignedDelta(intent);
    if !intent.reduceOnly then next
    else if current == 0.0 then 0.0
    else if (current > 0.0 && next < 0.0) || (current < 0.0 && next > 0.0) then 0.0
    else if Abs(next) > Abs(current) then current
    else next
  }

  /** The size the intent leaves in its symbol after a full fill. */
  function NewSize(positions: seq<Position>, intent: Intent): real {
    PostFillSize(intent, CurrentSize(positions, intent.symbol))
  }

  function Notional(size: real, price: real): real {
    Abs(size) * price
  }

  function Gross(positions: seq<Position>): real {
    if positions == [] then 0.0
    else Gross(Front(positions)) + Notional(Last(positions).size, Last(positions).mark)
  }

  function NonZeroSymbols(positions: seq<Position>): set<string> {
    set i | 0 <= i < |positions| && positions[i].size != 0.0 :: positions[i].symbol
  }

  predicate TooCloseToLiquidation(p: Position, caps: Caps) {
    p.liq.Some? && p.size != 0.0 && p.mark != 0.0
    && Abs(p.mark - p.liq.value) / p.mark < caps.liquidationBufferPct
  }

  /** The set that `check_order` collects for the concurrency cap. */
  function PostFillSymbols(positions: seq<Position>, symbol: string, newSize: real): set<string> {
    (set i | 0 <= i < |positions|
             && (if positions[i].symbol == symbol then newSize != 0.0 else positions[i].size != 0.0)
       :: positions[i].symbol)
    + if PositionFor(positions, symbol).None? && newSize != 0.0 then {symbol} else {}
  }

  /** The sum over existing positions with the intent's symbol replaced. */
  function ReplacedNotional(positions: seq<Position>, symbol: string, newNotional: real): real {
    if positions == [] then 0.0
    else
      var p := Last(positions);
      ReplacedNotional(Front(positions), symbol, newNotional) +
      if p.symbol == symbol then newNotional else Notional(p.size, p.mark)
  }

  function PostFillNotional(positions: seq<Position>, symbol: string, newNotional: real): real {
    ReplacedNotional(positions, symbol, newNotional) +
    if PositionFor(positions, symbol).None? then newNotional else 0.0
  }

  // ----- check_order --------------------------------------------------------------------

  /** Checks 0 to 2: halt flag, loss limits, order-rate and open-order caps. */
  function CheckAccount(a: Account): Decision {
    if a.halted then Rejected(Halted)
    else if a.equity <= 0.0 then Rejected(NoEquity)
    else if -a.dailyPnl >= a.caps.dailyLossLimitPct * a.equity then Rejected(DailyLossLimit)
    else if -a.weeklyPnl >= a.caps.weeklyLossLimitPct * a.equity then Rejected(WeeklyLossLimit)
    else if a.consecutiveLosers >= a.caps.consecutiveLosersPause
            && a.lossPauseUntil.Some? && a.now < a.lossPauseUntil.value then Rejected(ConsecutiveLosersPause)
    else if CountSince(a.recent, a.now - 60.0) >= a.caps.maxOrdersPerMinute then Rejected(RateLimit)
    else if |a.openOrders| >= a.caps.maxOpenOrders then Rejected(MaxOpenOrders)
    else Approved
  }

  function NotionalCap(a: Account): real {
    a.caps.maxPositionNotionalPct * a.equity
  }

  function Leverage(notional: real, equity: real): real
    requires equity > 0.0
  {
    notional / equity
  }

  /** Check 3: what the account would look like after the fill. */
  function CheckTrade(intent: Intent, a: Account): Decision
    requires a.equity > 0.0
  {
    if intent.size <= 0.0 || intent.price <= 0.0 then Rejected(BadIntent)
    else if !intent.reduceOnly && intent.riskDollars > a.caps.maxRiskPerTradePct * a.equity
      then Rejected(MaxRiskPerTrade)
    else
      var newSize := NewSize(a.positions, intent);
      var newNotional := Notional(newSize, intent.price);
      if newNotional > NotionalCap(a) then Rejected(MaxPositionNotional)
      else if |PostFillSymbols(a.positions, intent.symbol, newSize)| > a.caps.maxConcurrentPositions
        then Rejected(MaxConcurrentPositions)
      else if Leverage(PostFillNotional(a.positions, intent.symbol, newNotional), a.equity) > a.caps.maxAccountLeverage
        then Rejected(MaxLeverage)
      else if !intent.reduceOnly
              && exists i :: 0 <= i < |a.positions| && TooCloseToLiquidation(a.positions[i], a.caps)
        then Rejected(LiquidationBuffer)
      else Approved
  }

  function Decide(intent: Intent, a: Account): (d: Decision)
    ensures d.Approved? ==> !a.halted && a.equity > 0.0
  {
    if CheckAccount(a).Rejected? then CheckAccount(a) else CheckTrade(intent, a)
  }

  /** `_position_for`: a scan that returns at the first hit. */
  method FindPosition(positions: seq<Position>, symbol: string) returns (p: Option<Position>)
    ensures p == PositionFor(positions, symbol)
    ensures p.None? ==> forall i :: 0 <= i < |positions| ==> positions[i].symbol != symbol
    ensures p.Some? ==> exists i :: 0 <= i < |positions| && p.value == positions[i] && positions[i].symbol == symbol
                                    && forall j :: 0 <= j < i ==> positions[j].symbol != symbol
  {
    for i := 0 to |positions|
      invariant PositionFor(positions[..i], symbol).None?
      invariant forall j :: 0 <= j < i ==> positions[j].symbol != symbol
    {
      assert Front(positions[..i + 1]) == positions[..i];
      if positions[i].symbol == symbol {
        FoundStays(positions, symbol, i + 1);
        return Some(positions[i]);
      }
    }
    assert positions[..|positions|] == positions;
    return None;
  }

  lemma {:induction false} FoundStays(positions: seq<Position>, symbol: string, n: nat)
    requires n <= |positions| && PositionFor(positions[..n], symbol).Some?
    ensures PositionFor(positions, symbol) == PositionFor(positions[..n], symbol)
    decreases |positions| - n
  {
    if n == |positions| {
      assert positions[..n] == positions;
    } else {
      assert Front(positions[..n + 1]) == positions[..n];
      FoundStays(positions, symbol, n + 1);
    }
  }

  /** The loop that collects the symbols open after the fill. */
  method CollectSymbols(positions: seq<Position>, symbol: string, newSize: real, isNew: bool)
    returns (symbols: set<string>)
    requires isNew <==> PositionFor(positions, symbol).None?
    ensures symbols == PostFillSymbols(positions, symbol, newSize)
  {
    symbols := {};
    for i := 0 to |positions|
      invariant symbols ==
        set j | 0 <= j < i && (if positions[j].symbol == symbol then newSize != 0.0 else positions[j].size != 0.0)
                             :: positions[j].symbol
    {
      if positions[i].symbol == symbol {
        if newSize != 0.0 {
          symbols := symbols + {positions[i].symbol};
        }
      } else if positions[i].size != 0.0 {
        symbols := symbols + {positions[i].symbol};
      }
    }
    if isNew && newSize != 0.0 {
      symbols := symbols + {symbol};
    }
  }

  /** The loop that sums the notional after the fill. */
  method SumNotional(positions: seq<Position>, symbol: string, newNotional: real, isNew: bool) returns (total: real)
    requires isNew <==> PositionFor(positions, symbol).None?
    ensures total == PostFillNotional(positions, symbol, newNotional)
  {
    total := 0.0;
    for i := 0 to |positions|
      invariant total == ReplacedNotional(positions[..i], symbol, newNotional)
    {
      assert Front(positions[..i + 1]) == positions[..i];
      if positions[i].symbol == symbol {
        total := total + newNotional;
      } else {
        total := total + Notional(positions[i].size, positions[i].mark);
      }
    }
    assert positions[..|positions|] == positions;
    if isNew {
      total := total + newNotional;
    }
  }

  /** `check_order`, with its loops, computes the decision function. */
  method CheckOrder(intent: Intent, a: Account) returns (d: Decision)
    ensures d == Decide(intent, a)
  {
    d := CheckAccount(a);
    if d.Rejected? {
      return;
    }
    if intent.size <= 0.0 || intent.price <= 0.0 {
      return Rejected(BadIntent);
    }
    if !intent.reduceOnly && intent.riskDollars > a.caps.maxRiskPerTradePct * a.equity {
      return Rejected(MaxRiskPerTrade);
    }
    var currentPos := FindPosition(a.positions, intent.symbol);
    var currentSize := if currentPos.Some? then currentPos.value.size else 0.0;
    var newSize := PostFillSize(intent, currentSize);
    var newNotional := Notional(newSize, intent.price);
    if newNotional > NotionalCap(a) {
      return Rejected(MaxPositionNotional);
    }
    var symbols := CollectSymbols(a.positions, intent.symbol, newSize, currentPos.None?);
    if |symbols| > a.caps.maxConcurrentPositions {
      return Rejected(MaxConcurrentPositions);
    }
    var total := SumNotional(a.positions, intent.symbol, newNotional, currentPos.None?);
    if Leverage(total, a.equity) > a.caps.maxAccountLeverage {
      return Rejected(MaxLeverage);
    }
    if !intent.reduceOnly {
      for i := 0 to |a.positions|
        invariant forall j :: 0 <= j < i ==> !TooCloseToLiquidation(a.positions[j], a.caps)
      {
        if TooCloseToLiquidation(a.positions[i], a.caps) {
          return Rejected(LiquidationBuffer);
        }
      }
    }
    return Approved;
  }

  // ----- What the check looks at is the book after the fill --------------------------------

  predicate DistinctSymbols(positions: seq<Position>) {
    forall i, j :: 0 <= i < j < |positions| ==> positions[i].symbol != positions[j].symbol
  }

  function Replace(positions: seq<Position>, symbol: string, size: real, mark: real): seq<Position> {
    if positions == [] then []
    else
      var p := Last(positions);
      Replace(Front(positions), symbol, size, mark) + [if p.symbol == symbol then p.(size := size, mark := mark) else p]
  }

  /** The book after the intent fills completely, with its symbol marked at `mark`. */
  function FillAt(positions: seq<Position>, intent: Intent, mark: real): seq<Position> {
    if PositionFor(positions, intent.symbol).None? then
      positions + [Position(intent.symbol, NewSize(positions, intent), mark, None)]
    else Replace(positions, intent.symbol, NewSize(positions, intent), mark)
  }

  /** The book as `check_order` values it: the intent's symbol at the intent's own price. */
  function Fill(positions: seq<Position>, intent: Intent): seq<Position> {
    FillAt(positions, intent, intent.price)
  }

  lemma {:induction false} ReplaceEach(positions: seq<Position>, symbol: string, size: real, mark: real)
    ensures var after := Replace(positions, symbol, size, mark);
      && |after| == |positions|
      && forall i :: 0 <= i < |positions| ==>
           after[i] == if positions[i].symbol == symbol then positions[i].(size := size, mark := mark) else positions[i]
  {
    if positions != [] {
      ReplaceEach(Front(positions), symbol, size, mark);
    }
  }

  lemma {:induction false} PositionForNone(positions: seq<Position>, symbol: string)
    ensures PositionFor(positions, symbol).None? <==> forall i :: 0 <= i < |positions| ==> positions[i].symbol != symbol
  {
    if positions != [] {
      PositionForNone(Front(positions), symbol);
      if PositionFor(Front(positions), symbol).Some? {
        var i :| 0 <= i < |Front(positions)| && Front(positions)[i].symbol == symbol;
        assert positions[i].symbol == symbol;
      } else {
        assert forall i :: 0 <= i < |positions| - 1 ==> positions[i] == Front(positions)[i];
      }
    }
  }

  /** Every position after the fill: the intent's symbol at its new size, the others untouched. */
  lemma FillEach(positions: seq<Position>, intent: Intent, mark: real)
    ensures var after := FillAt(positions, intent, mark);
      var newSize := NewSize(positions, intent);
      var isNew := PositionFor(positions, intent.symbol).None?;
      && |after| == |positions| + (if isNew then 1 else 0)
      && (forall i :: 0 <= i < |positions| ==> after[i].symbol == positions[i].symbol)
      && (forall i :: 0 <= i < |after| ==>
            if i == |positions| || positions[i].symbol == intent.symbol
            then after[i].symbol == intent.symbol && after[i].size == newSize && after[i].mark == mark
            else after[i] == positions[i])
  {
    PositionForNone(positions, intent.symbol);
    ReplaceEach(positions, intent.symbol, NewSize(positions, intent), mark);
  }

  /** A size between flat and the current one. */
  predicate TowardsFlat(x: real, current: real) {
    0.0 <= x <= current || current <= x <= 0.0
  }

  /**
   * A full fill moves the position by the order's size in the order's direction; a reduce-only one stops
   * where it comes closest to that without leaving the stretch between flat and the position.
   */
  lemma FullFillIs(positions: seq<Position>, intent: Intent)
    ensures var current, after := CurrentSize(positions, intent.symbol), NewSize(positions, intent);
      var next := if intent.side.Buy? then current + intent.size else current - intent.size;
      && (!intent.reduceOnly ==> after == next)
      && (intent.reduceOnly ==>
            TowardsFlat(after, current)
            && forall x :: TowardsFlat(x, current) ==> Abs(after - next) <= Abs(x - next))
  {
  }

  /** The set compared with max_concurrent_positions is the set of open symbols of that book. */
  lemma SymbolsAreOfFilledBook(positions: seq<Position>, intent: Intent, mark: real)
    ensures PostFillSymbols(positions, intent.symbol, NewSize(positions, intent))
         == NonZeroSymbols(FillAt(positions, intent, mark))
  {
    FillEach(positions, intent, mark);
    PositionForNone(positions, intent.symbol);
    var newSize := NewSize(positions, intent);
    var counted, after := PostFillSymbols(positions, intent.symbol, newSize), FillAt(positions, intent, mark);
    forall x
      ensures x in counted <==> x in NonZeroSymbols(after)
    {
      if x in NonZeroSymbols(after) {
        var i :| 0 <= i < |after| && after[i].size != 0.0 && after[i].symbol == x;
        if i < |positions| {
          assert positions[i].symbol == x;
        }
      }
      if x in counted {
        if i :| 0 <= i < |positions| && positions[i].symbol == x
                && (if positions[i].symbol == intent.symbol then newSize != 0.0 else positions[i].size != 0.0) {
          assert after[i].symbol == x && after[i].size != 0.0;
        } else {
          assert after[|positions|].symbol == x;
        }
      }
    }
  }

  lemma {:induction false} GrossReplaced(positions: seq<Position>, symbol: string, size: real, mark: real)
    ensures Gross(Replace(positions, symbol, size, mark)) == ReplacedNotional(positions, symbol, Notional(size, mark))
  {
    if positions != [] {
      GrossReplaced(Front(positions), symbol, size, mark);
      var p := Last(positions);
      var rest := Replace(Front(positions), symbol, size, mark);
      assert Front(Replace(positions, symbol, size, mark)) == rest;
    }
  }

  lemma {:induction false} NothingReplaced(positions: seq<Position>, symbol: string, notional: real)
    requires PositionFor(positions, symbol).None?
    ensures ReplacedNotional(positions, symbol, notional) == Gross(positions)
  {
    if positions != [] {
      NothingReplaced(Front(positions), symbol, notional);
    }
  }

  /** The notional divided by equity for the leverage check is the gross notional of that book. */
  lemma NotionalIsOfFilledBook(positions: seq<Position>, intent: Intent)
    ensures var newSize := NewSize(positions, intent);
      PostFillNotional(positions, intent.symbol, Notional(newSize, intent.price)) == Gross(Fill(positions, intent))
  {
    var newSize := NewSize(positions, intent);
    if PositionFor(positions, intent.symbol).None? {
      NothingReplaced(positions, intent.symbol, Notional(newSize, intent.price));
      assert Front(Fill(positions, intent)) == positions;
    } else {
      GrossReplaced(positions, intent.symbol, newSize, intent.price);
    }
  }

  /** Both loss limits, the losing-streak pause, and the two order counts leave room. */
  predicate RoomToTrade(a: Account) {
    && !a.halted && a.equity > 0.0
    && a.dailyPnl > -(a.caps.dailyLossLimitPct * a.equity)
    && a.weeklyPnl > -(a.caps.weeklyLossLimitPct * a.equity)
    && (a.consecutiveLosers < a.caps.consecutiveLosersPause
        || a.lossPauseUntil.None? || a.now >= a.lossPauseUntil.value)
    && CountSince(a.recent, a.now - 60.0) < a.caps.maxOrdersPerMinute
    && |a.openOrders| < a.caps.maxOpenOrders
  }

  /**
   * The position keeps its distance from liquidation: at a positive mark at least that share of the mark.
   * At mark 0 nothing is asked; at a negative mark the source's quotient is never positive.
   */
  predicate ClearOfLiquidation(p: Position, bufferPct: real) {
    p.liq.Some? && p.size != 0.0 ==>
      var distance := Abs(p.mark - p.liq.value);
      (p.mark > 0.0 ==> distance >= bufferPct * p.mark) && (p.mark < 0.0 ==> distance <= bufferPct * p.mark)
  }

  lemma ClearIff(p: Position, caps: Caps)
    ensures ClearOfLiquidation(p, caps.liquidationBufferPct) <==> !TooCloseToLiquidation(p, caps)
  {
    if p.liq.Some? && p.mark != 0.0 {
      QuotientBelow(Abs(p.mark - p.liq.value), p.mark, caps.liquidationBufferPct);
    }
  }

  lemma QuotientBelow(d: real, m: real, x: real)
    requires m != 0.0
    ensures m > 0.0 ==> (d / m < x <==> d < x * m)
    ensures m < 0.0 ==> (d / m < x <==> d > x * m)
  {
    var q := d / m;
    assert q * m == d;
    if q < x {
      ProductPositive(x - q, Abs(m));
    } else {
      ProductNonNegative(q - x, Abs(m));
    }
    assert (x - q) * m == x * m - d;
    assert (x - q) * -m == d - x * m;
    assert (q - x) * m == d - x * m;
    assert (q - x) * -m == x * m - d;
  }

  lemma AllClearIff(positions: seq<Position>, caps: Caps)
    ensures (forall i :: 0 <= i < |positions| ==> ClearOfLiquidation(positions[i], caps.liquidationBufferPct))
       <==> forall i :: 0 <= i < |positions| ==> !TooCloseToLiquidation(positions[i], caps)
  {
    hide ClearOfLiquidation, TooCloseToLiquidation;
    forall i | 0 <= i < |positions|
      ensures ClearOfLiquidation(positions[i], caps.liquidationBufferPct)
         <==> !TooCloseToLiquidation(positions[i], caps)
    {
      ClearIff(positions[i], caps);
    }
  }

  /** The rule behind each code, on the book after a full fill at the intent's own price. */
  predicate Breaks(code: Code, intent: Intent, a: Account) {
    var after := Fill(a.positions, intent);
    match code
    case Halted => a.halted
    case NoEquity => a.equity <= 0.0
    case DailyLossLimit => a.dailyPnl <= -(a.caps.dailyLossLimitPct * a.equity)
    case WeeklyLossLimit => a.weeklyPnl <= -(a.caps.weeklyLossLimitPct * a.equity)
    case ConsecutiveLosersPause =>
      a.consecutiveLosers >= a.caps.consecutiveLosersPause && a.lossPauseUntil.Some? && a.now < a.lossPauseUntil.value
    case RateLimit => CountSince(a.recent, a.now - 60.0) >= a.caps.maxOrdersPerMinute
    case MaxOpenOrders => |a.openOrders| >= a.caps.maxOpenOrders
    case BadIntent => intent.size <= 0.0 || intent.price <= 0.0
    case MaxRiskPerTrade => !intent.reduceOnly && intent.riskDollars > a.caps.maxRiskPerTradePct * a.equity
    case MaxPositionNotional =>
      Abs(CurrentSize(after, intent.symbol)) * intent.price > a.caps.maxPositionNotionalPct * a.equity
    case MaxConcurrentPositions => |NonZeroSymbols(after)| > a.caps.maxConcurrentPositions
    case MaxLeverage => Gross(after) > a.caps.maxAccountLeverage * a.equity
    case LiquidationBuffer =>
      !intent.reduceOnly
      && !forall i :: 0 <= i < |a.positions| ==> ClearOfLiquidation(a.positions[i], a.caps.liquidationBufferPct)
  }

  /** The order in which the rules are checked. */
  function Rank(code: Code): nat {
    match code
    case Halted => 0
    case NoEquity => 1
    case DailyLossLimit => 2
    case WeeklyLossLimit => 3
    case ConsecutiveLosersPause => 4
    case RateLimit => 5
    case MaxOpenOrders => 6
    case BadIntent => 7
    case MaxRiskPerTrade => 8
    case MaxPositionNotional => 9
    case MaxConcurrentPositions => 10
    case MaxLeverage => 11
    case LiquidationBuffer => 12
  }

  /** No rule that is checked before `code` is broken. */
  predicate ReachesRule(code: Code, intent: Intent, a: Account) {
    forall earlier: Code :: Rank(earlier) < Rank(code) ==> !Breaks(earlier, intent, a)
  }

  lemma NotionalRule(intent: Intent, a: Account)
    ensures Breaks(MaxPositionNotional, intent, a)
       <==> Notional(NewSize(a.positions, intent), intent.price) > NotionalCap(a)
  {
    SizeAfterFill(a.positions, intent);
    hide Fill, CurrentSize, NewSize, NonZeroSymbols, Gross;
  }

  lemma CountRule(intent: Intent, a: Account)
    ensures var newSize := NewSize(a.positions, intent);
      Breaks(MaxConcurrentPositions, intent, a)
      <==> |PostFillSymbols(a.positions, intent.symbol, newSize)| > a.caps.maxConcurrentPositions
  {
    SymbolsAreOfFilledBook(a.positions, intent, intent.price);
    assert Fill(a.positions, intent) == FillAt(a.positions, intent, intent.price);
    hide FillAt, Fill, CurrentSize, NewSize, PostFillSymbols, NonZeroSymbols, Gross;
  }

  lemma LeverageRule(intent: Intent, a: Account)
    requires a.equity > 0.0
    ensures var newNotional := Notional(NewSize(a.positions, intent), intent.price);
      Breaks(MaxLeverage, intent, a)
      <==> Leverage(PostFillNotional(a.positions, intent.symbol, newNotional), a.equity) > a.caps.maxAccountLeverage
  {
    NotionalIsOfFilledBook(a.positions, intent);
    LeverageAbove(Gross(Fill(a.positions, intent)), a.equity, a.caps.maxAccountLeverage);
    hide Fill, CurrentSize, NewSize, PostFillNotional, NonZeroSymbols, Gross, Leverage, Notional;
  }

  lemma LeverageAbove(gross: real, equity: real, bound: real)
    requires equity > 0.0
    ensures Leverage(gross, equity) > bound <==> gross > bound * equity
  {
    QuotientBelow(-gross, equity, -bound);
    assert -gross / equity == -(gross / equity);
    assert -bound * equity == -(bound * equity);
  }

  lemma LiquidationRule(intent: Intent, a: Account)
    ensures Breaks(LiquidationBuffer, intent, a)
       <==> !intent.reduceOnly
            && exists i :: 0 <= i < |a.positions| && TooCloseToLiquidation(a.positions[i], a.caps)
  {
    AllClearIff(a.positions, a.caps);
    hide ClearOfLiquidation, TooCloseToLiquidation, Fill;
  }

  lemma AccountDecision(intent: Intent, a: Account)
    ensures var d := CheckAccount(a);
      && (d.Rejected? ==> Breaks(d.code, intent, a) && ReachesRule(d.code, intent, a))
      && (d.Approved? ==> forall code: Code :: Rank(code) <= 6 ==> !Breaks(code, intent, a))
  {
    hide Fill, CountSince;
  }

  lemma TradeRejected(intent: Intent, a: Account)
    requires a.equity > 0.0
    ensures var d := CheckTrade(intent, a);
      d.Rejected? ==> Breaks(d.code, intent, a) && Rank(d.code) > 6
                      && forall c: Code :: 6 < Rank(c) < Rank(d.code) ==> !Breaks(c, intent, a)
  {
    NotionalRule(intent, a);
    CountRule(intent, a);
    LeverageRule(intent, a);
    LiquidationRule(intent, a);
    SimpleRules(intent, a);
    hide Breaks, NewSize, Notional, NotionalCap, PostFillSymbols, Leverage, PostFillNotional, TooCloseToLiquidation;
  }

  lemma TradeApproved(intent: Intent, a: Account)
    requires a.equity > 0.0 && CheckTrade(intent, a).Approved?
    ensures forall c: Code :: 6 < Rank(c) ==> !Breaks(c, intent, a)
  {
    NotionalRule(intent, a);
    CountRule(intent, a);
    LeverageRule(intent, a);
    LiquidationRule(intent, a);
    SimpleRules(intent, a);
    hide Breaks, NewSize, Notional, NotionalCap, PostFillSymbols, Leverage, PostFillNotional, TooCloseToLiquidation;
  }

  lemma SimpleRules(intent: Intent, a: Account)
    ensures Breaks(BadIntent, intent, a) <==> intent.size <= 0.0 || intent.price <= 0.0
    ensures Breaks(MaxRiskPerTrade, intent, a)
       <==> !intent.reduceOnly && intent.riskDollars > a.caps.maxRiskPerTradePct * a.equity
    ensures Breaks(NoEquity, intent, a) <==> a.equity <= 0.0
  {
  }

  lemma DecisionBreaks(intent: Intent, a: Account)
    ensures var d := Decide(intent, a);
      && (d.Rejected? ==> Breaks(d.code, intent, a) && ReachesRule(d.code, intent, a))
      && (d.Approved? ==> forall code: Code :: !Breaks(code, intent, a))
  {
    AccountDecision(intent, a);
    SimpleRules(intent, a);
    hide Breaks, CheckAccount, CheckTrade;
    if CheckAccount(a).Approved? {
      assert !Breaks(NoEquity, intent, a);
      TradeRejected(intent, a);
      if CheckTrade(intent, a).Approved? {
        TradeApproved(intent, a);
      }
    }
  }

  /** The decision is the code of the first rule that is broken, and approval when none is. */
  lemma DecisionIsFirstBroken(intent: Intent, a: Account)
    ensures Decide(intent, a).Approved? <==> forall code: Code :: !Breaks(code, intent, a)
    ensures forall code: Code ::
      Decide(intent, a) == Rejected(code) <==> Breaks(code, intent, a) && ReachesRule(code, intent, a)
  {
    DecisionBreaks(intent, a);
    OneFirst(intent, a);
    hide Breaks, Decide, ReachesRule;
  }

  lemma OneFirst(intent: Intent, a: Account)
    ensures forall c: Code, d: Code ::
      Breaks(c, intent, a) && ReachesRule(c, intent, a) && Breaks(d, intent, a) && ReachesRule(d, intent, a) ==> c == d
  {
    hide Breaks;
  }

  /** An intent is approved exactly when there is room to trade and the book after the fill is within every cap. */
  lemma ApprovedIff(intent: Intent, a: Account)
    ensures var after := Fill(a.positions, intent);
      Decide(intent, a).Approved? <==>
        && RoomToTrade(a)
        && intent.size > 0.0 && intent.price > 0.0
        && Abs(CurrentSize(after, intent.symbol)) * intent.price <= a.caps.maxPositionNotionalPct * a.equity
        && |NonZeroSymbols(after)| <= a.caps.maxConcurrentPositions
        && Gross(after) <= a.caps.maxAccountLeverage * a.equity
        && (intent.reduceOnly ||
              (intent.riskDollars <= a.caps.maxRiskPerTradePct * a.equity
               && forall i :: 0 <= i < |a.positions| ==>
                    ClearOfLiquidation(a.positions[i], a.caps.liquidationBufferPct)))
  {
    DecisionIsFirstBroken(intent, a);
    RoomIff(intent, a);
    SimpleRules(intent, a);
    FilledBookRules(intent, a);
    hide Decide, Fill, CurrentSize, NonZeroSymbols, Gross, ClearOfLiquidation, Breaks, RoomToTrade;
    if forall code: Code :: !Breaks(code, intent, a) {
      assert !Breaks(BadIntent, intent, a) && !Breaks(MaxRiskPerTrade, intent, a)
          && !Breaks(MaxPositionNotional, intent, a) && !Breaks(MaxConcurrentPositions, intent, a)
          && !Breaks(MaxLeverage, intent, a) && !Breaks(LiquidationBuffer, intent, a);
    }
  }

  lemma RoomIff(intent: Intent, a: Account)
    ensures RoomToTrade(a) <==> forall code: Code :: Rank(code) <= 6 ==> !Breaks(code, intent, a)
  {
    hide Fill, CountSince;
    if forall code: Code :: Rank(code) <= 6 ==> !Breaks(code, intent, a) {
      assert !Breaks(Halted, intent, a) && !Breaks(NoEquity, intent, a) && !Breaks(DailyLossLimit, intent, a)
          && !Breaks(WeeklyLossLimit, intent, a) && !Breaks(ConsecutiveLosersPause, intent, a)
          && !Breaks(RateLimit, intent, a) && !Breaks(MaxOpenOrders, intent, a);
    }
  }

  lemma FilledBookRules(intent: Intent, a: Account)
    ensures var after := Fill(a.positions, intent);
      && (Breaks(MaxPositionNotional, intent, a) <==>
            Abs(CurrentSize(after, intent.symbol)) * intent.price > a.caps.maxPositionNotionalPct * a.equity)
      && (Breaks(MaxConcurrentPositions, intent, a) <==> |NonZeroSymbols(after)| > a.caps.maxConcurrentPositions)
      && (Breaks(MaxLeverage, intent, a) <==> Gross(after) > a.caps.maxAccountLeverage * a.equity)
      && (Breaks(LiquidationBuffer, intent, a) <==>
            !intent.reduceOnly
            && !forall i :: 0 <= i < |a.positions| ==>
                  ClearOfLiquidation(a.positions[i], a.caps.liquidationBufferPct))
  {
    hide Fill, CurrentSize, NonZeroSymbols, Gross, ClearOfLiquidation;
  }

  lemma SizeAfterFill(positions: seq<Position>, intent: Intent)
    ensures CurrentSize(Fill(positions, intent), intent.symbol) == NewSize(positions, intent)
  {
    var after, newSize := FillAt(positions, intent, intent.price), NewSize(positions, intent);
    assert Fill(positions, intent) == after;
    FillEach(positions, intent, intent.price);
    PositionForNone(positions, intent.symbol);
    PositionForNone(after, intent.symbol);
    hide FillAt, Fill, NewSize, PostFillSize, PositionFor;
    assert |after| > |positions| ==> after[|positions|].symbol == intent.symbol;
    assert forall i :: 0 <= i < |after| && after[i].symbol == intent.symbol ==> after[i].size == newSize;
    PositionForFinds(after, intent.symbol);
  }

  lemma {:induction false} PositionForFinds(positions: seq<Position>, symbol: string)
    requires PositionFor(positions, symbol).Some?
    ensures var p := PositionFor(positions, symbol).value; p in positions && p.symbol == symbol
  {
    if PositionFor(Front(positions), symbol).Some? {
      PositionForFinds(Front(positions), symbol);
    }
  }

  // ----- The caps are inductive over fills ----------------------------------------------------

  /** Concurrency and per-position caps, and the distinctness that makes the symbols count positions. */
  predicate WithinCaps(positions: seq<Position>, cap: real, maxPositions: int) {
    && DistinctSymbols(positions)
    && |NonZeroSymbols(positions)| <= maxPositions
    && forall i :: 0 <= i < |positions| ==> Notional(positions[i].size, positions[i].mark) <= cap
  }

  lemma FillKeepsDistinct(positions: seq<Position>, intent: Intent, mark: real)
    requires DistinctSymbols(positions)
    ensures DistinctSymbols(FillAt(positions, intent, mark))
  {
    FillEach(positions, intent, mark);
    PositionForNone(positions, intent.symbol);
  }

  /** Every position stays within the cap exactly when the filled one is. */
  lemma FillKeepsNotional(positions: seq<Position>, intent: Intent, mark: real, cap: real)
    requires forall i :: 0 <= i < |positions| ==> Notional(positions[i].size, positions[i].mark) <= cap
    ensures var after := FillAt(positions, intent, mark);
      (forall i :: 0 <= i < |after| ==> Notional(after[i].size, after[i].mark) <= cap)
        <==> Notional(NewSize(positions, intent), mark) <= cap
  {
    FillEach(positions, intent, mark);
    PositionForNone(positions, intent.symbol);
    var after := FillAt(positions, intent, mark);
    hide FillAt, NewSize, Notional, PositionFor;
    var i :| 0 <= i < |after| && after[i].symbol == intent.symbol && after[i].mark == mark
             && after[i].size == NewSize(positions, intent);
  }

  /** After the full fill of an approved intent the book is within the caps exactly when the filled position is. */
  lemma ApprovedFillKeepsCapsIff(intent: Intent, a: Account, mark: real, cap: real)
    requires WithinCaps(a.positions, cap, a.caps.maxConcurrentPositions)
    ensures Decide(intent, a).Approved? ==>
      (WithinCaps(FillAt(a.positions, intent, mark), cap, a.caps.maxConcurrentPositions) <==>
         Notional(NewSize(a.positions, intent), mark) <= cap)
  {
    if Decide(intent, a).Approved? {
      FillKeepsDistinct(a.positions, intent, mark);
      FillKeepsNotional(a.positions, intent, mark, cap);
      SymbolsAreOfFilledBook(a.positions, intent, mark);
    }
  }

  lemma NotionalMonotone(size: real, mark: real, price: real)
    requires mark <= price
    ensures Notional(size, mark) <= Notional(size, price)
  {
    ProductNonNegative(Abs(size), price - mark);
    assert Abs(size) * (price - mark) == Notional(size, price) - Notional(size, mark);
  }

  lemma SmallerNotional(size: real, larger: real, mark: real, cap: real)
    requires Abs(size) <= Abs(larger) && Notional(larger, mark) <= cap && cap >= 0.0
    ensures Notional(size, mark) <= cap
  {
    if mark >= 0.0 {
      ProductNonNegative(Abs(larger) - Abs(size), mark);
      assert (Abs(larger) - Abs(size)) * mark == Notional(larger, mark) - Notional(size, mark);
    } else {
      ProductNonNegative(Abs(size), -mark);
      assert Abs(size) * -mark == -Notional(size, mark);
    }
  }

  // ----- Gross exposure and leverage ----------------------------------------------------------

  lemma NotionalOfZero(price: real)
    ensures Notional(0.0, price) == 0.0
  {
  }

  lemma NonZeroSnoc(positions: seq<Position>, p: Position)
    ensures NonZeroSymbols(positions + [p])
         == NonZeroSymbols(positions) + if p.size != 0.0 then {p.symbol} else {}
  {
    var all := positions + [p];
    forall x
      ensures x in NonZeroSymbols(all) <==> x in NonZeroSymbols(positions) || (p.size != 0.0 && x == p.symbol)
    {
      if x in NonZeroSymbols(positions) {
        var i :| 0 <= i < |positions| && positions[i].size != 0.0 && positions[i].symbol == x;
        assert all[i].symbol == x;
      }
      if p.size != 0.0 {
        assert all[|positions|].symbol == p.symbol;
      }
    }
  }

  lemma GrossStep(rest: seq<Position>, p: Position, cap: real)
    requires DistinctSymbols(rest + [p]) && Notional(p.size, p.mark) <= cap
    requires Gross(rest) <= Times(|NonZeroSymbols(rest)|, cap)
    ensures Gross(rest + [p]) <= Times(|NonZeroSymbols(rest + [p])|, cap)
  {
    assert Front(rest + [p]) == rest;
    NonZeroSnoc(rest, p);
    LastIsNew(rest, p);
    NotionalOfZero(p.mark);
    hide Notional, NonZeroSymbols, DistinctSymbols;
    if p.size != 0.0 {
      assert |NonZeroSymbols(rest + [p])| == |NonZeroSymbols(rest)| + 1;
    }
  }

  /** With distinct symbols, gross exposure is at most one cap per open symbol. */
  lemma {:induction false} GrossBound(positions: seq<Position>, cap: real)
    requires DistinctSymbols(positions)
    requires forall i :: 0 <= i < |positions| ==> Notional(positions[i].size, positions[i].mark) <= cap
    ensures Gross(positions) <= Times(|NonZeroSymbols(positions)|, cap)
  {
    hide Notional, NonZeroSymbols;
    if positions == [] {
      NoneOpen();
    } else {
      GrossBound(Front(positions), cap);
      assert positions == Front(positions) + [Last(positions)];
      GrossStep(Front(positions), Last(positions), cap);
    }
  }

  lemma NoneOpen()
    ensures NonZeroSymbols([]) == {}
  {
  }

  lemma LastIsNew(rest: seq<Position>, p: Position)
    requires DistinctSymbols(rest + [p])
    ensures p.symbol !in NonZeroSymbols(rest)
  {
    forall i | 0 <= i < |rest|
      ensures rest[i].symbol != p.symbol
    {
      assert (rest + [p])[i] == rest[i] && (rest + [p])[|rest|] == p;
    }
  }

  lemma WithinCapsGross(positions: seq<Position>, cap: real, maxPositions: nat)
    requires WithinCaps(positions, cap, maxPositions) && cap >= 0.0
    ensures Gross(positions) <= Times(maxPositions, cap)
  {
    GrossBound(positions, cap);
    TimesMonotone(|NonZeroSymbols(positions)|, maxPositions, cap);
  }

  lemma Unscaled(gross: real, t: real, equity: real)
    requires equity > 0.0 && gross <= t * equity
    ensures Leverage(gross, equity) <= t
  {
    var l := Leverage(gross, equity);
    assert l * equity == gross;
    CancelFactor(equity, l, t);
  }

  lemma Distribute(sum: real, a: real, b: real, factor: real)
    requires sum == a + b
    ensures sum * factor == a * factor + b * factor
  {
  }

  lemma {:induction false} TimesScales(n: nat, x: real, factor: real, y: real)
    requires y == x * factor
    ensures Times(n, y) == Times(n, x) * factor
  {
    if n > 0 {
      TimesScales(n - 1, x, factor, y);
      Distribute(Times(n, x), Times(n - 1, x), x, factor);
    }
  }

  /** What was already established when the leverage check is reached. */
  lemma BeforeLeverage(intent: Intent, a: Account)
    requires Decide(intent, a) == Rejected(MaxLeverage)
    ensures a.equity > 0.0 && intent.price > 0.0
    ensures Notional(NewSize(a.positions, intent), intent.price) <= NotionalCap(a)
    ensures |NonZeroSymbols(Fill(a.positions, intent))| <= a.caps.maxConcurrentPositions
    ensures Leverage(Gross(Fill(a.positions, intent)), a.equity) > a.caps.maxAccountLeverage
  {
    SymbolsAreOfFilledBook(a.positions, intent, intent.price);
    NotionalIsOfFilledBook(a.positions, intent);
  }

  lemma NotionalNonNegative(size: real, price: real)
    requires price > 0.0
    ensures Notional(size, price) >= 0.0
  {
    ProductNonNegative(Abs(size), price);
  }

  /**
   * While the book is within a cap at least as wide as the configured one, and all positions
   * at that width fit the leverage cap, the leverage check can never be the one that rejects.
   */
  lemma LeverageNeverRejects(intent: Intent, a: Account, wide: real)
    requires WithinCaps(a.positions, wide, a.caps.maxConcurrentPositions) && a.caps.maxConcurrentPositions >= 0
    requires NotionalCap(a) <= wide
    requires Times(a.caps.maxConcurrentPositions, wide) <= a.caps.maxAccountLeverage * a.equity
    ensures Decide(intent, a) != Rejected(MaxLeverage)
  {
    hide Decide, Notional, FillAt, Gross, Times, Leverage, PostFillSize;
    if Decide(intent, a) == Rejected(MaxLeverage) {
      BeforeLeverage(intent, a);
      FillKeepsDistinct(a.positions, intent, intent.price);
      FillKeepsNotional(a.positions, intent, intent.price, wide);
      NotionalNonNegative(NewSize(a.positions, intent), intent.price);
      WithinCapsGross(Fill(a.positions, intent), wide, a.caps.maxConcurrentPositions);
      Unscaled(Gross(Fill(a.positions, intent)), a.caps.maxAccountLeverage, a.equity);
      assert false;
    }
  }

  // ----- Runs -----------------------------------------------------------------------------------

  /** One checked intent, with the account it was checked against. */
  datatype Event = Event(intent: Intent, account: Account)

  /** What is open: symbol, size and mark of every non-zero position. */
  function OpenOf(positions: seq<Position>): set<(string, real, real)> {
    set i | 0 <= i < |positions| && positions[i].size != 0.0 ::
        (positions[i].symbol, positions[i].size, positions[i].mark)
  }

  /** The same positions are open; order, flat entries and liquidation prices may differ. */
  predicate SameBook(a: seq<Position>, b: seq<Position>) {
    DistinctSymbols(b) && OpenOf(a) == OpenOf(b)
  }

  function BookAfter(e: Event, mark: real): seq<Position> {
    if Decide(e.intent, e.account).Approved? then FillAt(e.account.positions, e.intent, mark) else e.account.positions
  }

  /**
   * From a flat account, with fixed equity and caps: each approved intent fills fully
   * before the next one is checked, and its symbol is then marked at `mark(intent)`.
   */
  predicate SequentialRun(events: seq<Event>, equity: real, caps: Caps, mark: Intent -> real) {
    events == [] ||
    (SequentialRun(Front(events), equity, caps, mark)
     && Last(events).account.equity == equity && Last(events).account.caps == caps
     && (if |events| == 1 then SameBook([], events[0].account.positions)
         else SameBook(BookAfter(Last(Front(events)), mark(Last(Front(events)).intent)),
                       Last(events).account.positions)))
  }

  /** Marks that never move: one for each symbol. */
  function AtMarks(marks: string -> real): Intent -> real {
    (i: Intent) => marks(i.symbol)
  }

  /** Marks that follow the fills: the price of the latest order in the symbol. */
  function AtPrices(): Intent -> real {
    (i: Intent) => i.price
  }

  /** A fill of this intent that grows the position is priced at this level or above. */
  predicate PricedAt(e: Event, level: real) {
    Decide(e.intent, e.account).Approved? ==>
      e.intent.price >= level
      || Abs(NewSize(e.account.positions, e.intent)) <= Abs(CurrentSize(e.account.positions, e.intent.symbol))
  }

  function ShareOf(ratio: real, mark: real): real {
    ratio * mark
  }

  /**
   * Growing orders are priced at `ratio` times their mark or above; the fill of the last order is not
   * part of the run.
   */
  predicate PricedFrom(events: seq<Event>, marks: string -> real, ratio: real) {
    forall k :: 0 <= k < |events| - 1 ==> PricedAt(events[k], ShareOf(ratio, marks(events[k].intent.symbol)))
  }

  predicate MarkedBy(positions: seq<Position>, marks: string -> real) {
    forall i :: 0 <= i < |positions| && positions[i].size != 0.0 ==> positions[i].mark == marks(positions[i].symbol)
  }

  lemma OpenInBoth(a: seq<Position>, b: seq<Position>, i: nat) returns (j: nat)
    requires OpenOf(a) == OpenOf(b) && i < |b| && b[i].size != 0.0
    ensures j < |a| && a[j].symbol == b[i].symbol && a[j].size == b[i].size && a[j].mark == b[i].mark
  {
    assert (b[i].symbol, b[i].size, b[i].mark) in OpenOf(a);
    j :| 0 <= j < |a| && a[j].size != 0.0 && (a[j].symbol, a[j].size, a[j].mark) == (b[i].symbol, b[i].size, b[i].mark);
  }

  lemma SameBookSameSymbols(a: seq<Position>, b: seq<Position>)
    requires OpenOf(a) == OpenOf(b)
    ensures NonZeroSymbols(a) == NonZeroSymbols(b)
  {
    forall x
      ensures x in NonZeroSymbols(a) <==> x in NonZeroSymbols(b)
    {
      if x in NonZeroSymbols(a) {
        var i :| 0 <= i < |a| && a[i].size != 0.0 && a[i].symbol == x;
        var j := OpenInBoth(b, a, i);
      }
      if x in NonZeroSymbols(b) {
        var i :| 0 <= i < |b| && b[i].size != 0.0 && b[i].symbol == x;
        var j := OpenInBoth(a, b, i);
      }
    }
  }

  lemma SameBookSameCaps(a: seq<Position>, b: seq<Position>, cap: real, maxPositions: int)
    requires SameBook(a, b) && WithinCaps(a, cap, maxPositions) && cap >= 0.0
    ensures WithinCaps(b, cap, maxPositions)
  {
    SameBookSameSymbols(a, b);
    forall i | 0 <= i < |b|
      ensures Notional(b[i].size, b[i].mark) <= cap
    {
      if b[i].size == 0.0 {
        NotionalOfZero(b[i].mark);
      } else {
        var j := OpenInBoth(a, b, i);
      }
    }
  }

  lemma SameBookSameMarks(a: seq<Position>, b: seq<Position>, marks: string -> real)
    requires SameBook(a, b) && MarkedBy(a, marks)
    ensures MarkedBy(b, marks)
  {
    forall i | 0 <= i < |b| && b[i].size != 0.0
      ensures b[i].mark == marks(b[i].symbol)
    {
      var j := OpenInBoth(a, b, i);
    }
  }

  /** If every fill so far left its own position within the cap, the whole run is within the caps. */
  lemma {:induction false} RunStaysWithinCaps(events: seq<Event>, equity: real, caps: Caps, mark: Intent -> real,
                                              cap: real)
    requires events != [] && SequentialRun(events, equity, caps, mark)
    requires cap >= 0.0 && caps.maxConcurrentPositions >= 0
    requires forall k :: 0 <= k < |events| - 1 && Decide(events[k].intent, events[k].account).Approved? ==>
      Notional(NewSize(events[k].account.positions, events[k].intent), mark(events[k].intent)) <= cap
    ensures WithinCaps(Last(events).account.positions, cap, caps.maxConcurrentPositions)
  {
    hide WithinCaps, SameBook, FillAt, Notional, NewSize, Decide;
    var now := Last(events).account;
    if |events| == 1 {
      EmptyIsWithinCaps(cap, caps.maxConcurrentPositions);
      SameBookSameCaps([], now.positions, cap, caps.maxConcurrentPositions);
    } else {
      var before := Front(events);
      RunStaysWithinCaps(before, equity, caps, mark, cap);
      var e := Last(before);
      assert e == events[|events| - 2];
      RunIsAt(before, equity, caps, mark);
      assert WithinCaps(e.account.positions, cap, e.account.caps.maxConcurrentPositions);
      ApprovedFillKeepsCapsIff(e.intent, e.account, mark(e.intent), cap);
      SameBookSameCaps(BookAfter(e, mark(e.intent)), now.positions, cap, caps.maxConcurrentPositions);
    }
  }

  lemma EmptyIsWithinCaps(cap: real, maxPositions: int)
    requires maxPositions >= 0
    ensures WithinCaps([], cap, maxPositions)
  {
    assert NonZeroSymbols([]) == {};
  }

  lemma RunIsAt(events: seq<Event>, equity: real, caps: Caps, mark: Intent -> real)
    requires events != [] && SequentialRun(events, equity, caps, mark)
    ensures Last(events).account.equity == equity && Last(events).account.caps == caps
  {
  }

  /** At fixed marks, what is open is valued at them throughout the run. */
  lemma {:induction false} RunIsMarked(events: seq<Event>, equity: real, caps: Caps, marks: string -> real)
    requires events != [] && SequentialRun(events, equity, caps, AtMarks(marks))
    ensures MarkedBy(Last(events).account.positions, marks)
  {
    hide SameBook, FillAt, NewSize, Decide;
    var now := Last(events).account;
    if |events| == 1 {
      SameBookSameMarks([], now.positions, marks);
    } else {
      RunIsMarked(Front(events), equity, caps, marks);
      var e := Last(Front(events));
      FillEach(e.account.positions, e.intent, marks(e.intent.symbol));
      SameBookSameMarks(BookAfter(e, marks(e.intent.symbol)), now.positions, marks);
    }
  }

  /** An approved order priced from a share of its mark leaves its position within the cap divided by that share. */
  lemma PricedFillKeepsWidth(e: Event, marks: string -> real, ratio: real, wide: real)
    requires ratio > 0.0 && wide >= 0.0 && ratio * wide == NotionalCap(e.account)
    requires WithinCaps(e.account.positions, wide, e.account.caps.maxConcurrentPositions)
    requires MarkedBy(e.account.positions, marks) && PricedAt(e, ShareOf(ratio, marks(e.intent.symbol)))
    ensures Decide(e.intent, e.account).Approved? ==>
      Notional(NewSize(e.account.positions, e.intent), marks(e.intent.symbol)) <= wide
  {
    var positions, symbol := e.account.positions, e.intent.symbol;
    var newSize, current, mark := NewSize(positions, e.intent), CurrentSize(positions, symbol), marks(symbol);
    ApprovedAtItsPrice(e.intent, e.account);
    hide Notional, Decide, NewSize, ShareOf, NotionalCap;
    if Decide(e.intent, e.account).Approved? {
      if e.intent.price >= ShareOf(ratio, mark) {
        WidthAtMark(newSize, e.intent.price, ratio, mark, NotionalCap(e.account), wide);
      } else {
        CurrentNotional(positions, symbol, marks, wide);
        SmallerNotional(newSize, current, mark, wide);
      }
    }
  }

  lemma WidthAtMark(size: real, price: real, ratio: real, mark: real, cap: real, wide: real)
    requires ratio > 0.0 && ratio * wide == cap && price >= ShareOf(ratio, mark) && Notional(size, price) <= cap
    ensures Notional(size, mark) <= wide
  {
    NotionalMonotone(size, ShareOf(ratio, mark), price);
    assert Notional(size, ShareOf(ratio, mark)) == ratio * Notional(size, mark);
    CancelFactor(ratio, Notional(size, mark), wide);
  }

  lemma CurrentNotional(positions: seq<Position>, symbol: string, marks: string -> real, cap: real)
    requires MarkedBy(positions, marks) && cap >= 0.0
    requires forall i :: 0 <= i < |positions| ==> Notional(positions[i].size, positions[i].mark) <= cap
    ensures Notional(CurrentSize(positions, symbol), marks(symbol)) <= cap
  {
    NotionalOfZero(marks(symbol));
    if PositionFor(positions, symbol).Some? {
      PositionForFinds(positions, symbol);
    }
  }

  /** All fills of a fixed-mark run priced from a share of the marks stay within that width. */
  lemma {:induction false} PricedFills(events: seq<Event>, equity: real, caps: Caps, marks: string -> real,
                                       ratio: real, wide: real)
    requires SequentialRun(events, equity, caps, AtMarks(marks)) && PricedFrom(events, marks, ratio)
    requires ratio > 0.0 && ratio * wide == caps.maxPositionNotionalPct * equity && wide >= 0.0
    requires caps.maxConcurrentPositions >= 0
    ensures forall k :: 0 <= k < |events| - 1 && Decide(events[k].intent, events[k].account).Approved? ==>
      Notional(NewSize(events[k].account.positions, events[k].intent), AtMarks(marks)(events[k].intent)) <= wide
  {
    hide Decide, Notional, NewSize, PricedAt, MarkedBy, WithinCaps, BookAfter, SameBook, ShareOf;
    if |events| > 1 {
      var before := Front(events);
      assert PricedFrom(before, marks, ratio);
      PricedFills(before, equity, caps, marks, ratio, wide);
      RunStaysWithinCaps(before, equity, caps, AtMarks(marks), wide);
      RunIsMarked(before, equity, caps, marks);
      RunIsAt(before, equity, caps, AtMarks(marks));
      assert Last(before) == events[|events| - 2];
      PricedFillKeepsWidth(Last(before), marks, ratio, wide);
    }
  }

  /** What the price share leaves of the leverage cap holds `maxConcurrentPositions` full positions. */
  predicate LeverageFits(caps: Caps, ratio: real) {
    caps.maxConcurrentPositions as real * caps.maxPositionNotionalPct <= ratio * caps.maxAccountLeverage
  }

  lemma WideFits(n: nat, pct: real, equity: real, bound: real, ratio: real, wide: real)
    requires ratio > 0.0 && equity >= 0.0 && ratio * wide == pct * equity && n as real * pct <= ratio * bound
    ensures Times(n, wide) <= bound * equity
  {
    TimesIsProduct(n, wide);
    var k := n as real;
    assert ratio * (k * wide) == k * (pct * equity) == (k * pct) * equity;
    ProductNonNegative(ratio * bound - k * pct, equity);
    assert (ratio * bound - k * pct) * equity == ratio * (bound * equity) - (k * pct) * equity;
    CancelFactor(ratio, k * wide, bound * equity);
  }

  /** The book is within the caps at width `wide`, gross accordingly, and leverage does not reject if it fits. */
  predicate SafeAt(e: Event, ratio: real, wide: real) {
    var a, n := e.account, e.account.caps.maxConcurrentPositions;
    && WithinCaps(a.positions, wide, n)
    && Gross(a.positions) <= n as real * wide
    && (ratio <= 1.0 && LeverageFits(a.caps, ratio) ==> Decide(e.intent, a) != Rejected(MaxLeverage))
  }

  lemma WithinWidthIsSafe(e: Event, ratio: real, wide: real)
    requires WithinCaps(e.account.positions, wide, e.account.caps.maxConcurrentPositions)
    requires ratio > 0.0 && ratio * wide == NotionalCap(e.account) && wide >= 0.0
    requires e.account.caps.maxConcurrentPositions >= 0
    ensures SafeAt(e, ratio, wide)
  {
    var a, n := e.account, e.account.caps.maxConcurrentPositions;
    hide WithinCaps, Decide, Gross;
    WithinCapsGross(a.positions, wide, n);
    TimesIsProduct(n, wide);
    if ratio <= 1.0 && LeverageFits(a.caps, ratio) && a.equity >= 0.0 {
      WideFits(n, a.caps.maxPositionNotionalPct, a.equity, a.caps.maxAccountLeverage, ratio, wide);
      NarrowerCap(ratio, wide);
      LeverageNeverRejects(e.intent, a, wide);
    }
    NoEquityNoLeverage(e.intent, a);
  }

  lemma NarrowerCap(ratio: real, wide: real)
    requires ratio <= 1.0 && wide >= 0.0
    ensures ratio * wide <= wide
  {
    ProductNonNegative(1.0 - ratio, wide);
    assert (1.0 - ratio) * wide == wide - ratio * wide;
  }

  lemma NoEquityNoLeverage(intent: Intent, a: Account)
    ensures a.equity <= 0.0 ==> Decide(intent, a) != Rejected(MaxLeverage)
  {
  }

  /**
   * With fixed marks, at every point of a run whose growing orders are priced from a share of
   * the marks: both caps hold at the notional cap divided by that share, gross is at most
   * their product, and leverage never rejects when the share leaves room for it.
   */
  lemma CapsScaleWithPrice(events: seq<Event>, equity: real, caps: Caps, marks: string -> real, ratio: real, wide: real)
    requires events != [] && SequentialRun(events, equity, caps, AtMarks(marks)) && PricedFrom(events, marks, ratio)
    requires ratio > 0.0 && ratio * wide == caps.maxPositionNotionalPct * equity && wide >= 0.0
    requires caps.maxConcurrentPositions >= 0
    ensures SafeAt(Last(events), ratio, wide)
  {
    hide SequentialRun, PricedFrom, NewSize, Notional, Decide, AtMarks, WithinCaps, SafeAt;
    RunIsAt(events, equity, caps, AtMarks(marks));
    PricedFills(events, equity, caps, marks, ratio, wide);
    RunStaysWithinCaps(events, equity, caps, AtMarks(marks), wide);
    WithinWidthIsSafe(Last(events), ratio, wide);
  }

  /** With growing orders at the mark or above, both caps hold as configured. */
  lemma CapsAreInductive(events: seq<Event>, equity: real, caps: Caps, marks: string -> real)
    requires events != [] && SequentialRun(events, equity, caps, AtMarks(marks)) && PricedFrom(events, marks, 1.0)
    requires caps.maxPositionNotionalPct * equity >= 0.0 && caps.maxConcurrentPositions >= 0
    ensures SafeAt(Last(events), 1.0, caps.maxPositionNotionalPct * equity)
  {
    hide SequentialRun, PricedFrom, AtMarks, SafeAt;
    CapsScaleWithPrice(events, equity, caps, marks, 1.0, caps.maxPositionNotionalPct * equity);
  }

  /** The special case in which every fill moves its symbol's mark to the fill price: no condition is needed. */
  lemma RemarkedCapsAreInductive(events: seq<Event>, equity: real, caps: Caps)
    requires events != [] && SequentialRun(events, equity, caps, AtPrices())
    requires caps.maxPositionNotionalPct * equity >= 0.0 && caps.maxConcurrentPositions >= 0
    ensures SafeAt(Last(events), 1.0, caps.maxPositionNotionalPct * equity)
  {
    var cap := caps.maxPositionNotionalPct * equity;
    hide SequentialRun, NewSize, Notional, Decide, AtPrices, WithinCaps, SafeAt;
    RunIsAt(events, equity, caps, AtPrices());
    ApprovedAtPrices(events, equity, caps, cap);
    RunStaysWithinCaps(events, equity, caps, AtPrices(), cap);
    WithinWidthIsSafe(Last(events), 1.0, cap);
  }

  lemma {:induction false} ApprovedAtPrices(events: seq<Event>, equity: real, caps: Caps, cap: real)
    requires SequentialRun(events, equity, caps, AtPrices()) && cap == caps.maxPositionNotionalPct * equity
    ensures forall k :: 0 <= k < |events| && Decide(events[k].intent, events[k].account).Approved? ==>
      Notional(NewSize(events[k].account.positions, events[k].intent), AtPrices()(events[k].intent)) <= cap
  {
    hide BookAfter, SameBook, Notional, Decide, NewSize;
    if events != [] {
      var e := Last(events);
      ApprovedAtPrices(Front(events), equity, caps, cap);
      ApprovedAtItsPrice(e.intent, e.account);
      assert e == events[|events| - 1] && NotionalCap(e.account) == cap;
    }
  }

  lemma ApprovedAtItsPrice(intent: Intent, a: Account)
    ensures Decide(intent, a).Approved? ==>
      intent.price > 0.0 && Notional(NewSize(a.positions, intent), intent.price) <= NotionalCap(a)
  {
    hide Notional, NotionalCap, NewSize, CheckAccount, PostFillSymbols, PostFillNotional, Leverage,
         TooCloseToLiquidation;
  }

  // ----- How far below the mark orders may be priced ----------------------------------------------

  /** The symbol number k: k letters long. */
  function Symbol(k: nat): (name: string)
    ensures |name| == k
  {
    if k == 0 then "" else Symbol(k - 1) + "x"
  }

  /** `k` positions of one size, all marked at 1. */
  function FullBook(k: nat, size: real): seq<Position> {
    if k == 0 then [] else FullBook(k - 1, size) + [Position(Symbol(k - 1), size, 1.0, None)]
  }

  function FullIntent(k: nat, size: real, price: real): Intent {
    Intent(Symbol(k), Buy, size, price, false, 0.0)
  }

  /** An otherwise untroubled account. */
  function CalmAccount(positions: seq<Position>, equity: real, caps: Caps): Account {
    Account(equity, positions, [], [], Abs(caps.dailyLossLimitPct * equity) + 1.0,
            Abs(caps.weeklyLossLimitPct * equity) + 1.0, 0, None, false, 0.0, caps)
  }

  lemma {:induction false} FullBookPositions(k: nat, size: real)
    ensures var book := FullBook(k, size);
      |book| == k && forall i :: 0 <= i < k ==> book[i] == Position(Symbol(i), size, 1.0, None)
  {
    if k > 0 {
      FullBookPositions(k - 1, size);
    }
  }

  lemma {:induction false} FullBookTotals(k: nat, size: real)
    requires size > 0.0
    ensures Gross(FullBook(k, size)) == Times(k, size)
    ensures |NonZeroSymbols(FullBook(k, size))| == k
  {
    if k == 0 {
      assert NonZeroSymbols([]) == {};
    } else {
      FullBookTotals(k - 1, size);
      FullBookPositions(k - 1, size);
      FullStep(FullBook(k - 1, size), Position(Symbol(k - 1), size, 1.0, None));
    }
  }

  lemma FullStep(rest: seq<Position>, p: Position)
    requires p.mark == 1.0 && p.size > 0.0 && forall i :: 0 <= i < |rest| ==> rest[i].symbol != p.symbol
    ensures Gross(rest + [p]) == Gross(rest) + p.size
    ensures |NonZeroSymbols(rest + [p])| == |NonZeroSymbols(rest)| + 1
  {
    assert Front(rest + [p]) == rest && Notional(p.size, 1.0) == p.size;
    NonZeroSnoc(rest, p);
  }

  /** Filling the next full order at marks of 1 gives the next full book. */
  lemma FullFill(k: nat, size: real, price: real)
    ensures FillAt(FullBook(k, size), FullIntent(k, size, price), 1.0) == FullBook(k + 1, size)
    ensures Fill(FullBook(k, size), FullIntent(k, size, price))
        == FullBook(k, size) + [Position(Symbol(k), size, price, None)]
    ensures NewSize(FullBook(k, size), FullIntent(k, size, price)) == size
  {
    FullBookPositions(k, size);
    PositionForNone(FullBook(k, size), Symbol(k));
  }

  /** The caps leave room to trade at all. */
  predicate Tradable(caps: Caps) {
    && caps.maxOrdersPerMinute > 0 && caps.maxOpenOrders > 0 && caps.consecutiveLosersPause > 0
    && caps.maxRiskPerTradePct >= 0.0 && caps.maxPositionNotionalPct > 0.0
  }

  lemma CalmPasses(positions: seq<Position>, equity: real, caps: Caps)
    requires equity > 0.0 && Tradable(caps)
    ensures CheckAccount(CalmAccount(positions, equity, caps)).Approved?
  {
  }

  /** Positions of this size, filled at this price, use the notional cap up. */
  predicate FullSizeAt(size: real, price: real, equity: real, caps: Caps) {
    equity > 0.0 && Tradable(caps) && size > 0.0 && price > 0.0 && size * price == caps.maxPositionNotionalPct * equity
  }

  /** The next full order would put gross exposure, with itself at its price, beyond the leverage cap. */
  predicate Exceeds(k: nat, size: real, equity: real, caps: Caps)
    requires equity > 0.0
  {
    Leverage(Times(k, size) + CapOf(caps, equity), equity) > caps.maxAccountLeverage
  }

  function CapOf(caps: Caps, equity: real): real {
    caps.maxPositionNotionalPct * equity
  }

  lemma FullLimits(size: real, price: real, positions: seq<Position>, equity: real, caps: Caps)
    requires FullSizeAt(size, price, equity, caps)
    ensures var a := CalmAccount(positions, equity, caps);
      && a.equity == equity > 0.0 && a.caps == caps && a.positions == positions && CheckAccount(a).Approved?
      && NotionalCap(a) == CapOf(caps, equity) == Notional(size, price) && NotionalCap(a) > 0.0
      && 0.0 <= a.caps.maxRiskPerTradePct * a.equity && size > 0.0 && price > 0.0
  {
    CalmPasses(positions, equity, caps);
    ProductNonNegative(caps.maxRiskPerTradePct, equity);
    ProductPositive(caps.maxPositionNotionalPct, equity);
  }

  /** The book that a full order leaves, at its price. */
  lemma FullBookAfter(k: nat, size: real, price: real)
    requires size > 0.0
    ensures var book, intent := FullBook(k, size), FullIntent(k, size, price);
      && NewSize(book, intent) == size
      && Gross(Fill(book, intent)) == Times(k, size) + Notional(size, price)
      && |NonZeroSymbols(Fill(book, intent))| == k + 1
      && forall i :: 0 <= i < |book| ==> book[i].liq.None?
  {
    var book, intent := FullBook(k, size), FullIntent(k, size, price);
    FullFill(k, size, price);
    FullBookPositions(k, size);
    FullBookTotals(k, size);
    FullBookTotals(k + 1, size);
    SameSymbolsAtAnyMark(book, intent, 1.0);
    GrossSnoc(book, Position(Symbol(k), size, price, None));
  }

  /** To one more full position only the leverage check can object before the count is exhausted. */
  lemma FullIntentDecision(k: nat, size: real, price: real, equity: real, caps: Caps)
    requires FullSizeAt(size, price, equity, caps) && k < caps.maxConcurrentPositions
    ensures Decide(FullIntent(k, size, price), CalmAccount(FullBook(k, size), equity, caps))
         == if Exceeds(k, size, equity, caps) then Rejected(MaxLeverage) else Approved
  {
    hide CheckAccount, Fill, FullBook, Gross, Times, Notional, Leverage, NewSize, Decide, NonZeroSymbols, NotionalCap,
         FullSizeAt, CapOf, CalmAccount;
    var book, intent := FullBook(k, size), FullIntent(k, size, price);
    FullLimits(size, price, book, equity, caps);
    FullBookAfter(k, size, price);
    OnlyLeverageLeft(intent, CalmAccount(book, equity, caps));
  }

  lemma SameSymbolsAtAnyMark(positions: seq<Position>, intent: Intent, mark: real)
    ensures NonZeroSymbols(Fill(positions, intent)) == NonZeroSymbols(FillAt(positions, intent, mark))
  {
    SymbolsAreOfFilledBook(positions, intent, mark);
    SymbolsAreOfFilledBook(positions, intent, intent.price);
  }

  /** When every other check of an order passes, leverage after the fill decides. */
  lemma OnlyLeverageLeft(intent: Intent, a: Account)
    requires CheckAccount(a).Approved? && a.equity > 0.0 && intent.size > 0.0 && intent.price > 0.0
    requires intent.reduceOnly || intent.riskDollars <= a.caps.maxRiskPerTradePct * a.equity
    requires Notional(NewSize(a.positions, intent), intent.price) <= NotionalCap(a)
    requires |NonZeroSymbols(Fill(a.positions, intent))| <= a.caps.maxConcurrentPositions
    requires forall i :: 0 <= i < |a.positions| ==> a.positions[i].liq.None?
    ensures Decide(intent, a)
         == if Leverage(Gross(Fill(a.positions, intent)), a.equity) > a.caps.maxAccountLeverage
            then Rejected(MaxLeverage) else Approved
  {
    SymbolsAreOfFilledBook(a.positions, intent, intent.price);
    NotionalIsOfFilledBook(a.positions, intent);
    hide CheckAccount, FillAt, Gross, Notional, Leverage, NewSize, NonZeroSymbols, PostFillSymbols, PostFillNotional,
         NotionalCap;
  }

  lemma GrossSnoc(positions: seq<Position>, p: Position)
    ensures Gross(positions + [p]) == Gross(positions) + Notional(p.size, p.mark)
  {
    assert Front(positions + [p]) == positions;
  }

  lemma Unscale(gross: real, x: real, equity: real)
    requires equity > 0.0 && gross == x * equity
    ensures Leverage(gross, equity) == x
  {
  }

  /** The run that opens full positions one after the other. */
  function FullRun(n: nat, size: real, price: real, equity: real, caps: Caps): (events: seq<Event>)
    ensures |events| == n
  {
    if n == 0 then []
    else
      FullRun(n - 1, size, price, equity, caps) +
      [Event(FullIntent(n - 1, size, price), CalmAccount(FullBook(n - 1, size), equity, caps))]
  }

  lemma FullEvent(k: nat, size: real, price: real, equity: real, caps: Caps)
    requires FullSizeAt(size, price, equity, caps) && k < caps.maxConcurrentPositions && !Exceeds(k, size, equity, caps)
    ensures BookAfter(Event(FullIntent(k, size, price), CalmAccount(FullBook(k, size), equity, caps)), 1.0)
         == FullBook(k + 1, size)
  {
    hide Decide, FillAt, FullBook, FullIntent, Exceeds;
    FullIntentDecision(k, size, price, equity, caps);
    FullFill(k, size, price);
  }

  /** An event checked against the full book extends a full run whose fills were all approved. */
  lemma FullRunThen(n: nat, size: real, price: real, equity: real, caps: Caps, marks: string -> real, ratio: real,
                    last: Event)
    requires FullSizeAt(size, price, equity, caps) && price >= ratio && forall s :: marks(s) == 1.0
    requires n <= caps.maxConcurrentPositions && forall k :: 0 <= k < n ==> !Exceeds(k, size, equity, caps)
    requires last.account == CalmAccount(FullBook(n, size), equity, caps)
    ensures var events := FullRun(n, size, price, equity, caps) + [last];
      SequentialRun(events, equity, caps, AtMarks(marks)) && PricedFrom(events, marks, ratio)
  {
    hide BookAfter, OpenOf, FullBook, Decide, NewSize, DistinctSymbols, Exceeds;
    var before := FullRun(n, size, price, equity, caps);
    var events := before + [last];
    assert Front(events) == before;
    FullBookIsDistinct(n, size);
    if n > 0 {
      var e := Event(FullIntent(n - 1, size, price), CalmAccount(FullBook(n - 1, size), equity, caps));
      assert Last(before) == e && before == FullRun(n - 1, size, price, equity, caps) + [e];
      FullRunThen(n - 1, size, price, equity, caps, marks, ratio, e);
      FullEvent(n - 1, size, price, equity, caps);
      assert PricedAt(e, ShareOf(ratio, marks(e.intent.symbol)));
      hide SequentialRun, PricedAt, PricedFrom, ShareOf;
      PricedAppended(before, events, marks, ratio);
    }
    hide PricedFrom, PricedAt;
    assert SequentialRun(events, equity, caps, AtMarks(marks));
    if n == 0 {
      OnePriced(events, marks, ratio);
    }
  }

  lemma OnePriced(events: seq<Event>, marks: string -> real, ratio: real)
    requires |events| == 1
    ensures PricedFrom(events, marks, ratio)
  {
  }

  lemma FullBookIsDistinct(k: nat, size: real)
    ensures DistinctSymbols(FullBook(k, size)) && (k == 0 ==> FullBook(k, size) == [])
  {
    FullBookPositions(k, size);
  }

  /** Only the order before the appended event joins those whose price matters. */
  lemma PricedAppended(before: seq<Event>, events: seq<Event>, marks: string -> real, ratio: real)
    requires before != [] && events != [] && Front(events) == before && PricedFrom(before, marks, ratio)
    requires PricedAt(Last(before), ShareOf(ratio, marks(Last(before).intent.symbol)))
    ensures PricedFrom(events, marks, ratio)
  {
    hide PricedAt, ShareOf;
    forall k | 0 <= k < |events| - 1
      ensures PricedAt(events[k], ShareOf(ratio, marks(events[k].intent.symbol)))
    {
      assert events[k] == before[k];
    }
  }

  /** The first full order that leverage refuses, if there is one among the first n. */
  lemma {:induction false} FirstExcess(n: nat, size: real, equity: real, caps: Caps) returns (k: nat)
    requires equity > 0.0
    ensures k <= n && (forall j :: 0 <= j < k ==> !Exceeds(j, size, equity, caps))
    ensures k < n ==> Exceeds(k, size, equity, caps)
  {
    hide Exceeds;
    if n == 0 {
      k := 0;
    } else {
      k := FirstExcess(n - 1, size, equity, caps);
      if k == n - 1 && !Exceeds(k, size, equity, caps) {
        k := n;
      }
    }
  }

  /** A fixed-mark run that ends in a leverage rejection. */
  predicate EndsInLeverageRejection(events: seq<Event>, equity: real, caps: Caps, marks: string -> real) {
    && events != [] && SequentialRun(events, equity, caps, AtMarks(marks))
    && Decide(Last(events).intent, Last(events).account) == Rejected(MaxLeverage)
  }

  /**
   * Orders priced from a share of the marks, at most the whole, can meet the leverage
   * rejection exactly when the two caps multiply to more than that share of the leverage cap.
   */
  lemma LeverageReachableIff(equity: real, caps: Caps, ratio: real)
    requires equity > 0.0 && Tradable(caps) && caps.maxConcurrentPositions > 0 && 0.0 < ratio <= 1.0
    ensures (exists events: seq<Event>, marks: string -> real ::
               EndsInLeverageRejection(events, equity, caps, marks) && PricedFrom(events, marks, ratio))
       <==> !LeverageFits(caps, ratio)
  {
    hide SequentialRun, Decide, PricedFrom, WithinCaps, Gross, LeverageFits;
    ProductPositive(caps.maxPositionNotionalPct, equity);
    var wide := FullSize(caps.maxPositionNotionalPct * equity, ratio);
    if LeverageFits(caps, ratio) {
      forall events: seq<Event>, marks: string -> real
        | EndsInLeverageRejection(events, equity, caps, marks) && PricedFrom(events, marks, ratio)
        ensures false
      {
        RunIsAt(events, equity, caps, AtMarks(marks));
        CapsScaleWithPrice(events, equity, caps, marks, ratio, wide);
      }
    } else {
      var marks := (s: string) => 1.0;
      var events := LeverageWitness(equity, caps, wide, ratio, marks);
    }
  }

  /** Either a full order is refused on the way, or the full book refuses an order that closes nothing. */
  lemma LeverageWitness(equity: real, caps: Caps, wide: real, ratio: real, marks: string -> real)
    returns (events: seq<Event>)
    requires FullSizeAt(wide, ratio, equity, caps) && caps.maxConcurrentPositions > 0 && !LeverageFits(caps, ratio)
    requires forall s :: marks(s) == 1.0
    ensures EndsInLeverageRejection(events, equity, caps, marks) && PricedFrom(events, marks, ratio)
  {
    var n := caps.maxConcurrentPositions;
    var k := FirstExcess(n, wide, equity, caps);
    var last := Event(if k < n then FullIntent(k, wide, ratio) else ClosingIntent(n),
                      CalmAccount(FullBook(k, wide), equity, caps));
    if k < n {
      FullIntentDecision(k, wide, ratio, equity, caps);
    } else {
      ClosingIsRefused(equity, caps, wide, ratio);
    }
    FullRunThen(k, wide, ratio, equity, caps, marks, ratio, last);
    events := FullRun(k, wide, ratio, equity, caps) + [last];
    hide SequentialRun, PricedFrom, Decide, FullBook, FullIntent;
  }

  /** A reduce-only order in a symbol that is not open. */
  function ClosingIntent(k: nat): Intent {
    Intent(Symbol(k), Sell, 1.0, 1.0, true, 0.0)
  }

  lemma ClosingIsRefused(equity: real, caps: Caps, wide: real, ratio: real)
    requires FullSizeAt(wide, ratio, equity, caps) && caps.maxConcurrentPositions > 0 && !LeverageFits(caps, ratio)
    ensures var n := caps.maxConcurrentPositions;
      Decide(ClosingIntent(n), CalmAccount(FullBook(n, wide), equity, caps)) == Rejected(MaxLeverage)
  {
    var n := caps.maxConcurrentPositions;
    var book, intent := FullBook(n, wide), ClosingIntent(n);
    WideExceeds(n, caps.maxPositionNotionalPct, equity, caps.maxAccountLeverage, ratio, wide);
    FullLimits(wide, ratio, book, equity, caps);
    hide CheckAccount, Fill, FullBook, Gross, Times, Notional, Leverage, NewSize, Decide, NonZeroSymbols, NotionalCap,
         FullSizeAt, CapOf, CalmAccount, LeverageFits;
    ClosesNothing(n, wide);
    NotionalOfZero(1.0);
    OnlyLeverageLeft(intent, CalmAccount(book, equity, caps));
  }

  lemma ClosesNothing(n: nat, wide: real)
    requires wide > 0.0
    ensures var book, intent := FullBook(n, wide), ClosingIntent(n);
      && NewSize(book, intent) == 0.0 && Gross(Fill(book, intent)) == Times(n, wide)
      && |NonZeroSymbols(Fill(book, intent))| == n
      && forall i :: 0 <= i < |book| ==> book[i].liq.None?
  {
    var book, intent := FullBook(n, wide), ClosingIntent(n);
    FullBookPositions(n, wide);
    FullBookTotals(n, wide);
    PositionForNone(book, intent.symbol);
    var p := Position(intent.symbol, 0.0, 1.0, None);
    assert FillAt(book, intent, 1.0) == book + [p];
    NonZeroSnoc(book, p);
    GrossSnoc(book, p);
    NotionalOfZero(1.0);
    hide Gross, NonZeroSymbols, FullBook, Notional;
  }

  lemma WideExceeds(n: nat, pct: real, equity: real, bound: real, ratio: real, wide: real)
    requires ratio > 0.0 && equity > 0.0 && wide * ratio == pct * equity && n as real * pct > ratio * bound
    ensures Leverage(Times(n, wide), equity) > bound
  {
    TimesIsProduct(n, wide);
    var k, l := n as real, Leverage(Times(n, wide), equity);
    assert l * equity == k * wide;
    if l <= bound {
      ProductNonNegative(bound - l, equity);
      assert (bound - l) * equity == bound * equity - k * wide;
      ProductNonNegative(bound * equity - k * wide, ratio);
      assert (bound * equity - k * wide) * ratio == (ratio * bound) * equity - (k * pct) * equity;
      ProductPositive(k * pct - ratio * bound, equity);
      assert false;
    }
  }

  /** Under the shipped caps the leverage rejection is dead code down to a fifth of the mark. */
  lemma DefaultCapsNeverReachLeverage(events: seq<Event>, equity: real, marks: string -> real)
    requires events != [] && SequentialRun(events, equity, DEFAULT_CAPS, AtMarks(marks))
    requires PricedFrom(events, marks, 0.2)
    requires equity >= 0.0
    ensures Decide(Last(events).intent, Last(events).account) != Rejected(MaxLeverage)
  {
    hide SequentialRun, PricedFrom, Decide, WithinCaps, Gross;
    RunIsAt(events, equity, DEFAULT_CAPS, AtMarks(marks));
    CapsScaleWithPrice(events, equity, DEFAULT_CAPS, marks, 0.2, 1.5 * equity);
  }

  /** And not further: a fifth is the exact share. */
  lemma DefaultShareIsExact(equity: real, ratio: real)
    requires equity > 0.0 && 0.0 < ratio <= 1.0
    ensures (exists events: seq<Event>, marks: string -> real ::
               EndsInLeverageRejection(events, equity, DEFAULT_CAPS, marks) && PricedFrom(events, marks, ratio))
       <==> ratio < 0.2
  {
    hide EndsInLeverageRejection, PricedFrom;
    LeverageReachableIff(equity, DEFAULT_CAPS, ratio);
  }

  // ----- Orders priced below the mark --------------------------------------------------------------

  function FirstIntent(x: string, size: real, price: real): Intent {
    Intent(x, Buy, size, price, false, 0.0)
  }

  /** From a flat account, an order worth the whole cap is approved unless it alone exceeds the leverage cap. */
  lemma FirstDecision(x: string, equity: real, caps: Caps, size: real, price: real)
    requires equity > 0.0 && Tradable(caps) && caps.maxConcurrentPositions > 0 && size > 0.0 && price > 0.0
    requires size * price == caps.maxPositionNotionalPct * equity
    ensures Decide(FirstIntent(x, size, price), CalmAccount([], equity, caps))
         == if caps.maxPositionNotionalPct > caps.maxAccountLeverage then Rejected(MaxLeverage) else Approved
    ensures NewSize([], FirstIntent(x, size, price)) == size
  {
    hide CheckAccount, Leverage;
    var intent, a := FirstIntent(x, size, price), CalmAccount([], equity, caps);
    CalmPasses([], equity, caps);
    assert Notional(size, price) == NotionalCap(a);
    assert PostFillSymbols([], x, size) == {x};
    assert PostFillNotional([], x, NotionalCap(a)) == NotionalCap(a);
    ProductNonNegative(caps.maxRiskPerTradePct, equity);
    Unscale(NotionalCap(a), caps.maxPositionNotionalPct, equity);
    hide Notional, PostFillSymbols, PostFillNotional, NotionalCap;
  }

  /**
   * Every approved order at this price keeps its position within the cap at that mark exactly when the
   * price is not below the mark.
   */
  lemma OrderKeepsCapIff(equity: real, caps: Caps, price: real, mark: real)
    requires equity > 0.0 && Tradable(caps) && caps.maxConcurrentPositions > 0 && price > 0.0
    requires caps.maxPositionNotionalPct <= caps.maxAccountLeverage
    ensures (forall intent: Intent, a: Account ::
               intent.price == price && a.equity == equity && a.caps == caps && Decide(intent, a).Approved? ==>
                 Notional(NewSize(a.positions, intent), mark) <= NotionalCap(a))
       <==> price >= mark
  {
    var cap := caps.maxPositionNotionalPct * equity;
    ProductPositive(caps.maxPositionNotionalPct, equity);
    if price >= mark {
      forall intent: Intent, a: Account
        | intent.price == price && a.equity == equity && a.caps == caps && Decide(intent, a).Approved?
        ensures Notional(NewSize(a.positions, intent), mark) <= NotionalCap(a)
      {
        NotionalMonotone(NewSize(a.positions, intent), mark, price);
      }
    } else {
      var size := FullSize(cap, price);
      FirstDecision("X", equity, caps, size, price);
      hide Decide, NewSize;
      OverCap(size, price, mark, cap);
      assert Notional(NewSize([], FirstIntent("X", size, price)), mark) > NotionalCap(CalmAccount([], equity, caps));
    }
  }

  lemma FullSize(cap: real, price: real) returns (size: real)
    requires cap > 0.0 && price > 0.0
    ensures size > 0.0 && size * price == cap
  {
    size := cap / price;
    assert size * price == cap;
    if size <= 0.0 {
      ProductNonNegative(-size, price);
      assert false;
    }
  }

  lemma OverCap(size: real, price: real, mark: real, cap: real)
    requires size > 0.0 && size * price == cap && price < mark
    ensures Notional(size, mark) > cap
  {
    ProductPositive(size, mark - price);
    assert size * (mark - price) == size * mark - cap;
  }

  /** The run that fills one order and then checks another. */
  function TwoEvents(x: string, size: real, price: real, mark: real, equity: real, caps: Caps,
                     second: Intent): seq<Event> {
    [Event(FirstIntent(x, size, price), CalmAccount([], equity, caps)),
     Event(second, CalmAccount([Position(x, size, mark, None)], equity, caps))]
  }

  lemma TwoEventsAreSequential(x: string, size: real, price: real, equity: real, caps: Caps, second: Intent,
                               marks: string -> real)
    requires Decide(FirstIntent(x, size, price), CalmAccount([], equity, caps)).Approved?
    requires NewSize([], FirstIntent(x, size, price)) == size
    ensures SequentialRun(TwoEvents(x, size, price, marks(x), equity, caps, second), equity, caps, AtMarks(marks))
  {
    hide Decide, NewSize;
    var events := TwoEvents(x, size, price, marks(x), equity, caps, second);
    var first := [events[0]];
    assert Front(events) == first && Front(first) == [];
    assert SequentialRun(first, equity, caps, AtMarks(marks));
    assert FillAt([], FirstIntent(x, size, price), marks(x)) == [Position(x, size, marks(x), None)];
  }

  /**
   * At fixed marks, all runs priced from that share of the mark stay within the caps exactly when the
   * share is at least 1.
   */
  lemma FixedMarkCapsIff(equity: real, caps: Caps, ratio: real)
    requires equity > 0.0 && Tradable(caps) && caps.maxConcurrentPositions > 0
    requires caps.maxPositionNotionalPct <= caps.maxAccountLeverage
    ensures (forall events: seq<Event>, marks: string -> real ::
               events != [] && SequentialRun(events, equity, caps, AtMarks(marks)) && PricedFrom(events, marks, ratio)
               ==> WithinCaps(Last(events).account.positions, CapOf(caps, equity), caps.maxConcurrentPositions))
       <==> ratio >= 1.0
  {
    hide SequentialRun, Decide, Gross, NewSize, LeverageFits;
    var cap := caps.maxPositionNotionalPct * equity;
    ProductPositive(caps.maxPositionNotionalPct, equity);
    if ratio >= 1.0 {
      forall events: seq<Event>, marks: string -> real
        | events != [] && SequentialRun(events, equity, caps, AtMarks(marks)) && PricedFrom(events, marks, ratio)
        ensures WithinCaps(Last(events).account.positions, cap, caps.maxConcurrentPositions)
      {
        PricedFromMark(events, marks, ratio);
        CapsAreInductive(events, equity, caps, marks);
        RunIsAt(events, equity, caps, AtMarks(marks));
        hide WithinCaps;
      }
    } else {
      var price := Max(ratio, 0.5);
      var marks := (s: string) => 1.0;
      var size := FullSize(cap, price);
      FirstDecision("X", equity, caps, size, price);
      OverCap(size, price, 1.0, cap);
      var first := FirstIntent("X", size, price);
      TwoEventsAreSequential("X", size, price, equity, caps, first, marks);
      var events := TwoEvents("X", size, price, 1.0, equity, caps, first);
      assert PricedFrom(events, marks, ratio);
      assert Last(events).account.positions[0] == Position("X", size, 1.0, None);
    }
  }

  lemma PricedFromMark(events: seq<Event>, marks: string -> real, ratio: real)
    requires ratio >= 1.0 && PricedFrom(events, marks, ratio)
    ensures PricedFrom(events, marks, 1.0)
  {
    forall k | 0 <= k < |events| - 1
      ensures PricedAt(events[k], ShareOf(1.0, marks(events[k].intent.symbol)))
    {
      var e := events[k];
      var mark := marks(e.intent.symbol);
      assert PricedAt(e, ShareOf(ratio, mark)) && ShareOf(1.0, mark) == mark;
      ApprovedAtItsPrice(e.intent, e.account);
      hide Decide, NewSize, PricedFrom, ShareOf;
      if e.intent.price > 0.0 && e.intent.price >= ShareOf(ratio, mark) {
        AboveScaledMark(e.intent.price, ratio, mark);
      }
    }
  }

  lemma AboveScaledMark(price: real, ratio: real, mark: real)
    requires ratio >= 1.0 && price > 0.0 && price >= ShareOf(ratio, mark)
    ensures price >= mark
  {
    if mark >= 0.0 {
      ProductNonNegative(ratio - 1.0, mark);
      assert (ratio - 1.0) * mark == ratio * mark - mark;
    }
  }

  /** Without a positive share there is no bound at all: the leverage rejection is reachable whatever the caps. */
  lemma LeverageReachableBelowMarks(equity: real, caps: Caps, ratio: real, x: string, y: string)
    requires equity > 0.0 && Tradable(caps) && caps.maxConcurrentPositions > 0 && ratio <= 0.0 && x != y
    ensures exists events: seq<Event>, marks: string -> real ::
              EndsInLeverageRejection(events, equity, caps, marks) && PricedFrom(events, marks, ratio)
  {
    var cap := caps.maxPositionNotionalPct * equity;
    ProductPositive(caps.maxPositionNotionalPct, equity);
    FirstDecision(x, equity, caps, cap, 1.0);
    var mark := HighMark(caps.maxPositionNotionalPct, caps.maxAccountLeverage);
    var marks := (s: string) => mark;
    var closing := Intent(y, Sell, 1.0, 1.0, true, 0.0);
    if caps.maxPositionNotionalPct > caps.maxAccountLeverage {
      var first := [Event(FirstIntent(x, cap, 1.0), CalmAccount([], equity, caps))];
      assert Front(first) == [];
      assert SequentialRun([], equity, caps, AtMarks(marks));
      assert SequentialRun(first, equity, caps, AtMarks(marks));
      assert EndsInLeverageRejection(first, equity, caps, marks) && PricedFrom(first, marks, ratio);
    } else {
      TwoEventsAreSequential(x, cap, 1.0, equity, caps, closing, marks);
      HighMarkRejects(x, equity, caps, cap, mark, closing);
      NegativeShare(ratio, mark);
      var events := TwoEvents(x, cap, 1.0, mark, equity, caps, closing);
      assert PricedFrom(events, marks, ratio);
      assert EndsInLeverageRejection(events, equity, caps, marks) by {
        hide SequentialRun, Decide;
      }
    }
  }

  lemma NegativeShare(ratio: real, mark: real)
    requires ratio <= 0.0 && mark >= 0.0
    ensures ShareOf(ratio, mark) <= 0.0
  {
    ProductNonNegative(-ratio, mark);
    assert -ratio * mark == -(ratio * mark);
  }

  lemma HighMark(pct: real, bound: real) returns (mark: real)
    requires pct > 0.0
    ensures pct * mark > bound && mark >= 0.0
  {
    var top := Max(bound, 0.0) + 1.0;
    mark := top / pct;
    assert pct * mark == top;
    RatioNonNegative(top, pct);
  }

  /** What the check sees of an account that holds only `x` when an order in `y` arrives. */
  lemma BesideOnePosition(x: string, size: real, mark: real, intent: Intent, newSize: real)
    requires intent.symbol != x && size != 0.0
    requires newSize == if intent.reduceOnly then 0.0 else SignedDelta(intent)
    ensures var positions := [Position(x, size, mark, None)];
      && NewSize(positions, intent) == newSize
      && PostFillSymbols(positions, intent.symbol, newSize) == {x} + (if newSize != 0.0 then {intent.symbol} else {})
      && PostFillNotional(positions, intent.symbol, Notional(newSize, intent.price))
         == Notional(size, mark) + Notional(newSize, intent.price)
  {
    hide Notional;
    var positions := [Position(x, size, mark, None)];
    assert Front(positions) == [];
    assert PositionFor([], intent.symbol).None? && PositionFor(positions, intent.symbol).None?;
    assert ReplacedNotional([], intent.symbol, Notional(newSize, intent.price)) == 0.0;
    assert positions[0].symbol == x;
  }

  lemma HighMarkRejects(x: string, equity: real, caps: Caps, cap: real, mark: real, closing: Intent)
    requires equity > 0.0 && Tradable(caps) && caps.maxConcurrentPositions > 0
    requires cap == caps.maxPositionNotionalPct * equity && cap > 0.0
    requires caps.maxPositionNotionalPct * mark > caps.maxAccountLeverage
    requires closing.symbol != x && closing.size > 0.0 && closing.price > 0.0 && closing.reduceOnly
    ensures Decide(closing, CalmAccount([Position(x, cap, mark, None)], equity, caps)) == Rejected(MaxLeverage)
  {
    var positions := [Position(x, cap, mark, None)];
    CalmPasses(positions, equity, caps);
    NotionalOfZero(closing.price);
    assert Notional(cap, mark) == (caps.maxPositionNotionalPct * mark) * equity;
    Unscale(Notional(cap, mark), caps.maxPositionNotionalPct * mark, equity);
    BesideOnePosition(x, cap, mark, closing, 0.0);
    hide CheckAccount, Leverage, Notional, PostFillSymbols, PostFillNotional, NewSize;
  }

  /**
   * For instance: 300 of one symbol bought at 1 with its mark at 100 break the cap, and then 1 of
   * another is refused for leverage.
   */
  lemma CapsBreakBelowMark(x: string, y: string)
    requires x != y
    ensures exists events: seq<Event>, marks: string -> real ::
      && EndsInLeverageRejection(events, 1000.0, DEFAULT_CAPS, marks)
      && Last(events).intent == Intent(y, Buy, 1.0, 1.0, false, 0.0)
      && !WithinCaps(Last(events).account.positions, 300.0, 2)
  {
    var marks := (s: string) => 100.0;
    var buy := Intent(y, Buy, 1.0, 1.0, false, 0.0);
    FirstDecision(x, 1000.0, DEFAULT_CAPS, 300.0, 1.0);
    TwoEventsAreSequential(x, 300.0, 1.0, 1000.0, DEFAULT_CAPS, buy, marks);
    var events := TwoEvents(x, 300.0, 1.0, 100.0, 1000.0, DEFAULT_CAPS, buy);
    BuyRefused(x, buy);
    assert Last(events).account.positions[0] == Position(x, 300.0, 100.0, None);
    hide SequentialRun, Decide;
    assert EndsInLeverageRejection(events, 1000.0, DEFAULT_CAPS, marks);
  }

  /**
   * An order in another symbol that passes every earlier check is refused when the two notionals exceed
   * the leverage cap.
   */
  lemma RefusedBeside(x: string, size: real, mark: real, buy: Intent, a: Account)
    requires a.positions == [Position(x, size, mark, None)] && size != 0.0 && buy.symbol != x
    requires CheckAccount(a).Approved? && a.equity > 0.0 && a.caps.maxConcurrentPositions >= 2
    requires buy.side.Buy? && buy.size > 0.0 && buy.price > 0.0 && !buy.reduceOnly
    requires buy.riskDollars <= a.caps.maxRiskPerTradePct * a.equity && Notional(buy.size, buy.price) <= NotionalCap(a)
    requires Leverage(Notional(size, mark) + Notional(buy.size, buy.price), a.equity) > a.caps.maxAccountLeverage
    ensures Decide(buy, a) == Rejected(MaxLeverage)
  {
    BesideOnePosition(x, size, mark, buy, buy.size);
    hide CheckAccount, Leverage, Notional, NotionalCap, PostFillSymbols, PostFillNotional, NewSize;
    assert |{x} + {buy.symbol}| == 2;
  }

  lemma BuyRefused(x: string, buy: Intent)
    requires buy.symbol != x && buy == Intent(buy.symbol, Buy, 1.0, 1.0, false, 0.0)
    ensures Decide(buy, CalmAccount([Position(x, 300.0, 100.0, None)], 1000.0, DEFAULT_CAPS)) == Rejected(MaxLeverage)
  {
    hide Decide, CheckAccount, Notional, NotionalCap, Leverage;
    var positions := [Position(x, 300.0, 100.0, None)];
    CalmPasses(positions, 1000.0, DEFAULT_CAPS);
    RefusalNumbers();
    DefaultLimits(CalmAccount(positions, 1000.0, DEFAULT_CAPS));
    RefusedBeside(x, 300.0, 100.0, buy, CalmAccount(positions, 1000.0, DEFAULT_CAPS));
  }

  lemma RefusalNumbers()
    ensures Notional(300.0, 100.0) == 30000.0 && Notional(1.0, 1.0) == 1.0 && Leverage(30001.0, 1000.0) == 30.001
  {
    hide Leverage;
    assert 30.001 * 1000.0 == 30001.0;
    Unscale(30001.0, 30.001, 1000.0);
  }

  lemma DefaultLimits(a: Account)
    requires a.equity == 1000.0 && a.caps == DEFAULT_CAPS
    ensures NotionalCap(a) == 300.0 && a.caps.maxRiskPerTradePct * a.equity == 5.0
  {
  }
}
