// src/execution/order_router.py: from a target notional to an add-liquidity-only order.
module OrderRouter {
  import opened Prelude
  import opened RiskManager

  datatype Target = Target(symbol: string, notional: real)

  // ----- Quantisation to eight decimals ------------------------------------------------

  const UNITS: real := 100000000.0

  function RoundHalfEven(x: real): int {
    var f := x.Floor;
    var rest := x - f as real;
    if rest < 0.5 then f else if rest > 0.5 then f + 1 else if f % 2 == 0 then f else f + 1
  }

  /** `quantize(Decimal("0.00000001"))` under the default rounding. */
  function Quantize(x: real): real {
    RoundHalfEven(x * UNITS) as real / UNITS
  }

  /** The result is the multiple of 1e-8 nearest to the value, the even one of two that are equally near. */
  lemma QuantizeIsNearest(x: real) returns (n: int)
    ensures Quantize(x) == n as real / 100000000.0
    ensures -0.5 <= n as real - x * 100000000.0 <= 0.5
    ensures n as real - x * 100000000.0 == 0.5 || n as real - x * 100000000.0 == -0.5 ==> n % 2 == 0
  {
    n := RoundHalfEven(x * UNITS);
  }

  lemma QuantizeError(x: real)
    ensures -0.000000005 <= Quantize(x) - x <= 0.000000005
    ensures Quantize(x) == 0.0 <==> -0.000000005 <= x <= 0.000000005
    ensures Quantize(x) > 0.0 ==> x > 0.0
    ensures Quantize(x) < 0.0 ==> x < 0.0
  {
    var n := QuantizeIsNearest(x);
    hide Quantize;
  }

  // ----- _compute_delta --------------------------------------------------------------------

  datatype Delta = NoQuote | NoOrder | Order(side: Side, size: real, price: real, reduceOnly: bool)

  /** The size the target asks for at the mid price; nothing when the mid is not positive. */
  function TargetSize(notional: real, bid: real, ask: real): real {
    var mid := (bid + ask) / 2.0;
    if mid > 0.0 then notional / mid else 0.0
  }

  function DeltaFor(target: real, current: real, bid: real, ask: real): Delta {
    var delta := Quantize(target - current);
    if delta == 0.0 then NoOrder
    else
      var isBuy := delta > 0.0;
      var shrinks := (current > 0.0 && !isBuy && Abs(target) < Abs(current))
                  || (current < 0.0 && isBuy && Abs(target) < Abs(current));
      Order(if isBuy then Buy else Sell, Abs(delta), if isBuy then bid else ask,
            current != 0.0 && shrinks && target * current >= 0.0)
  }

  function ComputeDelta(t: Target, current: real, bid: Option<real>, ask: Option<real>): Delta {
    if bid.None? || ask.None? then NoQuote
    else DeltaFor(TargetSize(t.notional, bid.value, ask.value), current, bid.value, ask.value)
  }

  function IntentOf(symbol: string, d: Delta): Intent
    requires d.Order?
  {
    Intent(symbol, d.side, d.size, d.price, d.reduceOnly, d.size * d.price * 0.003)
  }

  /** The target lies between flat and the current position, short of the position itself. */
  predicate Shrinks(target: real, current: real) {
    (0.0 <= target < current) || (current < target <= 0.0)
  }

  lemma SameSign(a: real, b: real)
    ensures a * b >= 0.0 <==> (a >= 0.0 && b >= 0.0) || (a <= 0.0 && b <= 0.0)
  {
    if a > 0.0 && b < 0.0 {
      ProductPositive(a, -b);
      assert a * -b == -(a * b);
    } else if a < 0.0 && b > 0.0 {
      ProductPositive(-a, b);
      assert -a * b == -(a * b);
    } else if a <= 0.0 && b <= 0.0 {
      ProductNonNegative(-a, -b);
      assert -a * -b == a * b;
    } else {
      ProductNonNegative(a, b);
    }
  }

  /** An order is flagged reduce-only exactly when the target shrinks the position without flipping it. */
  lemma ReduceOnlyIff(target: real, current: real, bid: real, ask: real)
    ensures var d := DeltaFor(target, current, bid, ask);
      d.Order? ==> (d.reduceOnly <==> Shrinks(target, current))
  {
    QuantizeError(target - current);
    SameSign(target, current);
  }

  /** No order is sent exactly when the position is already within half a unit of the target. */
  lemma NoOrderIff(target: real, current: real, bid: real, ask: real)
    ensures DeltaFor(target, current, bid, ask).NoOrder? <==> Abs(target - current) <= 0.000000005
  {
    QuantizeError(target - current);
  }

  /** The size the risk manager evaluates for the router's intent is the target, to within half a unit. */
  lemma RouterAgreesWithRisk(symbol: string, target: real, current: real, bid: real, ask: real)
    ensures var d := DeltaFor(target, current, bid, ask);
      d.Order? ==>
        var after := PostFillSize(IntentOf(symbol, d), current);
        && Abs(after - target) <= 0.000000005
        && (d.reduceOnly ==> Shrinks(after, current))
  {
    QuantizeError(target - current);
    ReduceOnlyIff(target, current, bid, ask);
  }

  /** So what `submit_target` sends asks for target.notional / mid, or for nothing when the mid is not positive. */
  lemma SubmittedSizeIsTheTarget(t: Target, current: real, bid: real, ask: real)
    ensures var d := ComputeDelta(t, current, Some(bid), Some(ask));
      d.Order? ==>
        var after := PostFillSize(IntentOf(t.symbol, d), current);
        && (bid + ask > 0.0 ==> Abs(after - t.notional / ((bid + ask) / 2.0)) <= 0.000000005)
        && (bid + ask <= 0.0 ==> Abs(after) <= 0.000000005)
        && d.size > 0.0 && d.price == (if d.side.Buy? then bid else ask)
  {
    hide PostFillSize, IntentOf, DeltaFor;
    var target := TargetSize(t.notional, bid, ask);
    RouterAgreesWithRisk(t.symbol, target, current, bid, ask);
    OrderForm(target, current, bid, ask);
  }

  lemma OrderForm(target: real, current: real, bid: real, ask: real)
    ensures var d := DeltaFor(target, current, bid, ask);
      d.Order? ==> d.size > 0.0 && d.price == (if d.side.Buy? then bid else ask)
  {
    hide Quantize;
  }

  /** Once such an order is completely filled, the same target and quote ask for nothing more. */
  lemma FilledOrderSettles(symbol: string, target: real, current: real, bid: real, ask: real)
    requires DeltaFor(target, current, bid, ask).Order?
    ensures var d := DeltaFor(target, current, bid, ask);
      DeltaFor(target, PostFillSize(IntentOf(symbol, d), current), bid, ask) == NoOrder
  {
    RouterAgreesWithRisk(symbol, target, current, bid, ask);
    var d := DeltaFor(target, current, bid, ask);
    NoOrderIff(target, PostFillSize(IntentOf(symbol, d), current), bid, ask);
  }

  // ----- submit_target as a function of the router's state and the call's environment ----------

  datatype SubmittedOrder = SubmittedOrder(oid: int, symbol: string, isBuy: bool, size: real, price: real, at: real)

  datatype Router = Router(submitted: map<int, SubmittedOrder>, recent: seq<real>)

  /** `None` oid never counts as accepted. */
  datatype Reply = Accepted(oid: int) | WouldTake | OtherError

  /** Everything one call reads from outside: tracker, quotes, halt flag, clocks, exchange. */
  datatype Call = Call(
    target: Target, equity: real, positions: seq<Position>, openOrders: seq<OpenOrder>,
    bid: Option<real>, ask: Option<real>, tick: real,
    haltedAtStart: bool, haltedAtCheck: bool,
    now: real, recordedAt: real, monotonic: real, first: Reply, retry: Reply)

  datatype Outcome =
    | Blocked | Skipped | NothingToDo | RejectedByRisk(code: Code)
    | Submitted(oid: int) | SubmittedAfterRetry(oid: int) | Failed | Abandoned

  function Trim(times: seq<real>, cutoff: real): seq<real> {
    if times == [] then []
    else Trim(Front(times), cutoff) + if Last(times) >= cutoff then [Last(times)] else []
  }

  /** `_build_account_state`, given the trimmed timestamps. */
  function AccountState(c: Call, recent: seq<real>): Account {
    Account(if c.equity > 0.0 then c.equity else 1.0, c.positions,
            seq(|c.openOrders|, i requires 0 <= i < |c.openOrders| => c.openOrders[i].(side := Buy)),
            recent, 0.0, 0.0, 0, None, c.haltedAtCheck, c.now, DEFAULT_CAPS)
  }

  /** What the call decides before it talks to the exchange. */
  datatype Plan = Stop(outcome: Outcome, checked: bool) | Send(intent: Intent)

  function PlanFor(recent: seq<real>, c: Call): Plan {
    if c.haltedAtStart then Stop(Blocked, false)
    else
      var d := ComputeDelta(c.target, CurrentSize(c.positions, c.target.symbol), c.bid, c.ask);
      match d
      case NoQuote => Stop(Skipped, false)
      case NoOrder => Stop(NothingToDo, false)
      case Order(_, _, _, _) =>
        var intent := IntentOf(c.target.symbol, d);
        var decision := Decide(intent, AccountState(c, Trim(recent, c.now - 60.0)));
        if decision.Rejected? then Stop(RejectedByRisk(decision.code), true) else Send(intent)
  }

  /** The order that ends up resting on the exchange, if any. */
  function Resting(intent: Intent, c: Call): Option<SubmittedOrder> {
    if c.first.Accepted? then
      Some(SubmittedOrder(c.first.oid, intent.symbol, intent.side.Buy?, intent.size, intent.price, c.monotonic))
    else if c.first.WouldTake? && c.retry.Accepted? then
      var price := if intent.side.Buy? then intent.price - c.tick else intent.price + c.tick;
      Some(SubmittedOrder(c.retry.oid, intent.symbol, intent.side.Buy?, intent.size, price, c.monotonic))
    else None
  }

  function SendOutcome(c: Call): Outcome {
    if c.first.Accepted? then Submitted(c.first.oid)
    else if !c.first.WouldTake? then Failed
    else if c.retry.Accepted? then SubmittedAfterRetry(c.retry.oid)
    else Abandoned
  }

  function OutcomeOf(r: Router, c: Call): Outcome {
    var plan := PlanFor(r.recent, c);
    if plan.Stop? then plan.outcome else SendOutcome(c)
  }

  function Records(r: Router, c: Call): bool {
    var plan := PlanFor(r.recent, c);
    plan.Send? && Resting(plan.intent, c).Some?
  }

  function AfterCall(r: Router, c: Call): Router {
    var plan := PlanFor(r.recent, c);
    if plan.Stop? && !plan.checked then r
    else
      var trimmed := Trim(r.recent, c.now - 60.0);
      if Records(r, c) then
        var o := Resting(plan.intent, c).value;
        Router(r.submitted[o.oid := o], trimmed + [c.recordedAt])
      else r.(recent := trimmed)
  }

  // ----- What the call checks, sends and records, in terms of its own data -----------------------

  /** The account as this call's tracker, flag, clock and the given history of submissions make it. */
  function CheckedAccount(c: Call, history: seq<real>): Account {
    Account(if c.equity > 0.0 then c.equity else 1.0, c.positions, c.openOrders, history, 0.0, 0.0, 0, None,
            c.haltedAtCheck, c.now, Caps(0.005, 0.30, 3.0, 0.08, 2, 6, 20, 0.02, 0.05, 3))
  }

  /** Sides of open orders, and submissions older than a minute, make no difference to the check. */
  lemma CheckSeesTheCall(intent: Intent, c: Call, recent: seq<real>)
    ensures Decide(intent, AccountState(c, Trim(recent, c.now - 60.0))) == Decide(intent, CheckedAccount(c, recent))
  {
    CountTrimmed(recent, c.now - 60.0);
    hide CountSince, Trim, NewSize, PostFillSymbols, PostFillNotional, TooCloseToLiquidation;
  }

  /** The intent that a computed order turns into; its risk is taken to be 30 basis points of its notional. */
  lemma IntentIs(r: Router, c: Call)
    ensures var d := ComputeDelta(c.target, CurrentSize(c.positions, c.target.symbol), c.bid, c.ask);
      var plan := PlanFor(r.recent, c);
      plan.Send? ==>
        d.Order? && plan.intent == Intent(c.target.symbol, d.side, d.size, d.price, d.reduceOnly,
                                          d.size * d.price * 0.003)
  {
    hide ComputeDelta, CurrentSize, Decide;
  }

  /**
   * This call's positions, open orders and equity, and the submissions of the last minute, leave room for
   * the intent. An equity that is not positive counts as 1.
   */
  predicate WithinLimits(intent: Intent, c: Call, history: seq<real>) {
    var equity, after := if c.equity > 0.0 then c.equity else 1.0, Fill(c.positions, intent);
    && intent.size > 0.0 && intent.price > 0.0
    && Abs(CurrentSize(after, intent.symbol)) * intent.price <= 0.30 * equity
    && |NonZeroSymbols(after)| <= 2
    && Gross(after) <= 3.0 * equity
    && CountSince(history, c.now - 60.0) < 20 && |c.openOrders| < 6
    && (intent.reduceOnly ||
          (intent.riskDollars <= 0.005 * equity
           && forall i :: 0 <= i < |c.positions| ==> ClearOfLiquidation(c.positions[i], 0.08)))
  }

  lemma LimitsIff(intent: Intent, c: Call, recent: seq<real>)
    ensures Decide(intent, AccountState(c, Trim(recent, c.now - 60.0))).Approved?
       <==> !c.haltedAtCheck && WithinLimits(intent, c, recent)
  {
    CheckSeesTheCall(intent, c, recent);
    ApprovedIff(intent, CheckedAccount(c, recent));
    hide CurrentSize, Decide, Fill, NonZeroSymbols, Gross, CountSince, ClearOfLiquidation, AccountState, Trim, Abs;
  }

  /**
   * An order is sent exactly when both reads of the halt flag were clear, the position is off its target,
   * and the limits leave room for it.
   */
  lemma SendsIff(r: Router, c: Call)
    ensures var d := ComputeDelta(c.target, CurrentSize(c.positions, c.target.symbol), c.bid, c.ask);
      PlanFor(r.recent, c).Send? <==>
        && !c.haltedAtStart && !c.haltedAtCheck && d.Order?
        && WithinLimits(Intent(c.target.symbol, d.side, d.size, d.price, d.reduceOnly, d.size * d.price * 0.003),
                        c, r.recent)
  {
    var d := ComputeDelta(c.target, CurrentSize(c.positions, c.target.symbol), c.bid, c.ask);
    if d.Order? {
      LimitsIff(IntentOf(c.target.symbol, d), c, r.recent);
    }
    hide ComputeDelta, CurrentSize, Decide, WithinLimits, AccountState, Trim;
  }

  /** The code is that of the first rule that the intent breaks on this call's account. */
  predicate CodeExplains(code: Code, intent: Intent, a: Account) {
    Breaks(code, intent, a) && ReachesRule(code, intent, a)
  }

  /** What the caller learns when nothing is sent, the code being that of the first rule broken. */
  lemma StopsWith(r: Router, c: Call)
    ensures var current, outcome := CurrentSize(c.positions, c.target.symbol), OutcomeOf(r, c);
      var d := ComputeDelta(c.target, current, c.bid, c.ask);
      !PlanFor(r.recent, c).Send? ==>
        if c.haltedAtStart then outcome == Blocked
        else if c.bid.None? || c.ask.None? then outcome == Skipped
        else
          var mid := (c.bid.value + c.ask.value) / 2.0;
          var off := (if mid > 0.0 then c.target.notional / mid else 0.0) - current;
          if -0.000000005 <= off <= 0.000000005 then outcome == NothingToDo
          else
            && d.Order?
            && var intent := Intent(c.target.symbol, d.side, d.size, d.price, d.reduceOnly, d.size * d.price * 0.003);
               exists code :: outcome == RejectedByRisk(code) && CodeExplains(code, intent, CheckedAccount(c, r.recent))
  {
    hide DeltaFor, CurrentSize, Decide, AccountState, Trim, CheckedAccount;
    var current := CurrentSize(c.positions, c.target.symbol);
    var d := ComputeDelta(c.target, current, c.bid, c.ask);
    if c.bid.Some? && c.ask.Some? {
      NoOrderIff(TargetSize(c.target.notional, c.bid.value, c.ask.value), current, c.bid.value, c.ask.value);
      QuoteMeansDelta(TargetSize(c.target.notional, c.bid.value, c.ask.value), current, c.bid.value, c.ask.value);
    }
    if d.Order? {
      var intent := IntentOf(c.target.symbol, d);
      RejectionCode(intent, c, r.recent);
    }
  }

  lemma QuoteMeansDelta(target: real, current: real, bid: real, ask: real)
    ensures !DeltaFor(target, current, bid, ask).NoQuote?
  {
  }

  lemma RejectionCode(intent: Intent, c: Call, recent: seq<real>)
    ensures var d := Decide(intent, AccountState(c, Trim(recent, c.now - 60.0)));
      d.Rejected? ==> CodeExplains(d.code, intent, CheckedAccount(c, recent))
  {
    CheckSeesTheCall(intent, c, recent);
    DecisionIsFirstBroken(intent, CheckedAccount(c, recent));
    hide Decide, Breaks, ReachesRule, AccountState, CheckedAccount, Trim;
  }

  /**
   * An order that is sent is recorded at the touch when the first attempt is accepted, and one tick less
   * aggressive when that would have taken and the second attempt is accepted.
   */
  lemma RecordsIt(r: Router, c: Call)
    requires PlanFor(r.recent, c).Send?
    ensures var intent, outcome, after := PlanFor(r.recent, c).intent, OutcomeOf(r, c), AfterCall(r, c);
      var isBuy := intent.side == Buy;
      var trimmed := Trim(r.recent, c.now - 60.0);
      match c.first
      case Accepted(oid) =>
        && outcome == Submitted(oid) && after.recent == trimmed + [c.recordedAt]
        && after.submitted
           == r.submitted[oid := SubmittedOrder(oid, intent.symbol, isBuy, intent.size, intent.price, c.monotonic)]
      case OtherError => outcome == Failed && after == Router(r.submitted, trimmed)
      case WouldTake =>
        match c.retry
        case Accepted(oid) =>
          && outcome == SubmittedAfterRetry(oid) && after.recent == trimmed + [c.recordedAt]
          && var price := intent.price + (if isBuy then -c.tick else c.tick);
             after.submitted
             == r.submitted[oid := SubmittedOrder(oid, intent.symbol, isBuy, intent.size, price, c.monotonic)]
        case _ => outcome == Abandoned && after == Router(r.submitted, trimmed)
  {
    hide PlanFor, Trim;
  }

  lemma Inhabited(oids: set<int>)
    requires oids != {}
    ensures exists oid :: oid in oids
  {
    assert (forall oid :: oid !in oids) ==> oids == {};
  }

  // ----- The class ----------------------------------------------------------------------------------

  class OrderRouter {
    const staleSeconds: real
    var submitted: map<int, SubmittedOrder>
    var recent: seq<real>

    ghost function State(): Router
      reads this
    {
      Router(submitted, recent)
    }

    constructor (staleSeconds: real)
      ensures State() == Router(map[], []) && this.staleSeconds == staleSeconds
    {
      this.staleSeconds := staleSeconds;
      submitted := map[];
      recent := [];
    }

    /** The list comprehension that drops timestamps older than the cutoff. */
    method TrimRecent(cutoff: real)
      modifies this`recent
      ensures recent == Trim(old(recent), cutoff)
    {
      var kept: seq<real> := [];
      for i := 0 to |recent|
        invariant kept == Trim(recent[..i], cutoff)
        invariant recent == old(recent)
      {
        assert Front(recent[..i + 1]) == recent[..i];
        if recent[i] >= cutoff {
          kept := kept + [recent[i]];
        }
      }
      assert recent[..|recent|] == recent;
      recent := kept;
    }

    method RecordSubmission(intent: Intent, price: real, oid: int, c: Call)
      modifies this
      ensures submitted == old(submitted)[
        oid := SubmittedOrder(oid, intent.symbol, intent.side.Buy?, intent.size, price, c.monotonic)]
      ensures recent == old(recent) + [c.recordedAt]
    {
      var order := SubmittedOrder(oid, intent.symbol, intent.side == Buy, intent.size, price, c.monotonic);
      submitted := submitted[oid := order];
      recent := recent + [c.recordedAt];
    }

    method SendAloWithRetry(intent: Intent, c: Call) returns (outcome: Outcome)
      modifies this
      ensures outcome == SendOutcome(c)
      ensures State() ==
        if Resting(intent, c).Some? then
          Router(old(submitted)[Resting(intent, c).value.oid := Resting(intent, c).value], old(recent) + [c.recordedAt])
        else old(State())
      ensures c.first.WouldTake? && c.retry.Accepted? ==>
        var price := if intent.side == Buy then intent.price - c.tick else intent.price + c.tick;
        submitted == old(submitted)[c.retry.oid :=
          SubmittedOrder(c.retry.oid, intent.symbol, intent.side == Buy, intent.size, price, c.monotonic)]
    {
      match c.first {
        case Accepted(oid) =>
          RecordSubmission(intent, intent.price, oid, c);
          return Submitted(oid);
        case OtherError =>
          return Failed;
        case WouldTake =>
      }
      var improved := if intent.side == Buy then intent.price - c.tick else intent.price + c.tick;
      match c.retry {
        case Accepted(oid) =>
          RecordSubmission(intent, improved, oid, c);
          return SubmittedAfterRetry(oid);
        case _ =>
          return Abandoned;
      }
    }

    method SubmitTarget(c: Call) returns (outcome: Outcome)
      modifies this
      ensures outcome == OutcomeOf(old(State()), c)
      ensures State() == AfterCall(old(State()), c)
    {
      if c.haltedAtStart {
        return Blocked;
      }
      var current := FindPosition(c.positions, c.target.symbol);
      var currentSize := if current.Some? then current.value.size else 0.0;
      var delta := ComputeDelta(c.target, currentSize, c.bid, c.ask);
      match delta {
        case NoQuote => return Skipped;
        case NoOrder => return NothingToDo;
        case Order(_, _, _, _) =>
      }
      var intent := IntentOf(c.target.symbol, delta);
      TrimRecent(c.now - 60.0);
      var decision := CheckOrder(intent, AccountState(c, recent));
      if decision.Rejected? {
        return RejectedByRisk(decision.code);
      }
      outcome := SendAloWithRetry(intent, c);
    }

    /** Cancels what has rested too long; an order whose cancel raises stays on the books. */
    method CancelStaleOrders(now: real, cancelSucceeds: set<int>)
      modifies this`submitted
      ensures submitted == map oid | oid in old(submitted)
        && !(now - old(submitted)[oid].at > staleSeconds && oid in cancelSucceeds) :: old(submitted)[oid]
    {
      var todo := submitted.Keys;
      while todo != {}
        invariant todo <= submitted.Keys
        invariant submitted == map oid | oid in old(submitted)
          && !(oid !in todo && now - old(submitted)[oid].at > staleSeconds && oid in cancelSucceeds)
          :: old(submitted)[oid]
        decreases todo
      {
        Inhabited(todo);
        var oid :| oid in todo;
        todo := todo - {oid};
        if now - submitted[oid].at <= staleSeconds {
          continue;
        }
        if oid !in cancelSucceeds {
          continue;
        }
        submitted := submitted - {oid};
      }
    }
  }

  // ----- The rate limit over runs of sequential calls ---------------------------------------------------

  function After(calls: seq<Call>): Router {
    if calls == [] then Router(map[], []) else AfterCall(After(Front(calls)), Last(calls))
  }

  /** Every submission ever recorded, oldest first. */
  function History(calls: seq<Call>): seq<real> {
    if calls == [] then []
    else History(Front(calls)) + if Records(After(Front(calls)), Last(calls)) then [Last(calls).recordedAt] else []
  }

  /** The wall clock never runs backwards, within a call or between calls. */
  predicate ClockRuns(calls: seq<Call>) {
    calls == [] ||
    (ClockRuns(Front(calls)) && Last(calls).now <= Last(calls).recordedAt
     && (|calls| > 1 ==> Last(Front(calls)).now <= Last(calls).now))
  }

  /** How many entries lie in the closed interval. */
  function CountIn(times: seq<real>, low: real, high: real): nat {
    if times == [] then 0
    else CountIn(Front(times), low, high) + if low <= Last(times) <= high then 1 else 0
  }

  lemma {:induction false} TrimTrim(times: seq<real>, low: real, high: real)
    requires low <= high
    ensures Trim(Trim(times, low), high) == Trim(times, high)
  {
    if times != [] {
      TrimTrim(Front(times), low, high);
      var t := Trim(Front(times), low);
      assert Last(times) >= low ==> Front(t + [Last(times)]) == t;
      assert t + [] == t;
    }
  }

  lemma {:induction false} CountTrimmed(times: seq<real>, cutoff: real)
    ensures CountSince(Trim(times, cutoff), cutoff) == CountSince(times, cutoff)
  {
    if times != [] {
      CountTrimmed(Front(times), cutoff);
      var t := Trim(Front(times), cutoff);
      assert Front(t + [Last(times)]) == t;
      assert t + [] == t;
    }
  }

  lemma {:induction false} CountInSince(times: seq<real>, low: real, high: real, cutoff: real)
    requires cutoff <= low
    ensures CountIn(times, low, high) <= CountSince(times, cutoff)
  {
    if times != [] {
      CountInSince(Front(times), low, high, cutoff);
    }
  }

  lemma TrimAppend(times: seq<real>, t: real, cutoff: real)
    ensures Trim(times + [t], cutoff) == Trim(times, cutoff) + if t >= cutoff then [t] else []
  {
    assert Front(times + [t]) == times;
  }

  lemma HistoryStep(calls: seq<Call>)
    requires calls != []
    ensures var before, c := Front(calls), Last(calls);
      History(calls) == if Records(After(before), c) then History(before) + [c.recordedAt] else History(before)
  {
    hide AfterCall, Records;
    assert History(Front(calls)) + [] == History(Front(calls));
  }

  /** The list a call leaves behind, seen through a cutoff that is not before its own. */
  lemma RecentStep(r: Router, c: Call, cutoff: real)
    requires c.now - 60.0 <= cutoff
    ensures Trim(AfterCall(r, c).recent, cutoff)
         == Trim(r.recent, cutoff) + if Records(r, c) && c.recordedAt >= cutoff then [c.recordedAt] else []
  {
    hide PlanFor;
    TrimTrim(r.recent, c.now - 60.0, cutoff);
    TrimAppend(Trim(r.recent, c.now - 60.0), c.recordedAt, cutoff);
  }

  /** The list the router keeps is the full history trimmed at any cutoff not before its last one. */
  lemma {:induction false} RecentIsHistory(calls: seq<Call>, cutoff: real)
    requires ClockRuns(calls) && (calls != [] ==> Last(calls).now - 60.0 <= cutoff)
    ensures Trim(After(calls).recent, cutoff) == Trim(History(calls), cutoff)
  {
    hide AfterCall, Records;
    if calls != [] {
      var before, c := Front(calls), Last(calls);
      RecentIsHistory(before, cutoff);
      RecentStep(After(before), c, cutoff);
      HistoryStep(calls);
      TrimAppend(History(before), c.recordedAt, cutoff);
    }
  }

  /** Trimming never changes what a call does: it decides as if it still had the whole history. */
  lemma TrimmingIsInvisible(calls: seq<Call>, c: Call)
    requires ClockRuns(calls + [c])
    ensures OutcomeOf(After(calls), c) == OutcomeOf(After(calls).(recent := History(calls)), c)
    ensures PlanFor(After(calls).recent, c) == PlanFor(History(calls), c)
  {
    hide ComputeDelta, IntentOf, Decide, CurrentSize, AccountState, SendOutcome, After, History;
    assert Front(calls + [c]) == calls;
    RecentIsHistory(calls, c.now - 60.0);
  }

  lemma SendsUnderRate(r: Router, c: Call)
    requires PlanFor(r.recent, c).Send?
    ensures CountSince(r.recent, c.now - 60.0) < 20
  {
    SendsIff(r, c);
    hide PlanFor, Fill, CurrentSize, NonZeroSymbols, Gross, CountSince, ClearOfLiquidation, ComputeDelta;
  }

  /** A call's own view of the last minute is that of the full history. */
  lemma RecentCount(calls: seq<Call>, c: Call)
    requires ClockRuns(calls + [c])
    ensures CountSince(After(calls).recent, c.now - 60.0) == CountSince(History(calls), c.now - 60.0)
  {
    hide After, History, CountSince, Trim;
    assert Front(calls + [c]) == calls;
    RecentIsHistory(calls, c.now - 60.0);
    CountTrimmed(History(calls), c.now - 60.0);
    CountTrimmed(After(calls).recent, c.now - 60.0);
  }

  /** A recorded submission saw fewer than the cap in the minute before its check. */
  lemma RecordedUnderCap(calls: seq<Call>, c: Call)
    requires ClockRuns(calls + [c]) && Records(After(calls), c)
    ensures CountSince(History(calls), c.now - 60.0) < 20
  {
    hide PlanFor, After, History, Resting, CountSince, ClockRuns;
    SendsUnderRate(After(calls), c);
    RecentCount(calls, c);
  }

  /** Every closed 60-second window holds at most 20 recorded submissions. */
  lemma {:induction false} RateLimitHolds(calls: seq<Call>, start: real)
    requires ClockRuns(calls)
    ensures CountIn(History(calls), start, start + 60.0) <= 20
  {
    hide PlanFor, AfterCall, Records;
    if calls != [] {
      var before, c := Front(calls), Last(calls);
      RateLimitHolds(before, start);
      HistoryStep(calls);
      if Records(After(before), c) && start <= c.recordedAt <= start + 60.0 {
        assert before + [c] == calls;
        RecordedUnderCap(before, c);
        CountInSince(History(before), start, start + 60.0, c.now - 60.0);
        assert Front(History(before) + [c.recordedAt]) == History(before);
      } else if Records(After(before), c) {
        assert Front(History(before) + [c.recordedAt]) == History(before);
      }
    }
  }
}
