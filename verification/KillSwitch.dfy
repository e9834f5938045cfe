// src/risk/kill_switch.py: the HALTED flag and the halt sequence, run alone and
// interleaved with other halts, resumes and order submissions.
module KillSwitch {
  import opened Prelude

  datatype OrderRef = OrderRef(symbol: string, oid: int)

  datatype Snapshot = Snapshot(symbol: string, size: real)

  /** One entry of `cancel_errors` or `close_errors`. */
  datatype Note = ListOrdersFailed | CancelFailed(ref: OrderRef) | ListPositionsFailed | CloseFailed(symbol: string)

  /** The "halt" journal record; `cancelled_orders` holds every listed order, failed cancels included. */
  datatype Record = Record(
    reason: string, cancelledOrders: seq<OrderRef>, closedPositions: seq<string>,
    cancelErrors: seq<Note>, closeErrors: seq<Note>)

  /**
   * What a task asks of the exchange or the journal: the requests of a halt sequence, the
   * record of an effective resume, and the two attempts of an order submission.
   */
  datatype Request =
    | ListOrders | Cancel(ref: OrderRef) | ListPositions | MarketClose(symbol: string) | WriteRecord
    | WriteResume | FirstAlo | RetryAlo

  /**
   * What the exchange answered to one halt sequence so far. `orders` and `positions` are
   * `None` when the listing raised; `cancels[i]` and `closes[i]` say whether call i returned.
   */
  datatype Sweep = Sweep(
    orders: Option<seq<OrderRef>>, cancels: seq<bool>, positions: Option<seq<Snapshot>>, closes: seq<bool>)

  function Items<T>(listing: Option<seq<T>>): seq<T> {
    if listing.Some? then listing.value else []
  }

  /** The symbols the close loop does not skip. */
  function NonZero(positions: seq<Snapshot>): seq<string> {
    if positions == [] then []
    else NonZero(Front(positions)) + if Last(positions).size == 0.0 then [] else [Last(positions).symbol]
  }

  /** The items whose call returned. */
  function Returned<T>(items: seq<T>, ok: seq<bool>): seq<T>
    requires |ok| <= |items|
  {
    if ok == [] then []
    else if Last(ok) then Returned(items, Front(ok)) + [items[|ok| - 1]]
    else Returned(items, Front(ok))
  }

  /** The items whose call raised. */
  function Raised<T>(items: seq<T>, ok: seq<bool>): seq<T>
    requires |ok| <= |items|
  {
    if ok == [] then []
    else if Last(ok) then Raised(items, Front(ok))
    else Raised(items, Front(ok)) + [items[|ok| - 1]]
  }

  lemma NextAnswer<T>(items: seq<T>, ok: seq<bool>, answer: bool)
    requires |ok| < |items|
    ensures var x := items[|ok|]; var longer := ok + [answer];
      && Returned(items, longer) == (if answer then Returned(items, ok) + [x] else Returned(items, ok))
      && Raised(items, longer) == (if answer then Raised(items, ok) else Raised(items, ok) + [x])
  {
    assert Front(ok + [answer]) == ok;
  }

  lemma {:induction false} ReturnedOrRaised<T>(items: seq<T>, ok: seq<bool>)
    requires |ok| <= |items|
    ensures multiset(Returned(items, ok)) + multiset(Raised(items, ok)) == multiset(items[..|ok|])
  {
    if ok == [] {
      assert items[..0] == [];
    } else {
      var rest := Front(ok);
      ReturnedOrRaised(items, rest);
      NextAnswer(items, rest, Last(ok));
      assert rest + [Last(ok)] == ok;
      assert items[..|ok|] == items[..|rest|] + [items[|rest|]];
      SplitStep(Returned(items, rest), Raised(items, rest), items[..|rest|], items[|rest|]);
      hide Returned, Raised;
    }
  }

  lemma SplitStep<T>(kept: seq<T>, lost: seq<T>, seen: seq<T>, x: T)
    requires multiset(kept) + multiset(lost) == multiset(seen)
    ensures multiset(kept + [x]) + multiset(lost) == multiset(seen + [x])
    ensures multiset(kept) + multiset(lost + [x]) == multiset(seen + [x])
  {
  }

  function CancelNotes(refs: seq<OrderRef>): seq<Note> {
    seq(|refs|, i requires 0 <= i < |refs| => CancelFailed(refs[i]))
  }

  function CloseNotes(symbols: seq<string>): seq<Note> {
    seq(|symbols|, i requires 0 <= i < |symbols| => CloseFailed(symbols[i]))
  }

  lemma NextCancel(refs: seq<OrderRef>, ref: OrderRef)
    ensures CancelNotes(refs + [ref]) == CancelNotes(refs) + [CancelFailed(ref)]
    ensures CancelAll(refs + [ref]) == CancelAll(refs) + [Cancel(ref)]
  {
  }

  lemma NextClose(symbols: seq<string>, symbol: string)
    ensures CloseNotes(symbols + [symbol]) == CloseNotes(symbols) + [CloseFailed(symbol)]
    ensures CloseAll(symbols + [symbol]) == CloseAll(symbols) + [MarketClose(symbol)]
  {
  }

  predicate Complete(s: Sweep) {
    |s.cancels| == |Items(s.orders)| && |s.closes| == |NonZero(Items(s.positions))|
  }

  /** The journal record of a complete sweep. */
  function RecordOf(reason: string, s: Sweep): Record
    requires Complete(s)
  {
    var symbols := NonZero(Items(s.positions));
    Record(reason, Items(s.orders), Returned(symbols, s.closes),
           (if s.orders.None? then [ListOrdersFailed] else []) + CancelNotes(Raised(Items(s.orders), s.cancels)),
           (if s.positions.None? then [ListPositionsFailed] else []) + CloseNotes(Raised(symbols, s.closes)))
  }

  function CancelAll(orders: seq<OrderRef>): seq<Request> {
    seq(|orders|, i requires 0 <= i < |orders| => Cancel(orders[i]))
  }

  function CloseAll(symbols: seq<string>): seq<Request> {
    seq(|symbols|, i requires 0 <= i < |symbols| => MarketClose(symbols[i]))
  }

  /** The protocol: every listed order and every listed non-zero position once, then the record. */
  function Protocol(orders: seq<OrderRef>, positions: seq<Snapshot>): seq<Request> {
    [ListOrders] + CancelAll(orders) + [ListPositions] + CloseAll(NonZero(positions)) + [WriteRecord]
  }

  /** The positions a record reports as not closed. */
  ghost predicate ReportsFailed(r: Record, failed: seq<string>) {
    r.closeErrors == CloseNotes(failed) || r.closeErrors == [ListPositionsFailed] + CloseNotes(failed)
  }

  /** The record splits the listed non-zero positions into closed and failed. */
  ghost predicate Splits(r: Record, symbols: seq<string>) {
    exists failed: seq<string> ::
      ReportsFailed(r, failed) && multiset(r.closedPositions) + multiset(failed) == multiset(symbols)
  }

  lemma RecordSplitsPositions(reason: string, s: Sweep)
    requires Complete(s)
    ensures Splits(RecordOf(reason, s), NonZero(Items(s.positions)))
    ensures Reports(RecordOf(reason, s), reason, s.orders, s.cancels, s.positions, s.closes)
  {
    RecordReports(reason, s);
    var symbols := NonZero(Items(s.positions));
    ReturnedOrRaised(symbols, s.closes);
    assert symbols[..|symbols|] == symbols;
    var failed := Raised(symbols, s.closes);
    assert [] + CloseNotes(failed) == CloseNotes(failed);
    assert ReportsFailed(RecordOf(reason, s), failed);
  }

  /**
   * The record tells what was asked for and what happened: the reason, every listed order, every listed
   * non-zero position whose close returned, and one error per listing or call that raised, in order.
   */
  ghost predicate Reports(r: Record, reason: string, orders: Option<seq<OrderRef>>, cancelled: seq<bool>,
                          positions: Option<seq<Snapshot>>, closed: seq<bool>)
    requires |cancelled| == |Items(orders)| && |closed| == |NonZero(Items(positions))|
  {
    var symbols := NonZero(Items(positions));
    && r.reason == reason
    && r.cancelledOrders == (if orders.Some? then orders.value else [])
    && r.closedPositions == Returned(symbols, closed)
    && r.cancelErrors == (if orders.None? then [ListOrdersFailed]
                          else CancelNotes(Raised(orders.value, cancelled)))
    && r.closeErrors == (if positions.None? then [ListPositionsFailed] else CloseNotes(Raised(symbols, closed)))
  }

  lemma RecordReports(reason: string, s: Sweep)
    requires Complete(s)
    ensures Reports(RecordOf(reason, s), reason, s.orders, s.cancels, s.positions, s.closes)
  {
    hide NonZero, Returned, Raised;
    assert NonZero([]) == [] && s.positions.None? ==> s.closes == [];
    assert s.orders.None? ==> s.cancels == [];
    NoneRaised(Items(s.orders));
    NoneRaised(NonZero(Items(s.positions)));
  }

  lemma NoneRaised<T>(items: seq<T>)
    ensures Raised(items, []) == [] && Returned(items, []) == []
    ensures NonZero([]) == []
  {
  }

  // ----- The two loops ----------------------------------------------------------------------------

  /** The answers noted so far are what the calls did. */
  predicate Answered(ok: seq<bool>, callReturns: nat -> bool) {
    forall j :: 0 <= j < |ok| ==> ok[j] == callReturns(j)
  }

  /** Where the cancel loop stands before item `i`. */
  predicate CancelledSoFar(orders: seq<OrderRef>, i: nat, ok: seq<bool>, errors: seq<Note>, requests: seq<Request>) {
    && |ok| == i <= |orders|
    && errors == CancelNotes(Raised(orders, ok))
    && requests == CancelAll(orders[..i])
  }

  lemma CancelStep(orders: seq<OrderRef>, i: nat, ok: seq<bool>, errors: seq<Note>, requests: seq<Request>,
                   returned: bool)
    requires CancelledSoFar(orders, i, ok, errors, requests) && i < |orders|
    ensures CancelledSoFar(orders, i + 1, ok + [returned],
                           if returned then errors else errors + [CancelFailed(orders[i])],
                           requests + [Cancel(orders[i])])
  {
    var ref := orders[i];
    NextCancel(orders[..i], ref);
    NextCancel(Raised(orders, ok), ref);
    NextAnswer(orders, ok, returned);
    hide CancelNotes, CancelAll, Raised, Returned;
    assert orders[..i + 1] == orders[..i] + [ref];
  }

  /** Where the close loop stands before item `i`. */
  predicate ClosedSoFar(positions: seq<Snapshot>, i: nat, ok: seq<bool>,
                        closed: seq<string>, errors: seq<Note>, requests: seq<Request>)
  {
    && i <= |positions|
    && |ok| == |NonZero(positions[..i])| <= |NonZero(positions)|
    && closed == Returned(NonZero(positions), ok)
    && errors == CloseNotes(Raised(NonZero(positions), ok))
    && requests == CloseAll(NonZero(positions[..i]))
  }

  lemma CloseStep(positions: seq<Snapshot>, i: nat, ok: seq<bool>,
                  closed: seq<string>, errors: seq<Note>, requests: seq<Request>, returned: bool)
    requires ClosedSoFar(positions, i, ok, closed, errors, requests) && i < |positions|
    ensures var symbol := positions[i].symbol;
      if positions[i].size == 0.0 then ClosedSoFar(positions, i + 1, ok, closed, errors, requests)
      else ClosedSoFar(positions, i + 1, ok + [returned], if returned then closed + [symbol] else closed,
                       if returned then errors else errors + [CloseFailed(symbol)], requests + [MarketClose(symbol)])
  {
    hide NonZero, Returned, Raised, CloseNotes, CloseAll;
    var symbols, seen := NonZero(positions), NonZero(positions[..i]);
    NonZeroNext(positions, i);
    if positions[i].size != 0.0 {
      NextClose(seen, positions[i].symbol);
      NextClose(Raised(symbols, ok), positions[i].symbol);
      NextAnswer(symbols, ok, returned);
    }
  }

  /** Both loops start from nothing. */
  lemma LoopsStart(orders: seq<OrderRef>, positions: seq<Snapshot>)
    ensures CancelledSoFar(orders, 0, [], [], []) && ClosedSoFar(positions, 0, [], [], [], [])
  {
    assert NonZero(positions[..0]) == [];
  }

  lemma AllCancelled(orders: seq<OrderRef>, ok: seq<bool>, errors: seq<Note>, requests: seq<Request>)
    requires CancelledSoFar(orders, |orders|, ok, errors, requests)
    ensures |ok| == |orders| && errors == CancelNotes(Raised(orders, ok)) && requests == CancelAll(orders)
  {
    hide Raised, CancelNotes, CancelAll;
    assert orders[..|orders|] == orders;
  }

  lemma AllClosed(positions: seq<Snapshot>, ok: seq<bool>, closed: seq<string>, errors: seq<Note>,
                  requests: seq<Request>)
    requires ClosedSoFar(positions, |positions|, ok, closed, errors, requests)
    ensures var symbols := NonZero(positions);
      && |ok| == |symbols| && closed == Returned(symbols, ok)
      && errors == CloseNotes(Raised(symbols, ok)) && requests == CloseAll(symbols)
  {
    hide NonZero, Returned, Raised, CloseNotes, CloseAll;
    assert positions[..|positions|] == positions;
  }

  // ----- The class, one call at a time ------------------------------------------------------------

  /** How the exchange and the notifier behave during one halt sequence. */
  datatype Replies = Replies(
    orders: Option<seq<OrderRef>>, cancelReturns: nat -> bool,
    positions: Option<seq<Snapshot>>, closeReturns: nat -> bool)

  /** The record reports these replies. */
  ghost predicate Tells(r: Record, reason: string, replies: Replies) {
    exists cancelled: seq<bool>, closed: seq<bool> ::
      && |cancelled| == |Items(replies.orders)| && Answered(cancelled, replies.cancelReturns)
      && |closed| == |NonZero(Items(replies.positions))| && Answered(closed, replies.closeReturns)
      && Reports(r, reason, replies.orders, cancelled, replies.positions, closed)
  }

  lemma RecordTells(reason: string, s: Sweep, replies: Replies)
    requires s.orders == replies.orders && s.positions == replies.positions && Complete(s)
    requires Answered(s.cancels, replies.cancelReturns) && Answered(s.closes, replies.closeReturns)
    ensures Tells(RecordOf(reason, s), reason, replies)
  {
    hide Reports, NonZero, RecordOf, Answered;
    RecordReports(reason, s);
  }

  class KillSwitch {
    var halted: bool
    ghost var begun: nat
    ghost var resumed: nat

    ghost predicate Valid()
      reads this
    {
      begun == resumed + if halted then 1 else 0
    }

    constructor ()
      ensures Valid() && !halted && begun == 0
    {
      halted, begun, resumed := false, 0, 0;
    }

    /** The section of `halt` under the lock. */
    method Begin() returns (began: bool)
      requires Valid()
      modifies this
      ensures Valid() && halted && resumed == old(resumed)
      ensures began == !old(halted) && begun == old(begun) + if began then 1 else 0
    {
      if halted {
        return false;
      }
      halted := true;
      begun := begun + 1;
      return true;
    }

    /** The cancel loop: one attempt per order, whatever raises. */
    method CancelOrders(openOrders: seq<OrderRef>, callReturns: nat -> bool)
      returns (cancelErrors: seq<Note>, requests: seq<Request>, cancels: seq<bool>)
      ensures |cancels| == |openOrders| && Answered(cancels, callReturns)
      ensures cancelErrors == CancelNotes(Raised(openOrders, cancels))
      ensures requests == CancelAll(openOrders)
    {
      hide Raised, CancelNotes, CancelAll, CancelledSoFar;
      LoopsStart(openOrders, []);
      cancelErrors, requests, cancels := [], [], [];
      for i := 0 to |openOrders|
        invariant CancelledSoFar(openOrders, i, cancels, cancelErrors, requests)
        invariant |cancels| == i && Answered(cancels, callReturns)
      {
        var ref := openOrders[i];
        var returned := callReturns(i);
        CancelStep(openOrders, i, cancels, cancelErrors, requests, returned);
        requests := requests + [Cancel(ref)];
        cancels := cancels + [returned];
        if !returned {
          cancelErrors := cancelErrors + [CancelFailed(ref)];
        }
      }
      AllCancelled(openOrders, cancels, cancelErrors, requests);
    }

    /** The close loop: flat positions are skipped, every other one is attempted once. */
    method ClosePositions(positions: seq<Snapshot>, callReturns: nat -> bool)
      returns (closedSymbols: seq<string>, closeErrors: seq<Note>, requests: seq<Request>, closes: seq<bool>)
      ensures |closes| == |NonZero(positions)| && Answered(closes, callReturns)
      ensures closedSymbols == Returned(NonZero(positions), closes)
      ensures closeErrors == CloseNotes(Raised(NonZero(positions), closes))
      ensures requests == CloseAll(NonZero(positions))
    {
      hide NonZero, Returned, Raised, CloseNotes, CloseAll, ClosedSoFar;
      LoopsStart([], positions);
      closedSymbols, closeErrors, requests, closes := [], [], [], [];
      for i := 0 to |positions|
        invariant ClosedSoFar(positions, i, closes, closedSymbols, closeErrors, requests)
        invariant Answered(closes, callReturns)
      {
        var symbol := positions[i].symbol;
        var returned := callReturns(|closes|);
        CloseStep(positions, i, closes, closedSymbols, closeErrors, requests, returned);
        if positions[i].size == 0.0 {
          continue;
        }
        requests := requests + [MarketClose(symbol)];
        closes := closes + [returned];
        if returned {
          closedSymbols := closedSymbols + [symbol];
        } else {
          closeErrors := closeErrors + [CloseFailed(symbol)];
        }
      }
      AllClosed(positions, closes, closedSymbols, closeErrors, requests);
    }

    /** The rest of `halt`: both listings, both loops, the record. */
    method RunSequence(reason: string, replies: Replies)
      returns (record: Record, requests: seq<Request>, sweep: Sweep)
      ensures sweep.orders == replies.orders && sweep.positions == replies.positions && Complete(sweep)
      ensures Answered(sweep.cancels, replies.cancelReturns) && Answered(sweep.closes, replies.closeReturns)
      ensures record == RecordOf(reason, sweep)
      ensures requests == Protocol(Items(replies.orders), Items(replies.positions))
    {
      var openOrders: seq<OrderRef>, cancelErrors: seq<Note> := [], [];
      if replies.orders.Some? {
        openOrders := replies.orders.value;
      } else {
        cancelErrors := [ListOrdersFailed];
      }
      var cancelNotes, cancelRequests, cancels := CancelOrders(openOrders, replies.cancelReturns);
      var positions: seq<Snapshot>, closeErrors: seq<Note> := [], [];
      if replies.positions.Some? {
        positions := replies.positions.value;
      } else {
        closeErrors := [ListPositionsFailed];
      }
      var closedSymbols, closeNotes, closeRequests, closes := ClosePositions(positions, replies.closeReturns);
      requests := [ListOrders] + cancelRequests + [ListPositions] + closeRequests + [WriteRecord];
      record := Record(reason, openOrders, closedSymbols, cancelErrors + cancelNotes, closeErrors + closeNotes);
      sweep := Sweep(replies.orders, cancels, replies.positions, closes);
    }

    /** `halt`: re-entry while halted is a no-op. */
    method Halt(reason: string, replies: Replies) returns (record: Option<Record>, requests: seq<Request>)
      requires Valid()
      modifies this
      ensures Valid() && halted && resumed == old(resumed)
      ensures record.Some? <==> !old(halted)
      ensures begun == old(begun) + if record.Some? then 1 else 0
      ensures record.None? ==> requests == []
      ensures record.Some? ==>
        && requests == Protocol(Items(replies.orders), Items(replies.positions))
        && Splits(record.value, NonZero(Items(replies.positions)))
        && Tells(record.value, reason, replies)
    {
      var began := Begin();
      if !began {
        return None, [];
      }
      var r, sent, sweep := RunSequence(reason, replies);
      RecordSplitsPositions(reason, sweep);
      RecordTells(reason, sweep, replies);
      hide Tells, Splits, NonZero, RecordOf, Protocol;
      return Some(r), sent;
    }

    method Resume()
      requires Valid()
      modifies this
      ensures Valid() && !halted && begun == old(begun)
      ensures resumed == old(resumed) + if old(halted) then 1 else 0
    {
      if !halted {
        return;
      }
      halted := false;
      resumed := resumed + 1;
    }
  }

  lemma {:induction false} NonZeroPrefix(positions: seq<Snapshot>, n: nat)
    requires n <= |positions|
    ensures NonZero(positions[..n]) <= NonZero(positions)
    decreases |positions| - n
  {
    if n == |positions| {
      assert positions[..n] == positions;
    } else {
      assert Front(positions[..n + 1]) == positions[..n];
      NonZeroPrefix(positions, n + 1);
    }
  }

  lemma NonZeroNext(positions: seq<Snapshot>, i: nat)
    requires i < |positions|
    ensures var seen := NonZero(positions[..i]);
      && NonZero(positions[..i + 1]) == (if positions[i].size == 0.0 then seen else seen + [positions[i].symbol])
      && |NonZero(positions[..i + 1])| <= |NonZero(positions)|
      && (positions[i].size != 0.0 ==>
            |seen| < |NonZero(positions)| && NonZero(positions)[|seen|] == positions[i].symbol)
  {
    var seen := NonZero(positions[..i]);
    assert Front(positions[..i + 1]) == positions[..i];
    assert seen + [] == seen;
    NonZeroPrefix(positions, i + 1);
    assert NonZero(positions[..i + 1]) == if positions[i].size == 0.0 then seen else seen + [positions[i].symbol];
    hide NonZero;
  }

  // ----- Interleaved tasks --------------------------------------------------------------------------

  /**
   * A coroutine between two suspension points. A halt sequence carries the answers it has
   * received; a finished submission remembers whether it was retried.
   */
  datatype Task =
    | HaltCalled(reason: string)
    | Listing(reason: string)
    | Cancelling(reason: string, sweep: Sweep)
    | ListingAgain(reason: string, sweep: Sweep)
    | Closing(reason: string, sweep: Sweep)
    | Writing(reason: string, sweep: Sweep)
    | HaltDone(reason: string, sweep: Sweep)
    | HaltIgnored
    | ResumeCalled
    | Resuming
    | ResumeDone
    | ResumeIgnored
    | SubmitCalled
    | FirstAttempt
    | SecondAttempt
    | SubmitDone(retried: bool)
    | SubmitBlocked

  /** The answer a suspended task is woken with. */
  datatype Answer = Orders(orders: seq<OrderRef>) | Positions(positions: seq<Snapshot>) | Fine | Raises | WouldTake

  /** A request as the exchange and the journal see it arrive: which task began it. */
  datatype Sent = Sent(task: nat, request: Request)

  datatype System = System(halted: bool, tasks: seq<Task>, sent: seq<Sent>, journal: seq<Record>)

  datatype Event = Call(task: Task) | Wake(i: nat, answer: Answer)

  const EMPTY_SWEEP := Sweep(None, [], None, [])

  /** The state after the open orders are known (or the listing raised). */
  function AfterOrders(reason: string, s: Sweep): Task {
    if |s.cancels| < |Items(s.orders)| then Cancelling(reason, s) else ListingAgain(reason, s)
  }

  function AfterPositions(reason: string, s: Sweep): Task {
    if |s.closes| < |NonZero(Items(s.positions))| then Closing(reason, s) else Writing(reason, s)
  }

  /** One atomic step of a halt sequence; an answer of the wrong kind leaves it waiting. */
  function NextInSequence(t: Task, a: Answer): Task {
    match t
    case Listing(reason) =>
      if a.Orders? then AfterOrders(reason, EMPTY_SWEEP.(orders := Some(a.orders)))
      else if a.Raises? then AfterOrders(reason, EMPTY_SWEEP) else t
    case Cancelling(reason, s) =>
      if a.Fine? || a.Raises? then AfterOrders(reason, s.(cancels := s.cancels + [a.Fine?])) else t
    case ListingAgain(reason, s) =>
      if a.Positions? then AfterPositions(reason, s.(positions := Some(a.positions)))
      else if a.Raises? then AfterPositions(reason, s) else t
    case Closing(reason, s) =>
      if a.Fine? || a.Raises? then AfterPositions(reason, s.(closes := s.closes + [a.Fine?])) else t
    case Writing(reason, s) => if a.Fine? then HaltDone(reason, s) else t
    case _ => t
  }

  /** The request a task is suspended on. */
  function Awaited(t: Task): Option<Request> {
    match t
    case Listing(_) => Some(ListOrders)
    case Cancelling(_, s) =>
      if |s.cancels| < |Items(s.orders)| then Some(Cancel(Items(s.orders)[|s.cancels|])) else None
    case ListingAgain(_, _) => Some(ListPositions)
    case Closing(_, s) =>
      var symbols := NonZero(Items(s.positions));
      if |s.closes| < |symbols| then Some(MarketClose(symbols[|s.closes|])) else None
    case Writing(_, _) => Some(WriteRecord)
    case Resuming => Some(WriteResume)
    case FirstAttempt => Some(FirstAlo)
    case SecondAttempt => Some(RetryAlo)
    case _ => None
  }

  /** The requests begun when task `i` moves from `t` to `next`. */
  function Begins(i: nat, t: Task, next: Task): seq<Sent> {
    if next != t && Awaited(next).Some? then [Sent(i, Awaited(next).value)] else []
  }

  predicate Fresh(t: Task) {
    t.HaltCalled? || t.ResumeCalled? || t.SubmitCalled?
  }

  /** What waking task `t` turns it into, given the halt flag. */
  function NextTask(t: Task, a: Answer, halted: bool): Task {
    match t
    case HaltCalled(reason) => if halted then HaltIgnored else Listing(reason)
    case ResumeCalled => if halted then Resuming else ResumeIgnored
    case Resuming => if a.Fine? then ResumeDone else t
    case SubmitCalled => if halted then SubmitBlocked else FirstAttempt
    case FirstAttempt => if a.WouldTake? then SecondAttempt else SubmitDone(false)
    case SecondAttempt => SubmitDone(true)
    case _ => NextInSequence(t, a)
  }

  function Step(sys: System, e: Event): System {
    match e
    case Call(task) => if Fresh(task) then sys.(tasks := sys.tasks + [task]) else sys
    case Wake(i, a) =>
      if i >= |sys.tasks| then sys
      else
        var t := sys.tasks[i];
        var next := NextTask(t, a, sys.halted);
        var flipped := if t.HaltCalled? then true else if t.ResumeCalled? then false else sys.halted;
        System(flipped,
               sys.tasks[i := next],
               sys.sent + Begins(i, t, next),
               if t.Writing? && next.HaltDone? && Complete(next.sweep)
               then sys.journal + [RecordOf(next.reason, next.sweep)] else sys.journal)
  }

  const START := System(false, [], [], [])

  function After(events: seq<Event>): System {
    if events == [] then START else Step(After(Front(events)), Last(events))
  }

  // ----- What every interleaving keeps -------------------------------------------------------------------

  /** The answers a halt sequence holds fit the stage it is in. */
  predicate WellFormed(t: Task) {
    match t
    case Cancelling(_, s) => s.orders.Some? && |s.cancels| < |Items(s.orders)| && s.positions.None? && s.closes == []
    case ListingAgain(_, s) => |s.cancels| == |Items(s.orders)| && s.positions.None? && s.closes == []
    case Closing(_, s) => |s.cancels| == |Items(s.orders)| && |s.closes| < |NonZero(Items(s.positions))|
    case Writing(_, s) => Complete(s)
    case HaltDone(_, s) => Complete(s)
    case _ => true
  }

  /** The requests a task must have begun by its stage, in order. */
  function Expected(t: Task): seq<Request>
    requires WellFormed(t)
  {
    match t
    case Listing(_) => [ListOrders]
    case Cancelling(_, s) => [ListOrders] + CancelAll(Items(s.orders)[..|s.cancels| + 1])
    case ListingAgain(_, s) => [ListOrders] + CancelAll(Items(s.orders)) + [ListPositions]
    case Closing(_, s) =>
      [ListOrders] + CancelAll(Items(s.orders)) + [ListPositions]
      + CloseAll(NonZero(Items(s.positions))[..|s.closes| + 1])
    case Writing(_, s) => Protocol(Items(s.orders), Items(s.positions))
    case HaltDone(_, s) => Protocol(Items(s.orders), Items(s.positions))
    case Resuming => [WriteResume]
    case ResumeDone => [WriteResume]
    case FirstAttempt => [FirstAlo]
    case SecondAttempt => [FirstAlo, RetryAlo]
    case SubmitDone(retried) => if retried then [FirstAlo, RetryAlo] else [FirstAlo]
    case _ => []
  }

  lemma CancelAllNext(orders: seq<OrderRef>, n: nat)
    requires n < |orders|
    ensures CancelAll(orders[..n + 1]) == CancelAll(orders[..n]) + [Cancel(orders[n])]
    ensures CancelAll(orders[..0]) == [] && orders[..|orders|] == orders
  {
  }

  lemma CloseAllNext(symbols: seq<string>, n: nat)
    requires n < |symbols|
    ensures CloseAll(symbols[..n + 1]) == CloseAll(symbols[..n]) + [MarketClose(symbols[n])]
    ensures CloseAll(symbols[..0]) == [] && symbols[..|symbols|] == symbols
  {
  }

  lemma OrdersStage(reason: string, s: Sweep)
    requires |s.cancels| <= |Items(s.orders)| && s.positions.None? && s.closes == []
    requires s.cancels == [] || s.orders.Some?
    ensures var next := AfterOrders(reason, s);
      && WellFormed(next) && Awaited(next).Some?
      && Expected(next) == [ListOrders] + CancelAll(Items(s.orders)[..|s.cancels|]) + [Awaited(next).value]
      && CancelAll(Items(s.orders)[..0]) == []
  {
    var orders, n := Items(s.orders), |s.cancels|;
    assert CancelAll(orders[..0]) == [];
    hide CancelAll, CloseAll, NonZero, Protocol;
    if n < |orders| {
      CancelAllNext(orders, n);
      assert [ListOrders] + CancelAll(orders[..n + 1]) == [ListOrders] + CancelAll(orders[..n]) + [Cancel(orders[n])];
    } else {
      assert orders[..n] == orders;
    }
  }

  lemma PositionsStage(reason: string, s: Sweep)
    requires |s.cancels| == |Items(s.orders)| && |s.closes| <= |NonZero(Items(s.positions))|
    ensures var next := AfterPositions(reason, s);
      && WellFormed(next) && Awaited(next).Some?
      && Expected(next) == [ListOrders] + CancelAll(Items(s.orders)) + [ListPositions]
                           + CloseAll(NonZero(Items(s.positions))[..|s.closes|]) + [Awaited(next).value]
      && CloseAll(NonZero(Items(s.positions))[..0]) == []
  {
    var symbols, n := NonZero(Items(s.positions)), |s.closes|;
    var head := [ListOrders] + CancelAll(Items(s.orders)) + [ListPositions];
    assert CloseAll(symbols[..0]) == [];
    hide CancelAll, CloseAll, NonZero;
    if n < |symbols| {
      CloseAllNext(symbols, n);
      assert head + CloseAll(symbols[..n + 1]) == head + CloseAll(symbols[..n]) + [MarketClose(symbols[n])];
    } else {
      assert symbols[..n] == symbols;
    }
  }

  lemma SequenceStep(t: Task, a: Answer)
    requires WellFormed(t) && InSequence(t) && NextInSequence(t, a) != t
    ensures var next := NextInSequence(t, a);
      && WellFormed(next)
      && Expected(next) == Expected(t) + (if Awaited(next).Some? then [Awaited(next).value] else [])
  {
    match t
    case Listing(reason) =>
      OrdersStage(reason, if a.Orders? then EMPTY_SWEEP.(orders := Some(a.orders)) else EMPTY_SWEEP);
    case Cancelling(reason, s) => OrdersStage(reason, s.(cancels := s.cancels + [a.Fine?]));
    case ListingAgain(reason, s) =>
      PositionsStage(reason, if a.Positions? then s.(positions := Some(a.positions)) else s);
    case Closing(reason, s) => PositionsStage(reason, s.(closes := s.closes + [a.Fine?]));
    case Writing(reason, s) =>
      assert Awaited(HaltDone(reason, s)).None?;
      assert Expected(t) + [] == Expected(t);
    hide AfterOrders, AfterPositions, CancelAll, CloseAll, NonZero, Awaited, Protocol;
  }

  /** One wake-up of a task: its stage stays coherent and it begins exactly the next request of the protocol. */
  lemma TaskStep(t: Task, a: Answer, halted: bool)
    requires WellFormed(t)
    ensures var next := NextTask(t, a, halted);
      && WellFormed(next)
      && Expected(next) == Expected(t) + (if next != t && Awaited(next).Some? then [Awaited(next).value] else [])
  {
    var next := NextTask(t, a, halted);
    assert Expected(t) + [] == Expected(t);
    if next != t && InSequence(t) {
      SequenceStep(t, a);
      hide NextInSequence, WellFormed, Expected, Awaited;
    }
  }

  /** The requests one task has begun. */
  function SentBy(sent: seq<Sent>, i: nat): seq<Request> {
    if sent == [] then []
    else if Last(sent).task == i then SentBy(Front(sent), i) + [Last(sent).request]
    else SentBy(Front(sent), i)
  }

  predicate InSequence(t: Task) {
    t.Listing? || t.Cancelling? || t.ListingAgain? || t.Closing? || t.Writing? || t.HaltDone?
  }

  /** How often a request appears in the log. */
  function CountOf(log: seq<Sent>, request: Request): nat {
    if log == [] then 0 else CountOf(Front(log), request) + if Last(log).request == request then 1 else 0
  }

  /** The flag as the log tells it: set by the start of a halt sequence, cleared by an effective resume. */
  predicate HaltedBy(log: seq<Sent>) {
    log != [] && (Last(log).request.ListOrders? || (!Last(log).request.WriteResume? && HaltedBy(Front(log))))
  }

  /** Every first order attempt in the log began while the log before it left the flag clear. */
  predicate AttemptsUnhalted(log: seq<Sent>) {
    log == [] || (AttemptsUnhalted(Front(log)) && (Last(log).request.FirstAlo? ==> !HaltedBy(Front(log))))
  }

  /** How many halt sequences have been begun, finished or not. */
  function Sequences(tasks: seq<Task>): nat {
    if tasks == [] then 0 else Sequences(Front(tasks)) + if InSequence(Last(tasks)) then 1 else 0
  }

  function Finished(tasks: seq<Task>): nat {
    if tasks == [] then 0 else Finished(Front(tasks)) + if Last(tasks).HaltDone? then 1 else 0
  }

  lemma {:induction false} CountsAfterUpdate(tasks: seq<Task>, i: nat, next: Task)
    requires i < |tasks|
    ensures Sequences(tasks[i := next]) + (if InSequence(tasks[i]) then 1 else 0)
         == Sequences(tasks) + (if InSequence(next) then 1 else 0)
    ensures Finished(tasks[i := next]) + (if tasks[i].HaltDone? then 1 else 0)
         == Finished(tasks) + (if next.HaltDone? then 1 else 0)
  {
    if i < |tasks| - 1 {
      CountsAfterUpdate(Front(tasks), i, next);
      assert Front(tasks[i := next]) == Front(tasks)[i := next];
    } else {
      assert Front(tasks[i := next]) == Front(tasks);
    }
  }

  predicate TaskOk(sys: System, i: nat)
    requires i < |sys.tasks|
  {
    var t := sys.tasks[i];
    && WellFormed(t)
    && SentBy(sys.sent, i) == Expected(t)
    && (t.HaltDone? ==> RecordOf(t.reason, t.sweep) in sys.journal)
  }

  /** The flag is what the log says, its flips alternate, and attempts begin only while it is clear. */
  predicate FlagAgrees(sys: System) {
    && sys.halted == HaltedBy(sys.sent)
    && CountOf(sys.sent, ListOrders) == CountOf(sys.sent, WriteResume) + (if sys.halted then 1 else 0)
    && AttemptsUnhalted(sys.sent)
  }

  predicate Invariant(sys: System) {
    && FlagAgrees(sys)
    && CountOf(sys.sent, ListOrders) == Sequences(sys.tasks)
    && |sys.journal| == Finished(sys.tasks)
    && (forall k :: 0 <= k < |sys.sent| ==> sys.sent[k].task < |sys.tasks|)
    && (forall i :: 0 <= i < |sys.tasks| ==> TaskOk(sys, i))
  }

  lemma {:induction false} NothingSent(sent: seq<Sent>, i: nat)
    requires forall k :: 0 <= k < |sent| ==> sent[k].task != i
    ensures SentBy(sent, i) == []
  {
    if sent != [] {
      NothingSent(Front(sent), i);
    }
  }

  lemma SentAfter(sent: seq<Sent>, i: nat, t: Task, next: Task, j: nat)
    ensures SentBy(sent + Begins(i, t, next), j)
         == SentBy(sent, j) + (if i == j && next != t && Awaited(next).Some? then [Awaited(next).value] else [])
  {
    if next != t && Awaited(next).Some? {
      assert Front(sent + Begins(i, t, next)) == sent;
    } else {
      assert sent + [] == sent;
    }
    assert SentBy(sent, j) + [] == SentBy(sent, j);
  }

  lemma CallKeepsInvariant(sys: System, task: Task)
    requires Invariant(sys) && Fresh(task)
    ensures Invariant(Step(sys, Call(task)))
  {
    var after := Step(sys, Call(task));
    assert Front(after.tasks) == sys.tasks;
    NothingSent(sys.sent, |sys.tasks|);
    forall i | 0 <= i < |after.tasks|
      ensures TaskOk(after, i)
    {
      if i < |sys.tasks| {
        assert TaskOk(sys, i);
      }
    }
  }

  lemma OnlyWritingFinishes(t: Task, a: Answer, halted: bool)
    requires WellFormed(t) && NextTask(t, a, halted).HaltDone?
    ensures t == NextTask(t, a, halted) || t.Writing?
    ensures Complete(NextTask(t, a, halted).sweep)
  {
  }

  lemma WakeKeepsTasks(sys: System, i: nat, a: Answer, j: nat)
    requires Invariant(sys) && i < |sys.tasks| && j < |sys.tasks|
    ensures TaskOk(Step(sys, Wake(i, a)), j)
  {
    var t := sys.tasks[i];
    var next := NextTask(t, a, sys.halted);
    assert TaskOk(sys, i) && TaskOk(sys, j);
    SentAfter(sys.sent, i, t, next, j);
    assert SentBy(sys.sent, j) + [] == SentBy(sys.sent, j);
    hide NextTask, Expected, SentBy, Begins, Awaited, RecordOf, WellFormed, Complete, Invariant;
    if i == j {
      TaskStep(t, a, sys.halted);
      if next.HaltDone? {
        OnlyWritingFinishes(t, a, sys.halted);
      }
    }
  }

  /** What a wake-up adds to the log, by what the task was. */
  lemma WhatBegins(i: nat, t: Task, a: Answer, halted: bool)
    requires WellFormed(t)
    ensures var begun := Begins(i, t, NextTask(t, a, halted));
      && |begun| <= 1
      && (begun != [] ==>
            && begun[0].task == i
            && (begun[0].request.ListOrders? <==> t.HaltCalled? && !halted)
            && (begun[0].request.WriteResume? <==> t.ResumeCalled? && halted)
            && (begun[0].request.FirstAlo? <==> t.SubmitCalled? && !halted))
      && (begun == [] ==> !(t.HaltCalled? && !halted) && !(t.ResumeCalled? && halted))
  {
    hide NonZero, Protocol;
  }

  /**
   * One more log entry: a halt starts and a first attempt begins only while clear, a resume takes effect
   * only while halted.
   */
  lemma LogStep(log: seq<Sent>, s: Sent)
    requires CountOf(log, ListOrders) == CountOf(log, WriteResume) + (if HaltedBy(log) then 1 else 0)
    requires AttemptsUnhalted(log)
    requires s.request.ListOrders? || s.request.FirstAlo? ==> !HaltedBy(log)
    requires s.request.WriteResume? ==> HaltedBy(log)
    ensures var more := log + [s];
      && HaltedBy(more)
         == (if s.request.ListOrders? then true else if s.request.WriteResume? then false else HaltedBy(log))
      && CountOf(more, ListOrders) == CountOf(more, WriteResume) + (if HaltedBy(more) then 1 else 0)
      && CountOf(more, ListOrders) == CountOf(log, ListOrders) + (if s.request.ListOrders? then 1 else 0)
      && AttemptsUnhalted(more)
  {
    assert Front(log + [s]) == log;
  }

  lemma WakeKeepsFlag(sys: System, i: nat, a: Answer)
    requires FlagAgrees(sys) && i < |sys.tasks| && WellFormed(sys.tasks[i])
    ensures FlagAgrees(Step(sys, Wake(i, a)))
    ensures CountOf(Step(sys, Wake(i, a)).sent, ListOrders)
         == CountOf(sys.sent, ListOrders) + if sys.tasks[i].HaltCalled? && !sys.halted then 1 else 0
  {
    var t := sys.tasks[i];
    var begun := Begins(i, t, NextTask(t, a, sys.halted));
    WhatBegins(i, t, a, sys.halted);
    hide WellFormed, Begins, NextTask, RecordOf, Complete, CountOf, HaltedBy, AttemptsUnhalted;
    assert begun == [] ==> sys.sent + begun == sys.sent;
    if begun != [] {
      assert begun == [begun[0]];
      LogStep(sys.sent, begun[0]);
    }
  }

  /** A task joins the halt sequences exactly when it is a halt call that finds the flag clear. */
  lemma JoinsSequences(t: Task, a: Answer, halted: bool)
    ensures InSequence(NextTask(t, a, halted)) <==> InSequence(t) || (t.HaltCalled? && !halted)
  {
  }

  lemma WakeKeepsCounts(sys: System, i: nat, a: Answer)
    requires Invariant(sys) && i < |sys.tasks|
    ensures var after := Step(sys, Wake(i, a));
      && FlagAgrees(after)
      && CountOf(after.sent, ListOrders) == Sequences(after.tasks) && |after.journal| == Finished(after.tasks)
      && |after.tasks| == |sys.tasks|
      && forall k :: 0 <= k < |after.sent| ==> after.sent[k].task < |after.tasks|
  {
    var t := sys.tasks[i];
    var next := NextTask(t, a, sys.halted);
    assert TaskOk(sys, i) && WellFormed(t);
    WakeKeepsFlag(sys, i, a);
    WhatBegins(i, t, a, sys.halted);
    JoinsSequences(t, a, sys.halted);
    if next.HaltDone? {
      OnlyWritingFinishes(t, a, sys.halted);
    }
    CountsAfterUpdate(sys.tasks, i, next);
    hide TaskOk, RecordOf, WellFormed, Sequences, Finished, FlagAgrees, CountOf, NextTask, Begins, InSequence;
  }

  lemma WakeKeepsInvariant(sys: System, i: nat, a: Answer)
    requires Invariant(sys) && i < |sys.tasks|
    ensures Invariant(Step(sys, Wake(i, a)))
  {
    hide Step, TaskOk, Sequences, Finished, FlagAgrees, CountOf;
    WakeKeepsCounts(sys, i, a);
    forall j | 0 <= j < |sys.tasks|
      ensures TaskOk(Step(sys, Wake(i, a)), j)
    {
      WakeKeepsTasks(sys, i, a, j);
    }
  }

  lemma {:induction false} EveryInterleavingIsInvariant(events: seq<Event>)
    ensures Invariant(After(events))
  {
    if events != [] {
      EveryInterleavingIsInvariant(Front(events));
      var sys := After(Front(events));
      match Last(events)
      case Call(task) =>
        if Fresh(task) {
          CallKeepsInvariant(sys, task);
        }
      case Wake(i, a) =>
        if i < |sys.tasks| {
          WakeKeepsInvariant(sys, i, a);
        }
    }
  }

  /**
   * Halt sequences begun minus effective resumes is 1 while halted and 0 otherwise; one record per
   * finished sequence.
   */
  lemma HaltsAndResumesAlternate(events: seq<Event>)
    ensures var sys := After(events);
      && CountOf(sys.sent, ListOrders) == CountOf(sys.sent, WriteResume) + (if sys.halted then 1 else 0)
      && CountOf(sys.sent, ListOrders) == Sequences(sys.tasks) && |sys.journal| == Finished(sys.tasks)
  {
    EveryInterleavingIsInvariant(events);
  }

  /** A finished sequence attempted each listed order and each listed non-zero position once, in order. */
  lemma FinishedSequenceIsComplete(events: seq<Event>, i: nat)
    requires i < |After(events).tasks| && After(events).tasks[i].HaltDone?
    ensures var sys := After(events); var t := sys.tasks[i];
      && Complete(t.sweep)
      && SentBy(sys.sent, i) == Protocol(Items(t.sweep.orders), Items(t.sweep.positions))
      && exists r :: r in sys.journal
           && Splits(r, NonZero(Items(t.sweep.positions)))
           && Reports(r, t.reason, t.sweep.orders, t.sweep.cancels, t.sweep.positions, t.sweep.closes)
  {
    EveryInterleavingIsInvariant(events);
    assert TaskOk(After(events), i);
    var t := After(events).tasks[i];
    RecordSplitsPositions(t.reason, t.sweep);
    hide Reports, Splits, RecordOf;
    assert RecordOf(t.reason, t.sweep) in After(events).journal;
  }

  /**
   * Until then it has begun a prefix of that protocol, whatever other tasks did in between.
   * As long as a listing is still to come, that is so for every list it may return.
   */
  lemma RunningSequenceIsPrefix(events: seq<Event>, i: nat, orders: seq<OrderRef>, positions: seq<Snapshot>)
    requires i < |After(events).tasks|
    ensures var sys := After(events); var t := sys.tasks[i]; var begun := SentBy(sys.sent, i);
      && (t.Listing? ==> begun <= Protocol(orders, positions))
      && (t.Cancelling? || t.ListingAgain? ==> begun <= Protocol(Items(t.sweep.orders), positions))
      && (t.Closing? || t.Writing? ==> begun <= Protocol(Items(t.sweep.orders), Items(t.sweep.positions)))
  {
    EveryInterleavingIsInvariant(events);
    assert TaskOk(After(events), i);
    hide After, SentBy, CancelAll, CloseAll, NonZero;
    var t := After(events).tasks[i];
    match t
    case Listing(_) => assert [ListOrders] <= Protocol(orders, positions);
    case Cancelling(_, s) => CancelPrefix(Items(s.orders), positions, |s.cancels| + 1);
    case ListingAgain(_, s) => PrefixOfProtocol(Items(s.orders), positions, 0);
    case Closing(_, s) => PrefixOfProtocol(Items(s.orders), Items(s.positions), |s.closes| + 1);
    case _ =>
  }

  lemma CancelPrefix(orders: seq<OrderRef>, positions: seq<Snapshot>, n: nat)
    requires n <= |orders|
    ensures [ListOrders] + CancelAll(orders[..n]) <= Protocol(orders, positions)
  {
    assert CancelAll(orders) == CancelAll(orders[..n]) + CancelAll(orders[n..]);
    hide CancelAll, CloseAll, NonZero;
    assert Protocol(orders, positions)
        == [ListOrders] + CancelAll(orders[..n])
           + (CancelAll(orders[n..]) + [ListPositions] + CloseAll(NonZero(positions)) + [WriteRecord]);
  }

  lemma PrefixOfProtocol(orders: seq<OrderRef>, positions: seq<Snapshot>, n: nat)
    requires n <= |NonZero(positions)|
    ensures [ListOrders] + CancelAll(orders) + [ListPositions] + CloseAll(NonZero(positions)[..n])
         <= Protocol(orders, positions)
    ensures [ListOrders] + CancelAll(orders) + [ListPositions] <= Protocol(orders, positions)
  {
    var symbols := NonZero(positions);
    hide NonZero;
    assert CloseAll(symbols) == CloseAll(symbols[..n]) + CloseAll(symbols[n..]);
    var head := [ListOrders] + CancelAll(orders) + [ListPositions];
    assert Protocol(orders, positions) == head + CloseAll(symbols[..n]) + (CloseAll(symbols[n..]) + [WriteRecord]);
  }

  // ----- What a task makes of its answers --------------------------------------------------------------------

  /** The call that created task `i`. */
  function CallOf(events: seq<Event>, i: nat): Task
    requires i < |After(events).tasks|
  {
    var before := After(Front(events)).tasks;
    if i < |before| then CallOf(Front(events), i) else After(events).tasks[i]
  }

  /** The answers that moved task `i` on, oldest first. */
  function AnswersTo(events: seq<Event>, i: nat): seq<Answer> {
    if events == [] then []
    else
      var earlier, sys, e := AnswersTo(Front(events), i), After(Front(events)), Last(events);
      if e.Wake? && e.i == i < |sys.tasks| && NextTask(sys.tasks[i], e.answer, sys.halted) != sys.tasks[i]
      then earlier + [e.answer] else earlier
  }

  /** The booleans say which of the answers from position `from` on were good. */
  predicate Noted(ok: seq<bool>, answers: seq<Answer>, from: nat) {
    from + |ok| <= |answers| && forall k :: 0 <= k < |ok| ==> ok[k] == answers[from + k].Fine?
  }

  /** The first listing and the cancels, by answer; the wake-up that started the sequence is answer 0. */
  predicate OrdersAnswered(s: Sweep, answers: seq<Answer>) {
    && |answers| >= 2
    && (s.orders == if answers[1].Orders? then Some(answers[1].orders) else None)
    && Noted(s.cancels, answers, 2)
  }

  /** The second listing and the closes, which follow. */
  predicate PositionsAnswered(s: Sweep, answers: seq<Answer>) {
    var n := 2 + |s.cancels|;
    && |answers| > n
    && (s.positions == if answers[n].Positions? then Some(answers[n].positions) else None)
    && Noted(s.closes, answers, n + 1)
  }

  /** A task keeps the reason of its call and holds exactly the answers it got; only a would-take is retried. */
  predicate AsAnswered(call: Task, t: Task, answers: seq<Answer>) {
    match t
    case Listing(reason) => call == HaltCalled(reason) && |answers| == 1
    case Cancelling(reason, s) =>
      call == HaltCalled(reason) && OrdersAnswered(s, answers) && |answers| == 2 + |s.cancels|
    case ListingAgain(reason, s) =>
      call == HaltCalled(reason) && OrdersAnswered(s, answers) && |answers| == 2 + |s.cancels|
    case Closing(reason, s) =>
      call == HaltCalled(reason) && OrdersAnswered(s, answers) && PositionsAnswered(s, answers)
      && |answers| == 3 + |s.cancels| + |s.closes|
    case Writing(reason, s) =>
      call == HaltCalled(reason) && OrdersAnswered(s, answers) && PositionsAnswered(s, answers)
      && |answers| == 3 + |s.cancels| + |s.closes|
    case HaltDone(reason, s) =>
      call == HaltCalled(reason) && OrdersAnswered(s, answers) && PositionsAnswered(s, answers)
      && |answers| == 4 + |s.cancels| + |s.closes| && Last(answers).Fine?
    case FirstAttempt => call.SubmitCalled? && |answers| == 1
    case SecondAttempt => call.SubmitCalled? && |answers| == 2 && answers[1].WouldTake?
    case SubmitDone(retried) =>
      call.SubmitCalled? && |answers| == (if retried then 3 else 2) && (retried <==> answers[1].WouldTake?)
    case _ => Fresh(t) ==> call == t && answers == []
  }

  lemma AnswerStep(call: Task, t: Task, a: Answer, halted: bool, answers: seq<Answer>)
    requires WellFormed(t) && AsAnswered(call, t, answers) && NextTask(t, a, halted) != t
    ensures AsAnswered(call, NextTask(t, a, halted), answers + [a])
  {
    if InSequence(t) {
      SequenceAnswer(call, t, a, answers);
      hide NextInSequence, AsAnswered, WellFormed;
    }
  }

  lemma SequenceAnswer(call: Task, t: Task, a: Answer, answers: seq<Answer>)
    requires WellFormed(t) && AsAnswered(call, t, answers) && InSequence(t) && NextInSequence(t, a) != t
    ensures AsAnswered(call, NextInSequence(t, a), answers + [a])
  {
    match t
    case Cancelling(_, s) => OrdersNext(s, answers, a);
    case ListingAgain(_, s) => OrdersNext(s, answers, a);
    case Closing(_, s) =>
      OrdersNext(s, answers, a);
      PositionsNext(s, answers, a);
    case Writing(_, s) =>
      OrdersNext(s, answers, a);
      PositionsNext(s, answers, a);
    case _ => hide NonZero, WellFormed;
    hide NonZero, Noted, OrdersAnswered;
  }

  lemma OrdersNext(s: Sweep, answers: seq<Answer>, a: Answer)
    requires OrdersAnswered(s, answers)
    ensures OrdersAnswered(s, answers + [a])
    ensures forall p :: OrdersAnswered(s.(positions := p), answers + [a])
    ensures forall ok :: OrdersAnswered(s.(closes := ok), answers + [a])
    ensures |answers| == 2 + |s.cancels| ==> OrdersAnswered(s.(cancels := s.cancels + [a.Fine?]), answers + [a])
    ensures |answers| == 2 + |s.cancels| && s.closes == [] ==>
      PositionsAnswered(s.(positions := if a.Positions? then Some(a.positions) else None), answers + [a])
  {
    NotedNext(s.cancels, answers, 2, a);
  }

  lemma PositionsNext(s: Sweep, answers: seq<Answer>, a: Answer)
    requires PositionsAnswered(s, answers)
    ensures PositionsAnswered(s, answers + [a])
    ensures |answers| == 3 + |s.cancels| + |s.closes| ==>
      PositionsAnswered(s.(closes := s.closes + [a.Fine?]), answers + [a])
  {
    NotedNext(s.closes, answers, 3 + |s.cancels|, a);
  }

  lemma NotedNext(ok: seq<bool>, answers: seq<Answer>, from: nat, a: Answer)
    requires Noted(ok, answers, from)
    ensures Noted(ok, answers + [a], from) && Noted([], answers + [a], |answers| + 1)
    ensures |answers| == from + |ok| ==> Noted(ok + [a.Fine?], answers + [a], from)
  {
  }

  /** What the answer to a request can be; a journal that raises is not modelled. */
  predicate Answers(request: Request, a: Answer) {
    match request
    case ListOrders => a.Orders? || a.Raises?
    case ListPositions => a.Positions? || a.Raises?
    case Cancel(_) => a.Fine? || a.Raises?
    case MarketClose(_) => a.Fine? || a.Raises?
    case WriteRecord => a.Fine?
    case WriteResume => a.Fine?
    case FirstAlo => true
    case RetryAlo => true
  }

  /** Nothing gets stuck: a fresh call moves when first woken, a waiting task on every answer to its request. */
  lemma EveryAnswerMovesOn(t: Task, a: Answer, halted: bool)
    requires WellFormed(t)
    ensures Fresh(t) ==> NextTask(t, a, halted) != t
    ensures Awaited(t).Some? ==> (NextTask(t, a, halted) != t <==> Answers(Awaited(t).value, a))
    ensures !Fresh(t) && Awaited(t).None? ==> NextTask(t, a, halted) == t
  {
    hide NonZero;
  }

  /** An event moves the task it wakes, or adds the task it calls, and touches no other. */
  lemma TasksAfter(sys: System, e: Event, i: nat)
    ensures var tasks := Step(sys, e).tasks;
      && |sys.tasks| <= |tasks|
      && (i < |sys.tasks| ==>
            tasks[i] == if e.Wake? && e.i == i then NextTask(sys.tasks[i], e.answer, sys.halted) else sys.tasks[i])
      && (|sys.tasks| <= i < |tasks| ==> Fresh(tasks[i]))
  {
    hide NextTask, Begins, RecordOf, Complete;
  }

  /** Over every interleaving each task has done with its answers what the protocol says. */
  lemma {:induction false} TasksDoAsAnswered(events: seq<Event>, i: nat)
    requires i < |After(events).tasks|
    ensures Fresh(CallOf(events, i))
    ensures AsAnswered(CallOf(events, i), After(events).tasks[i], AnswersTo(events, i))
  {
    var before, e := Front(events), Last(events);
    var sys := After(before);
    EveryInterleavingIsInvariant(before);
    TasksAfter(sys, e, i);
    hide Step, AsAnswered, WellFormed, NextTask, Invariant;
    if i < |sys.tasks| {
      TasksDoAsAnswered(before, i);
      StagesFit(sys, i);
      hide Fresh;
      if e.Wake? && e.i == i && NextTask(sys.tasks[i], e.answer, sys.halted) != sys.tasks[i] {
        AnswerStep(CallOf(before, i), sys.tasks[i], e.answer, sys.halted, AnswersTo(before, i));
      }
    } else {
      NobodyAnswered(before, i);
      CallUnanswered(After(events).tasks[i]);
    }
  }

  lemma StagesFit(sys: System, i: nat)
    requires Invariant(sys) && i < |sys.tasks|
    ensures WellFormed(sys.tasks[i])
  {
    assert TaskOk(sys, i);
  }

  lemma CallUnanswered(t: Task)
    requires Fresh(t)
    ensures AsAnswered(t, t, [])
  {
  }

  lemma {:induction false} NobodyAnswered(events: seq<Event>, i: nat)
    requires i >= |After(events).tasks|
    ensures AnswersTo(events, i) == []
  {
    if events != [] {
      assert |After(Front(events)).tasks| <= |After(events).tasks|;
      NobodyAnswered(Front(events), i);
    }
  }

  // ----- Order attempts against halts, in the log ---------------------------------------------------------

  lemma {:induction false} AttemptBeganUnhalted(log: seq<Sent>, q: nat)
    requires AttemptsUnhalted(log) && q < |log| && log[q].request.FirstAlo?
    ensures !HaltedBy(log[..q])
  {
    if q == |log| - 1 {
      assert log[..q] == Front(log);
    } else {
      AttemptBeganUnhalted(Front(log), q);
      assert Front(log)[..q] == log[..q];
    }
  }

  /** The last flip after position p, if there is one, starts a halt sequence. */
  predicate LastFlipHalts(log: seq<Sent>, p: nat) {
    exists r :: p < r < |log| && log[r].request.ListOrders?
      && forall s :: r < s < |log| ==> !log[s].request.WriteResume?
  }

  lemma LastFlipStep(log: seq<Sent>, s: Sent, p: nat)
    requires p < |log|
    ensures LastFlipHalts(log + [s], p) <==> s.request.ListOrders? || (LastFlipHalts(log, p) && !s.request.WriteResume?)
  {
    var more := log + [s];
    assert more[|log|] == s && forall r :: 0 <= r < |log| ==> more[r] == log[r];
    if s.request.ListOrders? {
      assert more[|log|].request.ListOrders?;
    }
    if LastFlipHalts(log, p) && !s.request.WriteResume? {
      var r :| p < r < |log| && log[r].request.ListOrders?
               && forall s' :: r < s' < |log| ==> !log[s'].request.WriteResume?;
      assert more[r].request.ListOrders?;
    }
    if LastFlipHalts(more, p) {
      var r :| p < r < |more| && more[r].request.ListOrders?
               && forall s' :: r < s' < |more| ==> !more[s'].request.WriteResume?;
      assert r < |log| ==> log[r].request.ListOrders?;
    }
  }

  /** The flag after a log is decided by the flips after any position that left it clear. */
  lemma {:induction false} FlagFromFlips(log: seq<Sent>, p: nat)
    requires p < |log| && !HaltedBy(log[..p + 1])
    ensures HaltedBy(log) <==> LastFlipHalts(log, p)
  {
    if p == |log| - 1 {
      assert log[..p + 1] == log;
    } else {
      var before := Front(log);
      assert before[..p + 1] == log[..p + 1];
      FlagFromFlips(before, p);
      LastFlipStep(before, Last(log), p);
      hide LastFlipHalts;
      assert before + [Last(log)] == log;
    }
  }

  lemma {:induction false} HaltedUntilResume(log: seq<Sent>, p: nat)
    requires p < |log| && log[p].request.ListOrders?
    requires forall r :: p < r < |log| ==> !log[r].request.WriteResume?
    ensures HaltedBy(log)
  {
    if p < |log| - 1 {
      HaltedUntilResume(Front(log), p);
      assert !log[|log| - 1].request.WriteResume?;
    }
  }

  /**
   * In the log of every interleaving, an effective resume lies between the start of a halt sequence and
   * any later first attempt.
   */
  lemma NoFirstAttemptWhileHalted(events: seq<Event>, p: nat, q: nat)
    requires var log := After(events).sent;
      p < q < |log| && log[p].request.ListOrders? && log[q].request.FirstAlo?
    ensures exists r :: p < r < q && After(events).sent[r].request.WriteResume?
  {
    var log := After(events).sent;
    EveryInterleavingIsInvariant(events);
    AttemptBeganUnhalted(log, q);
    hide After;
    if forall r :: p < r < q ==> !log[r].request.WriteResume? {
      HaltedUntilResume(log[..q], p);
      assert false;
    }
  }

  lemma {:induction false} SentSomewhere(log: seq<Sent>, i: nat, request: Request)
    requires request in SentBy(log, i)
    ensures exists p :: 0 <= p < |log| && log[p] == Sent(i, request)
  {
    if request in SentBy(Front(log), i) {
      SentSomewhere(Front(log), i, request);
      var p :| 0 <= p < |Front(log)| && Front(log)[p] == Sent(i, request);
      assert log[p] == Sent(i, request);
    } else {
      assert log[|log| - 1] == Sent(i, request);
    }
  }

  /**
   * A retry begins while halted exactly when the last effective halt or resume since its
   * first attempt is a halt: the flag is not read again.
   */
  lemma RetryBeginsHaltedIff(events: seq<Event>, i: nat)
    requires i < |After(events).tasks| && After(events).tasks[i].FirstAttempt?
    ensures var sys := After(events);
      && Step(sys, Wake(i, WouldTake)).sent == sys.sent + [Sent(i, RetryAlo)]
      && (exists p :: 0 <= p < |sys.sent| && sys.sent[p] == Sent(i, FirstAlo))
      && forall p :: 0 <= p < |sys.sent| && sys.sent[p] == Sent(i, FirstAlo) ==>
          (sys.halted <==> LastFlipHalts(sys.sent, p))
  {
    var sys := After(events);
    EveryInterleavingIsInvariant(events);
    assert TaskOk(sys, i) && FlagAgrees(sys);
    hide After, LastFlipHalts, Invariant, TaskOk, Step, FlagAgrees;
    RetryFollows(sys, i);
    SentSomewhere(sys.sent, i, FirstAlo);
    FlagSinceAttempts(sys, i);
  }

  lemma RetryFollows(sys: System, i: nat)
    requires i < |sys.tasks| && sys.tasks[i].FirstAttempt? && TaskOk(sys, i)
    ensures Step(sys, Wake(i, WouldTake)).sent == sys.sent + [Sent(i, RetryAlo)] && SentBy(sys.sent, i) == [FirstAlo]
  {
  }

  lemma FlagSinceAttempts(sys: System, i: nat)
    requires FlagAgrees(sys)
    ensures forall p :: 0 <= p < |sys.sent| && sys.sent[p] == Sent(i, FirstAlo) ==>
        (sys.halted <==> LastFlipHalts(sys.sent, p))
  {
    hide LastFlipHalts, CountOf;
    forall p | 0 <= p < |sys.sent| && sys.sent[p] == Sent(i, FirstAlo)
      ensures sys.halted <==> LastFlipHalts(sys.sent, p)
    {
      AttemptBeganUnhalted(sys.sent, p);
      assert Front(sys.sent[..p + 1]) == sys.sent[..p];
      FlagFromFlips(sys.sent, p);
    }
  }

  lemma AfterSnoc(events: seq<Event>, e: Event)
    ensures After(events + [e]) == Step(After(events), e) && After([]) == START
  {
    assert Front(events + [e]) == events;
  }

  /** And that happens: a halt starts between the two attempts. */
  lemma RetryMayBeginHalted()
    ensures exists events: seq<Event> ::
      After(events).halted && After(events).sent == [Sent(0, FirstAlo), Sent(1, ListOrders), Sent(0, RetryAlo)]
  {
    hide NextInSequence, NonZero, RecordOf, Complete, After;
    AfterSnoc([], Call(SubmitCalled));
    var e1 := [Call(SubmitCalled)];
    assert [] + e1 == e1;
    AfterSnoc(e1, Wake(0, Fine));
    var e2 := e1 + [Wake(0, Fine)];
    assert After(e2) == System(false, [FirstAttempt], [Sent(0, FirstAlo)], []);
    AfterSnoc(e2, Call(HaltCalled("operator")));
    var e3 := e2 + [Call(HaltCalled("operator"))];
    AfterSnoc(e3, Wake(1, Fine));
    var e4 := e3 + [Wake(1, Fine)];
    assert After(e4) == System(true, [FirstAttempt, Listing("operator")], [Sent(0, FirstAlo), Sent(1, ListOrders)], []);
    AfterSnoc(e4, Wake(0, WouldTake));
    var e5 := e4 + [Wake(0, WouldTake)];
    assert After(e5).sent == [Sent(0, FirstAlo), Sent(1, ListOrders), Sent(0, RetryAlo)] && After(e5).halted;
  }
}
