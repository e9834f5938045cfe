// src/strategies/funding_capture.py: the per-symbol funding-capture state machine.
//
// Times and durations are seconds as reals; notionals and leg sizes are signed reals.
module FundingCapture {
  import opened Prelude

  datatype Phase = Idle | EntryPending | Holding | ExitPending

  datatype Config = Config(
    fundingThreshold: real, preTick: real, fillWindow: real,
    postTickMin: real, notionalPerLegPct: real, earlyExitRatio: real)

  const DEFAULT := Config(0.001, 600.0, 90.0, 60.0, 0.50, 0.5)

  datatype RateInfo = RateInfo(predicted: real, nextTick: real)

  datatype Account = Account(equity: real, available: real)

  datatype State = State(
    phase: Phase, tick: Option<real>, entryStarted: Option<real>,
    targetNotional: real, perpSize: real, spotSize: real)

  const FRESH := State(Idle, None, None, 0.0, 0.0, 0.0)

  /** A decision: the two leg targets, when any is emitted, and the next state. */
  datatype Decision = Decision(perp: Option<real>, spot: Option<real>, next: State)

  // ----- evaluate_symbol ------------------------------------------------------------

  predicate BothLegsFilled(s: State) {
    var magnitude := Abs(s.targetNotional);
    magnitude != 0.0
    && s.perpSize * s.targetNotional > 0.0 && Abs(s.perpSize) >= magnitude * 0.99
    && s.spotSize * s.targetNotional < 0.0 && Abs(s.spotSize) >= magnitude * 0.99
  }

  predicate BothLegsFlat(s: State) {
    s.perpSize == 0.0 && s.spotSize == 0.0
  }

  function EnterPair(s: State, now: real, tick: real, notional: real): Decision {
    Decision(Some(-notional), Some(notional),
             s.(phase := EntryPending, tick := Some(tick), entryStarted := Some(now), targetNotional := -notional))
  }

  function ExitPair(s: State): Decision {
    Decision(Some(0.0), Some(0.0), s.(phase := ExitPending))
  }

  function NoOp(s: State): Decision {
    Decision(None, None, s)
  }

  function Hold(s: State): Decision {
    Decision(Some(s.targetNotional), Some(-s.targetNotional), s)
  }

  predicate Starved(s: State, account: Account, cfg: Config) {
    var current := Abs(s.targetNotional);
    current > 0.0 && account.available < current * cfg.earlyExitRatio
  }

  function SecondsAfterTick(s: State, now: real): real {
    if s.tick.Some? then now - s.tick.value else 0.0
  }

  function Elapsed(s: State, now: real): real {
    if s.entryStarted.Some? then now - s.entryStarted.value else 0.0
  }

  function EvaluateIdle(now: real, rate: RateInfo, account: Account, s: State, cfg: Config): Decision {
    var secondsToTick := rate.nextTick - now;
    if rate.predicted <= cfg.fundingThreshold then NoOp(s)
    else if secondsToTick > cfg.preTick + 60.0 then NoOp(s)
    else if secondsToTick < cfg.preTick - 60.0 then NoOp(s)
    else if account.available <= 0.0 then NoOp(s)
    else
      var notional := Min(account.equity * cfg.notionalPerLegPct, account.available);
      if notional <= 0.0 then NoOp(s) else EnterPair(s, now, rate.nextTick, notional)
  }

  function EvaluateSymbol(now: real, rate: RateInfo, account: Account, s: State, cfg: Config): Decision {
    match s.phase
    case Holding =>
      if Starved(s, account, cfg) then ExitPair(s)
      else if SecondsAfterTick(s, now) >= cfg.postTickMin then ExitPair(s)
      else Hold(s)
    case ExitPending =>
      if BothLegsFlat(s) then
        Decision(None, None, s.(phase := Idle, tick := None, entryStarted := None, targetNotional := 0.0))
      else ExitPair(s)
    case EntryPending =>
      if BothLegsFilled(s) then Decision(None, None, s.(phase := Holding))
      else if Elapsed(s, now) > cfg.fillWindow then ExitPair(s)
      else Hold(s)
    case Idle => EvaluateIdle(now, rate, account, s, cfg)
  }

  // ----- One poll ---------------------------------------------------------------------

  /** The state's fields agree with its phase. */
  predicate Consistent(s: State) {
    match s.phase
    case Idle => s.tick.None? && s.entryStarted.None? && s.targetNotional == 0.0
    case _ => s.tick.Some? && s.entryStarted.Some? && s.targetNotional < 0.0
  }

  /** The arrows of the state machine, staying put included. */
  predicate Arrow(from: Phase, to: Phase) {
    || from == to
    || (from == Idle && to == EntryPending)
    || (from == EntryPending && (to == Holding || to == ExitPending))
    || (from == Holding && to == ExitPending)
    || (from == ExitPending && to == Idle)
  }

  /** Hedged pair: the legs are both absent or exactly opposite. */
  predicate Opposite(d: Decision) {
    (d.perp.None? && d.spot.None?) || (d.perp.Some? && d.spot.Some? && d.perp.value == -d.spot.value)
  }

  lemma PollKeepsConsistency(now: real, rate: RateInfo, account: Account, s: State, cfg: Config)
    requires Consistent(s)
    ensures var d := EvaluateSymbol(now, rate, account, s, cfg);
      && Consistent(d.next) && Arrow(s.phase, d.next.phase) && Opposite(d)
      && d.next.perpSize == s.perpSize && d.next.spotSize == s.spotSize
      && (s.phase == d.next.phase ==> d.next == s)
      && (s.phase != Idle && d.next.phase != Idle ==>
            d.next.tick == s.tick && d.next.entryStarted == s.entryStarted && d.next.targetNotional == s.targetNotional)
  {
  }

  /** What is sent: flat legs while unwinding, the target while pending or held, nothing on fill or in idle. */
  lemma WhatIsSent(now: real, rate: RateInfo, account: Account, s: State, cfg: Config)
    requires Consistent(s)
    ensures var d := EvaluateSymbol(now, rate, account, s, cfg);
      && (d.perp.None? <==> d.next.phase == Idle || (s.phase == EntryPending && d.next.phase == Holding))
      && (d.perp.Some? ==> d.perp.value == if d.next.phase == ExitPending then 0.0 else d.next.targetNotional)
  {
  }

  /** The guard of every arrow: the machine leaves a phase exactly under these conditions. */
  lemma WhyItMoved(now: real, rate: RateInfo, account: Account, s: State, cfg: Config)
    requires Consistent(s)
    ensures var next := EvaluateSymbol(now, rate, account, s, cfg).next.phase;
      && (s.phase == Holding ==>
            (next == ExitPending <==>
               account.available < -s.targetNotional * cfg.earlyExitRatio || now >= s.tick.value + cfg.postTickMin))
      && (s.phase == ExitPending ==> (next == Idle <==> s.perpSize == 0.0 && s.spotSize == 0.0))
      && (s.phase == EntryPending ==>
            (next == Holding <==> LegsCoverTarget(s))
            && (next == ExitPending <==> !LegsCoverTarget(s) && now > s.entryStarted.value + cfg.fillWindow))
  {
    if s.phase == EntryPending {
      FilledMeansCovered(s);
    }
  }

  /** Short perp and long spot, each at least 99% of the target magnitude. */
  predicate LegsCoverTarget(s: State) {
    s.perpSize < 0.0 < s.spotSize && -s.perpSize >= 0.99 * -s.targetNotional && s.spotSize >= 0.99 * -s.targetNotional
  }

  lemma FilledMeansCovered(s: State)
    requires s.targetNotional < 0.0
    ensures BothLegsFilled(s) <==> LegsCoverTarget(s)
  {
    SignOfProduct(s.perpSize, s.targetNotional);
    SignOfProduct(s.spotSize, s.targetNotional);
  }

  lemma SignOfProduct(x: real, t: real)
    requires t < 0.0
    ensures x * t > 0.0 <==> x < 0.0
    ensures x * t < 0.0 <==> x > 0.0
  {
    if x < 0.0 {
      ProductPositive(-x, -t);
    } else if x > 0.0 {
      ProductPositive(x, -t);
    }
  }

  /** An entry is made exactly on a good rate inside the window with capital, for the smaller of offer and share. */
  lemma EntryIsCapped(now: real, rate: RateInfo, account: Account, s: State, cfg: Config)
    requires Consistent(s) && s.phase == Idle
    ensures var next := EvaluateSymbol(now, rate, account, s, cfg).next;
      var share := account.equity * cfg.notionalPerLegPct;
      && (next.phase == EntryPending <==>
            && rate.predicted > cfg.fundingThreshold
            && cfg.preTick - 60.0 <= rate.nextTick - now <= cfg.preTick + 60.0
            && account.available > 0.0 && share > 0.0)
      && (next.phase == EntryPending ==>
            && -next.targetNotional <= account.available && -next.targetNotional <= share
            && (-next.targetNotional == account.available || -next.targetNotional == share)
            && next.tick == Some(rate.nextTick) && next.entryStarted == Some(now))
  {
  }

  /** The guards and the size of an entry under the shipped configuration, in seconds and shares. */
  lemma ShippedGuards(now: real, rate: RateInfo, account: Account, s: State)
    requires Consistent(s)
    ensures var next := EvaluateSymbol(now, rate, account, s, DEFAULT).next;
      match s.phase
      case Idle =>
        && (next.phase == EntryPending <==>
              && rate.predicted > 0.001 && 540.0 <= rate.nextTick - now <= 660.0
              && account.available > 0.0 && account.equity > 0.0)
        && (next.phase == EntryPending ==>
              next.targetNotional
              == -if account.equity * 0.5 <= account.available then account.equity * 0.5 else account.available)
      case EntryPending => next.phase == ExitPending <==> !LegsCoverTarget(s) && now > s.entryStarted.value + 90.0
      case Holding =>
        next.phase == ExitPending <==> account.available < -s.targetNotional * 0.5 || now >= s.tick.value + 60.0
      case ExitPending => next.phase == Idle <==> s.perpSize == 0.0 && s.spotSize == 0.0
  {
    WhyItMoved(now, rate, account, s, DEFAULT);
    hide LegsCoverTarget, BothLegsFilled;
  }

  // ----- Runs ---------------------------------------------------------------------------

  /** One poll: the clock, what the caller quotes, and the leg sizes it has filled in since the last. */
  datatype Poll = Poll(now: real, rate: RateInfo, account: Account, perpSize: real, spotSize: real)

  function WithFills(s: State, p: Poll): State {
    s.(perpSize := p.perpSize, spotSize := p.spotSize)
  }

  function Advance(s: State, p: Poll, cfg: Config): State {
    EvaluateSymbol(p.now, p.rate, p.account, WithFills(s, p), cfg).next
  }

  /** The state after a sequence of polls that starts from a fresh symbol. */
  function After(polls: seq<Poll>, cfg: Config): State {
    if polls == [] then FRESH else Advance(After(Front(polls), cfg), Last(polls), cfg)
  }

  predicate Ordered(polls: seq<Poll>) {
    forall i, j :: 0 <= i < j < |polls| ==> polls[i].now <= polls[j].now
  }

  /** Consecutive polls are at most `gap` apart. */
  predicate GapAtMost(polls: seq<Poll>, gap: real) {
    forall i :: 0 <= i < |polls| - 1 ==> polls[i + 1].now - polls[i].now <= gap
  }

  lemma {:induction false} RunIsConsistent(polls: seq<Poll>, cfg: Config)
    ensures Consistent(After(polls, cfg))
  {
    if polls != [] {
      RunIsConsistent(Front(polls), cfg);
      var s := WithFills(After(Front(polls), cfg), Last(polls));
      PollKeepsConsistency(Last(polls).now, Last(polls).rate, Last(polls).account, s, cfg);
    }
  }

  /** The capture has not begun to unwind. */
  predicate Active(s: State) {
    s.phase == EntryPending || s.phase == Holding
  }

  /** Timing of an active capture after a poll at `now`. */
  predicate OnTime(s: State, now: real, cfg: Config) {
    Active(s) ==>
      && s.tick.Some? && s.entryStarted.Some?
      && cfg.preTick - 60.0 <= s.tick.value - s.entryStarted.value
      && s.entryStarted.value <= now
      && now < s.tick.value + cfg.postTickMin
      && (s.phase == EntryPending ==> now <= s.entryStarted.value + cfg.fillWindow)
  }

  /** The poll gaps that leave no room to become filled after the exit window opened. */
  predicate GapIsSafe(gap: real, cfg: Config) {
    0.0 <= cfg.fillWindow && cfg.fillWindow + gap < cfg.preTick - 60.0 + cfg.postTickMin
  }

  /**
   * After every poll, a capture for tick T that is still active has now < T + post_tick_min:
   * with polls at most `gap` apart it is unwinding by T + post_tick_min + gap.
   */
  lemma {:induction false} CapturesEndOnTime(polls: seq<Poll>, gap: real, cfg: Config)
    requires polls != [] && Ordered(polls) && GapAtMost(polls, gap) && 0.0 <= gap && GapIsSafe(gap, cfg)
    ensures OnTime(After(polls, cfg), Last(polls).now, cfg)
  {
    var before, p := Front(polls), Last(polls);
    RunIsConsistent(before, cfg);
    var s := After(before, cfg);
    if before != [] {
      assert Ordered(before) && GapAtMost(before, gap);
      CapturesEndOnTime(before, gap, cfg);
      assert polls[|polls| - 2] == Last(before);
      assert p.now - Last(before).now <= gap;
    }
    WhyItMoved(p.now, p.rate, p.account, WithFills(s, p), cfg);
  }

  /** The poll that begins to unwind a capture for tick T happens before T + post_tick_min + gap. */
  lemma UnwindBeginsByDeadline(polls: seq<Poll>, p: Poll, gap: real, cfg: Config)
    requires polls != [] && Ordered(polls + [p]) && GapAtMost(polls + [p], gap) && 0.0 <= gap && GapIsSafe(gap, cfg)
    requires Active(After(polls, cfg)) && !Active(After(polls + [p], cfg))
    ensures var before, after := After(polls, cfg), After(polls + [p], cfg);
      after.phase == ExitPending && before.tick.Some? && after.tick == before.tick
      && p.now < before.tick.value + cfg.postTickMin + gap
  {
    var all := polls + [p];
    assert Front(all) == polls && all[|polls|] == p && all[|polls| - 1] == Last(polls);
    assert forall i :: 0 <= i < |polls| ==> all[i] == polls[i];
    CapturesEndOnTime(polls, gap, cfg);
    assert all[|polls|].now - all[|polls| - 1].now <= gap;
    RunIsConsistent(polls, cfg);
    PollKeepsConsistency(p.now, p.rate, p.account, WithFills(After(polls, cfg), p), cfg);
  }

  /** Holding is never left before T + post_tick_min except for capital starvation. */
  lemma HoldingEndsEarlyOnlyIfStarved(polls: seq<Poll>, p: Poll, cfg: Config)
    requires After(polls, cfg).phase == Holding && After(polls + [p], cfg).phase != Holding
    ensures var s := After(polls, cfg);
      s.tick.Some?
      && (p.account.available < -s.targetNotional * cfg.earlyExitRatio || p.now >= s.tick.value + cfg.postTickMin)
  {
    RunIsConsistent(polls, cfg);
    assert Front(polls + [p]) == polls;
    WhyItMoved(p.now, p.rate, p.account, WithFills(After(polls, cfg), p), cfg);
  }

  // ----- The gap condition is exact ------------------------------------------------------

  const NO_FILLS := (0.0, 0.0)

  /** Quotes and capital under which a fresh symbol enters at time 0 for the latest possible tick. */
  function LateQuote(cfg: Config, now: real, fills: (real, real)): Poll
    requires cfg.notionalPerLegPct > 0.0
  {
    Poll(now, RateInfo(cfg.fundingThreshold + 1.0, cfg.preTick - 60.0),
         Account(1.0 / cfg.notionalPerLegPct, 1.0), fills.0, fills.1)
  }

  function LateEntry(cfg: Config): State {
    State(EntryPending, Some(cfg.preTick - 60.0), Some(0.0), -1.0, 0.0, 0.0)
  }

  lemma EntersLate(cfg: Config)
    requires cfg.notionalPerLegPct > 0.0
    ensures Advance(FRESH, LateQuote(cfg, 0.0, NO_FILLS), cfg) == LateEntry(cfg)
  {
    assert 1.0 / cfg.notionalPerLegPct * cfg.notionalPerLegPct == 1.0;
  }

  lemma StillWaiting(cfg: Config, now: real)
    requires cfg.notionalPerLegPct > 0.0 && now <= cfg.fillWindow
    ensures Advance(LateEntry(cfg), LateQuote(cfg, now, NO_FILLS), cfg) == LateEntry(cfg)
  {
    assert !BothLegsFilled(LateEntry(cfg));
  }

  lemma {:induction false} WaitUnfilled(cfg: Config, gap: real, until: real, k: nat) returns (polls: seq<Poll>)
    requires cfg.notionalPerLegPct > 0.0 && gap > 0.0
    requires 0.0 <= until <= cfg.fillWindow && until <= Times(k, gap)
    ensures polls != [] && Ordered(polls) && GapAtMost(polls, gap)
    ensures Last(polls).now == until && After(polls, cfg) == LateEntry(cfg)
    decreases k
  {
    var p := LateQuote(cfg, until, NO_FILLS);
    if until == 0.0 {
      polls := [p];
      EntersLate(cfg);
      assert Front(polls) == [];
    } else {
      var earlier := if until <= gap then 0.0 else until - gap;
      TimesMonotone(0, k - 1, gap);
      var before := WaitUnfilled(cfg, gap, earlier, k - 1);
      polls := before + [p];
      assert Front(polls) == before;
      StillWaiting(cfg, until);
    }
  }

  lemma EnoughGaps(time: real, gap: real) returns (k: nat)
    requires gap > 0.0 && time >= 0.0
    ensures time <= Times(k, gap)
  {
    RatioNonNegative(time, gap);
    k := (time / gap).Floor + 1;
    assert time / gap * gap == time;
    ProductNonNegative(k as real - time / gap, gap);
    TimesIsProduct(k, gap);
  }

  lemma LargerGapIsLate(cfg: Config, gap: real) returns (polls: seq<Poll>)
    requires cfg.notionalPerLegPct > 0.0 && gap > 0.0 && 0.0 <= cfg.fillWindow && !GapIsSafe(gap, cfg)
    ensures polls != [] && Ordered(polls) && GapAtMost(polls, gap) && !OnTime(After(polls, cfg), Last(polls).now, cfg)
  {
    var k := EnoughGaps(cfg.fillWindow, gap);
    var before := WaitUnfilled(cfg, gap, cfg.fillWindow, k);
    var filled := LateQuote(cfg, cfg.fillWindow + gap, (-1.0, 1.0));
    polls := before + [filled];
    assert Front(polls) == before;
    FilledMeansCovered(WithFills(LateEntry(cfg), filled));
  }

  /** Every run with that poll gap keeps its captures on time if and only if the gap is safe. */
  lemma TimingIsExact(cfg: Config, gap: real)
    requires cfg.notionalPerLegPct > 0.0 && gap > 0.0 && 0.0 <= cfg.fillWindow
    ensures GapIsSafe(gap, cfg) <==>
      forall polls: seq<Poll> ::
        polls != [] && Ordered(polls) && GapAtMost(polls, gap) ==> OnTime(After(polls, cfg), Last(polls).now, cfg)
  {
    if GapIsSafe(gap, cfg) {
      forall polls: seq<Poll> | polls != [] && Ordered(polls) && GapAtMost(polls, gap)
        ensures OnTime(After(polls, cfg), Last(polls).now, cfg)
      {
        CapturesEndOnTime(polls, gap, cfg);
      }
    } else {
      var polls := LargerGapIsLate(cfg, gap);
    }
  }

  // ----- How often one tick can be entered -------------------------------------------------

  predicate Enters(s: State, p: Poll, cfg: Config) {
    s.phase == Idle && Advance(s, p, cfg).phase == EntryPending
  }

  /** The times at which entries for the funding tick at `tick` were emitted. */
  function EntriesFor(polls: seq<Poll>, tick: real, cfg: Config): seq<real> {
    if polls == [] then []
    else
      var s, p := After(Front(polls), cfg), Last(polls);
      EntriesFor(Front(polls), tick, cfg) + if Enters(s, p, cfg) && p.rate.nextTick == tick then [p.now] else []
  }

  /** The available capital covers the required share of what a held capture has at stake. */
  predicate Sustained(s: State, account: Account, cfg: Config) {
    s.phase == Holding ==> account.available >= -s.targetNotional * cfg.earlyExitRatio
  }

  /** No poll of the run finds a held capture starved of capital. */
  predicate NeverStarved(polls: seq<Poll>, cfg: Config) {
    polls == [] ||
    (NeverStarved(Front(polls), cfg) && Sustained(After(Front(polls), cfg), Last(polls).account, cfg))
  }

  /** How long after the latest possible entry the exit window of the same tick opens. */
  function Slack(cfg: Config): real {
    cfg.preTick - 60.0 + cfg.postTickMin
  }

  /**
   * No entry for `tick` can follow the one at `e` within the fill window: the window is
   * over, or that capture is still active, or the tick's exit window has opened.
   */
  predicate Cooling(s: State, now: real, e: real, tick: real, cfg: Config) {
    e <= now &&
    (e + cfg.fillWindow < now
     || (Active(s) && s.entryStarted == Some(e) && s.tick == Some(tick))
     || tick + cfg.postTickMin <= now)
  }

  lemma CoolingStep(s: State, p: Poll, now: real, e: real, tick: real, cfg: Config)
    requires Consistent(s) && Cooling(s, now, e, tick, cfg) && now <= p.now && 0.0 < Slack(cfg)
    requires Sustained(s, p.account, cfg)
    ensures Cooling(Advance(s, p, cfg), p.now, e, tick, cfg)
    ensures Enters(s, p, cfg) && p.rate.nextTick == tick ==> p.now - e > cfg.fillWindow
  {
    WhyItMoved(p.now, p.rate, p.account, WithFills(s, p), cfg);
  }

  predicate Spaced(times: seq<real>, gap: real) {
    forall i :: 0 <= i < |times| - 1 ==> times[i + 1] - times[i] > gap
  }

  predicate InEntryWindow(times: seq<real>, tick: real, cfg: Config) {
    forall i :: 0 <= i < |times| ==> cfg.preTick - 60.0 <= tick - times[i] <= cfg.preTick + 60.0
  }

  /** The entry times of one tick keep their spacing over one more poll. */
  lemma NextEntry(s: State, p: Poll, now: real, times: seq<real>, tick: real, cfg: Config)
    requires Consistent(s) && now <= p.now && Spaced(times, cfg.fillWindow) && InEntryWindow(times, tick, cfg)
    requires 0.0 < Slack(cfg) && Sustained(s, p.account, cfg)
    requires times != [] ==> Cooling(s, now, Last(times), tick, cfg)
    ensures var next := if Enters(s, p, cfg) && p.rate.nextTick == tick then times + [p.now] else times;
      && Spaced(next, cfg.fillWindow) && InEntryWindow(next, tick, cfg)
      && (next != [] ==> Cooling(Advance(s, p, cfg), p.now, Last(next), tick, cfg))
  {
    if times != [] {
      CoolingStep(s, p, now, Last(times), tick, cfg);
    }
    if Enters(s, p, cfg) {
      EntryIsCapped(p.now, p.rate, p.account, WithFills(s, p), cfg);
    }
  }

  /** While the exit window of a tick opens after its entry window closed, entries are more than a fill window apart. */
  lemma {:induction false} EntriesAreSpaced(polls: seq<Poll>, tick: real, cfg: Config)
    requires Ordered(polls) && NeverStarved(polls, cfg) && 0.0 < Slack(cfg)
    ensures var times := EntriesFor(polls, tick, cfg);
      && Spaced(times, cfg.fillWindow) && InEntryWindow(times, tick, cfg)
      && (times != [] ==> polls != [] && Cooling(After(polls, cfg), Last(polls).now, Last(times), tick, cfg))
  {
    if polls != [] {
      var before, p := Front(polls), Last(polls);
      assert Ordered(before);
      EntriesAreSpaced(before, tick, cfg);
      RunIsConsistent(before, cfg);
      var s, times := After(before, cfg), EntriesFor(before, tick, cfg);
      NextEntry(s, p, if before == [] then p.now else Last(before).now, times, tick, cfg);
      assert EntriesFor(polls, tick, cfg)
          == if Enters(s, p, cfg) && p.rate.nextTick == tick then times + [p.now] else times + [];
    }
  }

  lemma {:induction false} SpreadOfSpaced(times: seq<real>, gap: real)
    requires Spaced(times, gap) && |times| >= 2
    ensures Last(times) - times[0] > Times(|times| - 1, gap)
  {
    assert times[|times| - 1] - times[|times| - 2] > gap;
    if |times| > 2 {
      SpreadOfSpaced(Front(times), gap);
    }
  }

  /** k entries for one tick need (k - 1) fill windows to fit into the 120-second entry window. */
  lemma EntriesPerTick(polls: seq<Poll>, tick: real, cfg: Config)
    requires Ordered(polls) && NeverStarved(polls, cfg) && 0.0 < Slack(cfg)
    ensures FewEntries(EntriesFor(polls, tick, cfg), cfg)
  {
    var times := EntriesFor(polls, tick, cfg);
    EntriesAreSpaced(polls, tick, cfg);
    WindowHolds(times, tick, cfg);
  }

  predicate FewEntries(times: seq<real>, cfg: Config) {
    |times| >= 1 ==> Times(|times| - 1, cfg.fillWindow) < 120.0
  }

  lemma WindowHolds(times: seq<real>, tick: real, cfg: Config)
    requires Spaced(times, cfg.fillWindow) && InEntryWindow(times, tick, cfg)
    ensures FewEntries(times, cfg)
  {
    if |times| >= 2 {
      SpreadOfSpaced(times, cfg.fillWindow);
      assert tick - times[0] <= cfg.preTick + 60.0 && cfg.preTick - 60.0 <= tick - times[|times| - 1];
    }
  }

  /** With the shipped configuration a tick is entered at most twice. */
  lemma AtMostTwoEntries(polls: seq<Poll>, tick: real)
    requires Ordered(polls) && NeverStarved(polls, DEFAULT)
    ensures |EntriesFor(polls, tick, DEFAULT)| <= 2
  {
    EntriesPerTick(polls, tick, DEFAULT);
    assert Times(2, 90.0) == 180.0;
    var k := |EntriesFor(polls, tick, DEFAULT)|;
    if k > 2 {
      TimesMonotone(2, k - 1, 90.0);
      assert false;
    }
  }

  // ----- ... and exactly when ------------------------------------------------------------------

  /** A poll at time 0 that quotes the latest possible tick and never lacks capital. */
  function Eager(cfg: Config, fills: (real, real)): Poll
    requires cfg.notionalPerLegPct > 0.0
  {
    Poll(0.0, RateInfo(cfg.fundingThreshold + 1.0, cfg.preTick - 60.0),
         Account(1.0 / cfg.notionalPerLegPct, Max(1.0, cfg.earlyExitRatio)), fills.0, fills.1)
  }

  /** Enter, fill, leave through the open exit window, be flat again: all at time 0. */
  function Churn(k: nat, cfg: Config): seq<Poll>
    requires cfg.notionalPerLegPct > 0.0
  {
    if k == 0 then []
    else Churn(k - 1, cfg) + [Eager(cfg, NO_FILLS)] + [Eager(cfg, (-1.0, 1.0))]
         + [Eager(cfg, (-1.0, 1.0))] + [Eager(cfg, NO_FILLS)]
  }

  lemma EagerSteps(cfg: Config)
    requires cfg.notionalPerLegPct > 0.0 && Slack(cfg) <= 0.0
    ensures var entered := LateEntry(cfg); var held := entered.(phase := Holding, perpSize := -1.0, spotSize := 1.0);
      && Enters(FRESH, Eager(cfg, NO_FILLS), cfg)
      && Advance(FRESH, Eager(cfg, NO_FILLS), cfg) == entered
      && Advance(entered, Eager(cfg, (-1.0, 1.0)), cfg) == held
      && Sustained(held, Eager(cfg, (-1.0, 1.0)).account, cfg)
      && Advance(held, Eager(cfg, (-1.0, 1.0)), cfg) == held.(phase := ExitPending)
      && Advance(held.(phase := ExitPending), Eager(cfg, NO_FILLS), cfg) == FRESH
  {
    assert 1.0 / cfg.notionalPerLegPct * cfg.notionalPerLegPct == 1.0;
    FilledMeansCovered(WithFills(LateEntry(cfg), Eager(cfg, (-1.0, 1.0))));
  }

  lemma Appended(polls: seq<Poll>, p: Poll, tick: real, cfg: Config)
    ensures After(polls + [p], cfg) == Advance(After(polls, cfg), p, cfg)
    ensures NeverStarved(polls + [p], cfg) <==>
      NeverStarved(polls, cfg) && Sustained(After(polls, cfg), p.account, cfg)
    ensures EntriesFor(polls + [p], tick, cfg) == EntriesFor(polls, tick, cfg) +
      (if Enters(After(polls, cfg), p, cfg) && p.rate.nextTick == tick then [p.now] else [])
  {
    assert Front(polls + [p]) == polls;
  }

  lemma {:induction false} ChurnEnters(k: nat, cfg: Config)
    requires cfg.notionalPerLegPct > 0.0 && Slack(cfg) <= 0.0
    ensures var polls := Churn(k, cfg); var times := EntriesFor(polls, cfg.preTick - 60.0, cfg);
      && After(polls, cfg) == FRESH && NeverStarved(polls, cfg)
      && |times| == k && forall i :: 0 <= i < k ==> times[i] == 0.0
    ensures forall i :: 0 <= i < |Churn(k, cfg)| ==> Churn(k, cfg)[i].now == 0.0
  {
    if k > 0 {
      ChurnEnters(k - 1, cfg);
      hide After, NeverStarved, EntriesFor, Eager;
      OneCycle(Churn(k - 1, cfg), cfg);
      assert Eager(cfg, NO_FILLS).now == Eager(cfg, (-1.0, 1.0)).now == 0.0 by {
        EagerNow(cfg);
      }
    }
  }

  lemma EagerNow(cfg: Config)
    requires cfg.notionalPerLegPct > 0.0
    ensures forall fills :: Eager(cfg, fills).now == 0.0 && Eager(cfg, fills).rate.nextTick == cfg.preTick - 60.0
  {
  }

  lemma OneCycle(before: seq<Poll>, cfg: Config)
    requires cfg.notionalPerLegPct > 0.0 && Slack(cfg) <= 0.0 && After(before, cfg) == FRESH
    requires NeverStarved(before, cfg)
    ensures var tick, open, filled := cfg.preTick - 60.0, Eager(cfg, NO_FILLS), Eager(cfg, (-1.0, 1.0));
      var after := before + [open] + [filled] + [filled] + [open];
      && After(after, cfg) == FRESH && NeverStarved(after, cfg)
      && EntriesFor(after, tick, cfg) == EntriesFor(before, tick, cfg) + [0.0]
  {
    EagerSteps(cfg);
    EagerNow(cfg);
    var tick, open, filled := cfg.preTick - 60.0, Eager(cfg, NO_FILLS), Eager(cfg, (-1.0, 1.0));
    hide After, NeverStarved, EntriesFor, Advance, Eager;
    Appended(before, open, tick, cfg);
    Appended(before + [open], filled, tick, cfg);
    Appended(before + [open] + [filled], filled, tick, cfg);
    Appended(before + [open] + [filled] + [filled], open, tick, cfg);
    var times := EntriesFor(before, tick, cfg) + [0.0];
    assert times + [] == times;
  }

  /** In a run without starvation exits, the entries for one tick are spaced and few. */
  predicate WellSpaced(polls: seq<Poll>, tick: real, cfg: Config) {
    Ordered(polls) && NeverStarved(polls, cfg) ==> Spaced(EntriesFor(polls, tick, cfg), cfg.fillWindow)
  }

  predicate Few(polls: seq<Poll>, tick: real, cfg: Config) {
    Ordered(polls) && NeverStarved(polls, cfg) ==> FewEntries(EntriesFor(polls, tick, cfg), cfg)
  }

  lemma {:induction false} NothingTimes(k: nat, x: real)
    requires x <= 0.0
    ensures Times(k, x) <= 0.0
  {
    if k > 0 {
      NothingTimes(k - 1, x);
    }
  }

  /** All runs space their entries exactly when the exit window opens late enough; otherwise they can even coincide. */
  lemma SpacingIff(cfg: Config)
    requires cfg.notionalPerLegPct > 0.0
    ensures (forall polls: seq<Poll>, tick: real :: WellSpaced(polls, tick, cfg))
       <==> 0.0 < Slack(cfg) || cfg.fillWindow < 0.0
  {
    if 0.0 < Slack(cfg) || cfg.fillWindow < 0.0 {
      forall polls: seq<Poll>, tick: real
        ensures WellSpaced(polls, tick, cfg)
      {
        if Ordered(polls) && NeverStarved(polls, cfg) {
          if 0.0 < Slack(cfg) {
            EntriesAreSpaced(polls, tick, cfg);
          } else {
            if polls != [] {
              EntriesAreOrdered(polls, tick, cfg);
            }
            hide NeverStarved;
          }
        }
      }
    } else {
      var polls, tick := Churn(2, cfg), cfg.preTick - 60.0;
      ChurnEnters(2, cfg);
      hide Churn, EntriesFor, NeverStarved;
      var times := EntriesFor(polls, tick, cfg);
      assert times[0 + 1] - times[0] == 0.0;
      assert !WellSpaced(polls, tick, cfg);
    }
  }

  /** Times in order, none after `now`. */
  predicate OrderedBy(times: seq<real>, now: real) {
    && (forall i, j :: 0 <= i < j < |times| ==> times[i] <= times[j])
    && (forall i :: 0 <= i < |times| ==> times[i] <= now)
  }

  lemma {:induction false} EntriesAreOrdered(polls: seq<Poll>, tick: real, cfg: Config)
    requires Ordered(polls) && polls != []
    ensures OrderedBy(EntriesFor(polls, tick, cfg), Last(polls).now)
  {
    var before, p := Front(polls), Last(polls);
    var times := EntriesFor(before, tick, cfg);
    if before != [] {
      assert Ordered(before);
      EntriesAreOrdered(before, tick, cfg);
      assert Last(before).now <= p.now;
    }
    assert EntriesFor(polls, tick, cfg)
        == times + if Enters(After(before, cfg), p, cfg) && p.rate.nextTick == tick then [p.now] else [];
    hide Enters, After;
  }

  /** The count of entries is limited by the entry window exactly when the exit window opens late enough. */
  lemma EntryCountIff(cfg: Config)
    requires cfg.notionalPerLegPct > 0.0
    ensures (forall polls: seq<Poll>, tick: real :: Few(polls, tick, cfg))
       <==> 0.0 < Slack(cfg) || cfg.fillWindow <= 0.0
  {
    if 0.0 < Slack(cfg) || cfg.fillWindow <= 0.0 {
      forall polls: seq<Poll>, tick: real
        ensures Few(polls, tick, cfg)
      {
        if Ordered(polls) && NeverStarved(polls, cfg) {
          if 0.0 < Slack(cfg) {
            EntriesPerTick(polls, tick, cfg);
          } else if |EntriesFor(polls, tick, cfg)| >= 1 {
            NothingTimes(|EntriesFor(polls, tick, cfg)| - 1, cfg.fillWindow);
          }
        }
      }
    } else {
      var k := EnoughGaps(120.0, cfg.fillWindow);
      var polls, tick := Churn(k + 1, cfg), cfg.preTick - 60.0;
      ChurnEnters(k + 1, cfg);
      hide Churn, EntriesFor, NeverStarved;
      assert !Few(polls, tick, cfg);
    }
  }

  /** Two is attained: an unfilled entry at T - 660 is unwound and retried inside the same window. */
  lemma TwoEntriesHappen()
    ensures exists polls: seq<Poll> ::
      Ordered(polls) && NeverStarved(polls, DEFAULT) && |EntriesFor(polls, 660.0, DEFAULT)| == 2
  {
    var rate, account := RateInfo(1.0, 660.0), Account(2.0, 1.0);
    var p0, p1 := Poll(0.0, rate, account, 0.0, 0.0), Poll(91.0, rate, account, 0.0, 0.0);
    var one, two, three, four := [p0], [p0, p1], [p0, p1, p1], [p0, p1, p1, p1];
    assert Front(one) == [] && Front(two) == one && Front(three) == two && Front(four) == three;
    var s1 := State(EntryPending, Some(660.0), Some(0.0), -1.0, 0.0, 0.0);
    assert After(one, DEFAULT) == s1;
    assert !BothLegsFilled(WithFills(s1, p1));
    assert After(two, DEFAULT) == s1.(phase := ExitPending);
    assert After(three, DEFAULT) == FRESH;
    assert After(four, DEFAULT) == s1.(entryStarted := Some(91.0));
    assert EntriesFor(one, 660.0, DEFAULT) == [0.0];
    assert EntriesFor(two, 660.0, DEFAULT) == [0.0] && EntriesFor(three, 660.0, DEFAULT) == [0.0];
    assert EntriesFor(four, 660.0, DEFAULT) == [0.0, 91.0];
    assert NeverStarved(one, DEFAULT);
    assert NeverStarved(two, DEFAULT);
    assert NeverStarved(three, DEFAULT);
    assert NeverStarved(four, DEFAULT);
  }

  // ----- evaluate: every symbol with a state or a quote ---------------------------------------

  /** The quote that stands in for a missing one: rate 0, an hour ahead. */
  function Placeholder(now: real): RateInfo {
    RateInfo(0.0, now + 3600.0)
  }

  function Evaluate(now: real, rates: map<string, RateInfo>, account: Account, states: map<string, State>,
                    cfg: Config): (decisions: map<string, Decision>)
    ensures decisions.Keys == rates.Keys + states.Keys
    ensures forall coin :: coin in decisions ==>
      decisions[coin] == EvaluateSymbol(now, if coin in rates then rates[coin] else Placeholder(now), account,
                                        if coin in states then states[coin] else FRESH, cfg)
  {
    map coin | coin in rates.Keys + states.Keys ::
      EvaluateSymbol(now, if coin in rates then rates[coin] else Placeholder(now), account,
                     if coin in states then states[coin] else FRESH, cfg)
  }

  /** The stand-in quote can never open a capture exactly when the threshold or the window rules it out. */
  lemma PlaceholderNeverEnters(cfg: Config)
    requires cfg.notionalPerLegPct > 0.0
    ensures (forall now: real, account: Account, s: State ::
               s.phase == Idle ==> EvaluateSymbol(now, Placeholder(now), account, s, cfg).next.phase == Idle)
       <==> cfg.fundingThreshold >= 0.0 || cfg.preTick < 3540.0 || cfg.preTick > 3660.0
  {
    if cfg.fundingThreshold < 0.0 && 3540.0 <= cfg.preTick <= 3660.0 {
      var account := Account(1.0 / cfg.notionalPerLegPct, 1.0);
      assert account.equity * cfg.notionalPerLegPct == 1.0;
      assert EvaluateSymbol(0.0, Placeholder(0.0), account, FRESH, cfg).next.phase == EntryPending;
      assert FRESH.phase == Idle;
    }
  }

  // ----- The live loop: every decision's next state goes back into the next call ------------------

  /** One call of `evaluate`, with the leg sizes the caller has filled in since the last. */
  datatype Round = Round(now: real, rates: map<string, RateInfo>, account: Account, fills: string -> (real, real))

  function WithAllFills(states: map<string, State>, fills: string -> (real, real)): map<string, State> {
    map coin | coin in states :: states[coin].(perpSize := fills(coin).0, spotSize := fills(coin).1)
  }

  /** What the caller holds after these rounds, starting from nothing. */
  function Live(rounds: seq<Round>, cfg: Config): map<string, State> {
    if rounds == [] then map[]
    else
      var r := Last(rounds);
      var decisions := Evaluate(r.now, r.rates, r.account, WithAllFills(Live(Front(rounds), cfg), r.fills), cfg);
      map coin | coin in decisions :: decisions[coin].next
  }

  /** The polls one coin sees: from its first quote on, one a round, on the stand-in where its quote is missing. */
  function PollsOf(rounds: seq<Round>, coin: string): seq<Poll> {
    if rounds == [] then []
    else
      var before, r := PollsOf(Front(rounds), coin), Last(rounds);
      if before == [] && coin !in r.rates then []
      else before + [PollAt(r, coin, before == [])]
  }

  /** A coin that has just appeared has no legs yet. */
  function PollAt(r: Round, coin: string, first: bool): Poll {
    Poll(r.now, if coin in r.rates then r.rates[coin] else Placeholder(r.now), r.account,
         if first then 0.0 else r.fills(coin).0, if first then 0.0 else r.fills(coin).1)
  }

  /** Each coin under `evaluate` lives exactly the single-symbol run of its own polls, whatever the other coins do. */
  lemma {:induction false} EveryCoinRunsAlone(rounds: seq<Round>, coin: string, cfg: Config)
    ensures coin in Live(rounds, cfg) <==> PollsOf(rounds, coin) != []
    ensures coin in Live(rounds, cfg) ==> Live(rounds, cfg)[coin] == After(PollsOf(rounds, coin), cfg)
  {
    if rounds != [] {
      EveryCoinRunsAlone(Front(rounds), coin, cfg);
      var before, polls := PollsOf(Front(rounds), coin), PollsOf(rounds, coin);
      assert polls != [] ==> Front(polls) == before;
      hide EvaluateSymbol;
    }
  }

  /** A coin's polls are the latest rounds, one each. */
  lemma {:induction false} PollsAreRounds(rounds: seq<Round>, coin: string)
    ensures var polls := PollsOf(rounds, coin);
      && |polls| <= |rounds|
      && forall i :: 0 <= i < |polls| ==> polls[i].now == rounds[|rounds| - |polls| + i].now
  {
    if rounds != [] {
      PollsAreRounds(Front(rounds), coin);
    }
  }

  predicate RoundsOrdered(rounds: seq<Round>) {
    forall i, j :: 0 <= i < j < |rounds| ==> rounds[i].now <= rounds[j].now
  }

  predicate RoundGapAtMost(rounds: seq<Round>, gap: real) {
    forall i :: 0 <= i < |rounds| - 1 ==> rounds[i + 1].now - rounds[i].now <= gap
  }

  /**
   * Under `evaluate`, every coin's state is consistent, and its capture ends on time if the rounds come
   * often enough.
   */
  lemma EveryCoinEndsOnTime(rounds: seq<Round>, coin: string, gap: real, cfg: Config)
    requires RoundsOrdered(rounds) && RoundGapAtMost(rounds, gap) && 0.0 <= gap && GapIsSafe(gap, cfg)
    ensures coin in Live(rounds, cfg) ==>
      Consistent(Live(rounds, cfg)[coin]) && OnTime(Live(rounds, cfg)[coin], Last(rounds).now, cfg)
  {
    EveryCoinRunsAlone(rounds, coin, cfg);
    PollsAreRounds(rounds, coin);
    var polls := PollsOf(rounds, coin);
    if polls != [] {
      assert Last(polls).now == Last(rounds).now;
      hide Live, PollsOf, OnTime, Consistent, After;
      RunIsConsistent(polls, cfg);
      CapturesEndOnTime(polls, gap, cfg);
    }
  }

  /** The times at which a coin entered for a tick. */
  function EntriesOf(rounds: seq<Round>, coin: string, tick: real, cfg: Config): seq<real> {
    if rounds == [] then []
    else
      var before, r := EntriesOf(Front(rounds), coin, tick, cfg), Last(rounds);
      var was, now := PhaseOf(Live(Front(rounds), cfg), coin), PhaseOf(Live(rounds, cfg), coin);
      if was == Idle && now == EntryPending && coin in Live(rounds, cfg) && Live(rounds, cfg)[coin].tick == Some(tick)
      then before + [r.now] else before
  }

  function PhaseOf(states: map<string, State>, coin: string): Phase {
    if coin in states then states[coin].phase else Idle
  }

  /** No round finds that coin holding and starved of capital. */
  predicate CoinNeverStarved(rounds: seq<Round>, coin: string, cfg: Config) {
    NeverStarved(PollsOf(rounds, coin), cfg)
  }

  lemma {:induction false} EntriesAreEntries(rounds: seq<Round>, coin: string, tick: real, cfg: Config)
    ensures EntriesOf(rounds, coin, tick, cfg) == EntriesFor(PollsOf(rounds, coin), tick, cfg)
  {
    if rounds != [] {
      var before, polls := PollsOf(Front(rounds), coin), PollsOf(rounds, coin);
      EntriesAreEntries(Front(rounds), coin, tick, cfg);
      EveryCoinRunsAlone(Front(rounds), coin, cfg);
      EveryCoinRunsAlone(rounds, coin, cfg);
      if polls != [] {
        assert Front(polls) == before;
        EntersFor(After(before, cfg), Last(polls), before, cfg);
        hide Live, Advance;
        Appended(before, Last(polls), tick, cfg);
        assert before + [Last(polls)] == polls;
      }
    }
  }

  /** An entry is for the tick that is quoted. */
  lemma EntersFor(s: State, p: Poll, before: seq<Poll>, cfg: Config)
    requires s == After(before, cfg)
    ensures Enters(s, p, cfg) ==> Advance(s, p, cfg).tick == Some(p.rate.nextTick)
  {
    RunIsConsistent(before, cfg);
  }

  /** Under `evaluate`, the entries of every coin for one tick are spaced and few. */
  lemma EveryCoinEntersRarely(rounds: seq<Round>, coin: string, tick: real, cfg: Config)
    requires RoundsOrdered(rounds) && CoinNeverStarved(rounds, coin, cfg) && 0.0 < Slack(cfg)
    ensures Spaced(EntriesOf(rounds, coin, tick, cfg), cfg.fillWindow)
    ensures FewEntries(EntriesOf(rounds, coin, tick, cfg), cfg)
  {
    PollsAreRounds(rounds, coin);
    EntriesAreEntries(rounds, coin, tick, cfg);
    var polls := PollsOf(rounds, coin);
    assert Ordered(polls);
    hide PollsOf, EntriesOf, EntriesFor, NeverStarved, Cooling;
    EntriesAreSpaced(polls, tick, cfg);
    EntriesPerTick(polls, tick, cfg);
  }
}
