// src/dashboard_api/bus.py: bounded fan-out with drop-oldest queues.
//
// `Solo` is the life of one subscriber on its own: what its object holds, together with
// the full log of messages that matched it, how many of them have left its queue, which
// ones it received, and when it dropped. The bus is shown to be nothing more than
// independent solos.
module Bus {
  import opened Prelude

  const ALL_CHANNELS: set<string> :=
    {"equity", "tick", "position", "fill", "signal", "risk_event", "orderbook", "heartbeat"}

  predicate Known(channel: string) {
    channel in ALL_CHANNELS
  }

  /** `drop_timestamps` is a `deque(maxlen=200)`. */
  const DROP_HISTORY: nat := 200

  /** `ts` is the time stamp of the payload. */
  datatype Message = Message(channel: string, symbol: Option<string>, ts: Option<real>, payload: int)

  /** `publish` stamps what is not stamped yet. */
  function Stamped(m: Message, wall: real): Message {
    if m.ts.None? then m.(ts := Some(wall)) else m
  }

  /** What the monotonic clock reads while subscriber i is served, should it have to drop. */
  type Readings = nat -> real

  /** `queueSize <= 0` makes an `asyncio.Queue` unbounded. */
  datatype Config = Config(queueSize: int, slowThreshold: int, slowWindow: real)

  const DEFAULT := Config(1000, 100, 10.0)

  /** What a consumer subscribed to; `None` means all symbols. */
  datatype Interest = Interest(channels: set<string>, symbols: Option<set<string>>)

  predicate Matches(interest: Interest, m: Message) {
    m.channel in interest.channels &&
    (interest.symbols.None? || m.symbol.None? || m.symbol.value in interest.symbols.value)
  }

  datatype Solo = Solo(
    interest: Interest, queue: seq<Message>, drops: nat, dropTimes: seq<real>, slow: bool, closed: bool,
    log: seq<Message>, gone: nat, received: seq<nat>, dropLog: seq<real>)

  // ----- One subscriber ------------------------------------------------------------------

  predicate Full(queue: seq<Message>, cfg: Config) {
    cfg.queueSize > 0 && |queue| >= cfg.queueSize
  }

  function NewSolo(interest: Interest): Solo {
    Solo(interest, [], 0, [], false, false, [], 0, [], [])
  }

  /** `_deliver`: append, or drop the oldest message and append. */
  function Deliver(s: Solo, m: Message, now: real, cfg: Config): Solo {
    if !Full(s.queue, cfg) then s.(queue := s.queue + [m], log := s.log + [m])
    else
      var times := LastN(s.dropTimes + [now], DROP_HISTORY);
      s.(queue := s.queue[1..] + [m], log := s.log + [m], gone := s.gone + 1,
         drops := s.drops + 1, dropTimes := times, dropLog := s.dropLog + [now],
         slow := s.slow || CountSince(times, now - cfg.slowWindow) >= cfg.slowThreshold)
  }

  /** One subscriber's part of `publish`. */
  function Hear(s: Solo, m: Message, now: real, cfg: Config): Solo {
    if s.closed || !Matches(s.interest, m) then s else Deliver(s, m, now, cfg)
  }

  /** A completed `get`; on an empty queue the call is still waiting. */
  function Take(s: Solo): Solo {
    if s.queue == [] then s
    else s.(queue := s.queue[1..], gone := s.gone + 1, received := s.received + [s.gone])
  }

  predicate StrictlyIncreasing(ks: seq<nat>) {
    forall i, j :: 0 <= i < j < |ks| ==> ks[i] < ks[j]
  }

  /** The queue is the newest stretch of the log, and every logged message is received, queued or dropped. */
  predicate SoloValid(s: Solo, cfg: Config) {
    && s.gone <= |s.log| && s.queue == s.log[s.gone..]
    && (cfg.queueSize > 0 ==> |s.queue| <= cfg.queueSize)
    && s.gone == |s.received| + s.drops
    && StrictlyIncreasing(s.received)
    && (forall i :: 0 <= i < |s.received| ==> s.received[i] < s.gone)
    && (forall i :: 0 <= i < |s.log| ==> Matches(s.interest, s.log[i]))
    && s.dropTimes == LastN(s.dropLog, DROP_HISTORY) && |s.dropLog| == s.drops
    && (s.slow <==> FlaggedByDeque(s.dropLog, cfg))
  }

  /** Some drop found at least `slowThreshold` timestamps of the bounded deque in its trailing window. */
  predicate FlaggedByDeque(drops: seq<real>, cfg: Config) {
    exists k :: 0 <= k < |drops| &&
      CountSince(LastN(drops[..k + 1], DROP_HISTORY), drops[k] - cfg.slowWindow) >= cfg.slowThreshold
  }

  lemma FlagStep(drops: seq<real>, now: real, cfg: Config)
    ensures FlaggedByDeque(drops + [now], cfg)
       <==> FlaggedByDeque(drops, cfg)
            || CountSince(LastN(drops + [now], DROP_HISTORY), now - cfg.slowWindow) >= cfg.slowThreshold
  {
    hide CountSince, LastN;
    var all := drops + [now];
    assert all[..|all|] == all;
    assert forall k :: 0 <= k < |drops| ==> all[..k + 1] == drops[..k + 1] && all[k] == drops[k];
    if FlaggedByDeque(drops, cfg) {
      var k :| 0 <= k < |drops|
               && CountSince(LastN(drops[..k + 1], DROP_HISTORY), drops[k] - cfg.slowWindow) >= cfg.slowThreshold;
      assert all[..k + 1] == drops[..k + 1] && all[k] == drops[k];
    }
    if CountSince(LastN(all, DROP_HISTORY), now - cfg.slowWindow) >= cfg.slowThreshold {
      assert all[..|drops| + 1] == all && all[|drops|] == now;
    }
  }

  lemma DeliverKeepsValid(s: Solo, m: Message, now: real, cfg: Config)
    requires SoloValid(s, cfg) && Matches(s.interest, m)
    ensures SoloValid(Deliver(s, m, now, cfg), cfg)
  {
    if Full(s.queue, cfg) {
      FlagStep(s.dropLog, now, cfg);
      LastNSnoc(s.dropLog, now, DROP_HISTORY);
      hide FlaggedByDeque, CountSince, LastN;
      assert s.queue[1..] + [m] == (s.log + [m])[s.gone + 1..];
    } else {
      hide FlaggedByDeque, CountSince, LastN;
      assert s.queue + [m] == (s.log + [m])[s.gone..];
    }
  }

  lemma HearKeepsValid(s: Solo, m: Message, now: real, cfg: Config)
    requires SoloValid(s, cfg)
    ensures SoloValid(Hear(s, m, now, cfg), cfg)
  {
    hide SoloValid;
    if !s.closed && Matches(s.interest, m) {
      DeliverKeepsValid(s, m, now, cfg);
    }
  }

  /** A get hands out the oldest queued message, which is the log entry it records. */
  lemma TakeKeepsValid(s: Solo, cfg: Config)
    requires SoloValid(s, cfg)
    ensures SoloValid(Take(s), cfg)
    ensures s.queue != [] ==> s.queue[0] == s.log[Last(Take(s).received)]
  {
    hide FlaggedByDeque, LastN;
  }

  // ----- The slow flag: bounded deque against the full history ------------------------------

  predicate Nondecreasing(times: seq<real>) {
    forall i, j :: 0 <= i < j < |times| ==> times[i] <= times[j]
  }

  /** Some drop had at least `slowThreshold` drops of the whole history in its trailing window. */
  predicate FlaggedByHistory(drops: seq<real>, cfg: Config) {
    exists k :: 0 <= k < |drops| && CountSince(drops[..k + 1], drops[k] - cfg.slowWindow) >= cfg.slowThreshold
  }

  lemma {:induction false} CountAll(times: seq<real>, cutoff: real)
    ensures CountSince(times, cutoff) <= |times|
    ensures (forall i :: 0 <= i < |times| ==> times[i] >= cutoff) ==> CountSince(times, cutoff) == |times|
    ensures (forall i :: 0 <= i < |times| ==> times[i] < cutoff) ==> CountSince(times, cutoff) == 0
  {
    if times != [] {
      CountAll(Front(times), cutoff);
      assert times[|times| - 1] == Last(times);
    }
  }

  lemma {:induction false} CountSplit(a: seq<real>, b: seq<real>, cutoff: real)
    ensures CountSince(a + b, cutoff) == CountSince(a, cutoff) + CountSince(b, cutoff)
  {
    if b == [] {
      assert a + b == a;
    } else {
      CountSplit(a, Front(b), cutoff);
      assert Front(a + b) == a + Front(b);
    }
  }

  /** Forgetting all but the last `n` of an ordered history caps the count at `n` and changes nothing else. */
  lemma CountInTail(times: seq<real>, n: nat, cutoff: real)
    requires Nondecreasing(times)
    ensures var c := CountSince(times, cutoff);
      CountSince(LastN(times, n), cutoff) == if c <= n then c else n
  {
    hide CountSince;
    CountAll(times, cutoff);
    if |times| > n {
      var head, tail := times[..|times| - n], LastN(times, n);
      assert times == head + tail;
      CountSplit(head, tail, cutoff);
      CountAll(head, cutoff);
      CountAll(tail, cutoff);
      if n > 0 && tail[0] < cutoff {
        assert forall i :: 0 <= i < |head| ==> head[i] <= tail[0];
      } else {
        assert forall i :: 0 <= i < |tail| ==> tail[i] >= cutoff;
      }
    }
  }

  /** With a threshold of at most 200, the 200-entry deque flags exactly the histories that deserve it. */
  lemma SlowDetectorIsExact(drops: seq<real>, cfg: Config)
    requires Nondecreasing(drops) && cfg.slowThreshold <= 200
    ensures FlaggedByDeque(drops, cfg) <==> FlaggedByHistory(drops, cfg)
  {
    forall k | 0 <= k < |drops|
      ensures CountSince(LastN(drops[..k + 1], DROP_HISTORY), drops[k] - cfg.slowWindow) >= cfg.slowThreshold
         <==> CountSince(drops[..k + 1], drops[k] - cfg.slowWindow) >= cfg.slowThreshold
    {
      CountInTail(drops[..k + 1], DROP_HISTORY, drops[k] - cfg.slowWindow);
    }
  }

  /** Beyond 200 the flag is dead: it can never be set, whatever the history. */
  lemma LargeThresholdNeverFlags(drops: seq<real>, cfg: Config)
    requires cfg.slowThreshold > 200
    ensures !FlaggedByDeque(drops, cfg)
  {
    forall k | 0 <= k < |drops|
      ensures CountSince(LastN(drops[..k + 1], DROP_HISTORY), drops[k] - cfg.slowWindow) < cfg.slowThreshold
    {
      CountAll(LastN(drops[..k + 1], DROP_HISTORY), drops[k] - cfg.slowWindow);
    }
  }

  /** The two detectors agree on every ordered history exactly when the threshold fits into the deque. */
  lemma DetectorsAgreeIff(cfg: Config)
    requires cfg.slowWindow >= 0.0
    ensures (forall drops :: Nondecreasing(drops) ==> (FlaggedByDeque(drops, cfg) <==> FlaggedByHistory(drops, cfg)))
       <==> cfg.slowThreshold <= 200
  {
    if cfg.slowThreshold <= 200 {
      forall drops | Nondecreasing(drops)
        ensures FlaggedByDeque(drops, cfg) <==> FlaggedByHistory(drops, cfg)
      {
        SlowDetectorIsExact(drops, cfg);
      }
    } else {
      var burst := seq(cfg.slowThreshold, i => 0.0);
      assert Nondecreasing(burst);
      LargeThresholdNeverFlags(burst, cfg);
      CountAll(burst, 0.0 - cfg.slowWindow);
      assert burst[..cfg.slowThreshold - 1 + 1] == burst && burst[cfg.slowThreshold - 1] == 0.0;
      assert FlaggedByHistory(burst, cfg);
    }
  }

  // ----- The bus as a function of its events ---------------------------------------------------

  datatype BusState = BusState(solos: seq<Solo>, published: nat, dropped: nat)

  datatype Event =
    | Subscribe(interest: Interest)
    | Unsubscribe(id: nat)
    | Publish(message: Message, wall: real, clock: Readings)
    | Get(id: nat)

  function HearAll(solos: seq<Solo>, m: Message, clock: Readings, cfg: Config): (out: seq<Solo>)
    ensures |out| == |solos|
    ensures forall i :: 0 <= i < |solos| ==> out[i] == Hear(solos[i], m, clock(i), cfg)
  {
    if solos == [] then [] else HearAll(Front(solos), m, clock, cfg) + [Hear(Last(solos), m, clock(|solos| - 1), cfg)]
  }

  /** How many subscribers lose a message to this publish. */
  function Losers(solos: seq<Solo>, m: Message, cfg: Config): nat {
    if solos == [] then 0
    else
      var s := Last(solos);
      Losers(Front(solos), m, cfg) + if !s.closed && Matches(s.interest, m) && Full(s.queue, cfg) then 1 else 0
  }

  function BusStep(b: BusState, e: Event, cfg: Config): BusState {
    match e
    case Subscribe(interest) => b.(solos := b.solos + [NewSolo(interest)])
    case Unsubscribe(id) =>
      if id < |b.solos| then b.(solos := b.solos[id := b.solos[id].(closed := true)]) else b
    case Publish(m, wall, clock) =>
      if !Known(m.channel) then b
      else
        var stamped := Stamped(m, wall);
        BusState(HearAll(b.solos, stamped, clock, cfg), b.published + 1, b.dropped + Losers(b.solos, stamped, cfg))
    case Get(id) => if id < |b.solos| then b.(solos := b.solos[id := Take(b.solos[id])]) else b
  }

  function After(events: seq<Event>, cfg: Config): BusState {
    if events == [] then BusState([], 0, 0) else BusStep(After(Front(events), cfg), Last(events), cfg)
  }

  /** The drops of all subscribers together, unsubscribed ones included. */
  function TotalDrops(solos: seq<Solo>): nat {
    if solos == [] then 0 else TotalDrops(Front(solos)) + Last(solos).drops
  }

  predicate BusValid(b: BusState, cfg: Config) {
    (forall i :: 0 <= i < |b.solos| ==> SoloValid(b.solos[i], cfg)) && b.dropped == TotalDrops(b.solos)
  }

  lemma {:induction false} DropsUpdated(solos: seq<Solo>, i: nat, s: Solo)
    requires i < |solos|
    ensures TotalDrops(solos[i := s]) == TotalDrops(solos) - solos[i].drops + s.drops
  {
    if i < |solos| - 1 {
      DropsUpdated(Front(solos), i, s);
      assert Front(solos[i := s]) == Front(solos)[i := s];
    } else {
      assert Front(solos[i := s]) == Front(solos);
    }
  }

  lemma {:induction false} DropsHeard(solos: seq<Solo>, m: Message, clock: Readings, cfg: Config)
    ensures TotalDrops(HearAll(solos, m, clock, cfg)) == TotalDrops(solos) + Losers(solos, m, cfg)
  {
    if solos != [] {
      DropsHeard(Front(solos), m, clock, cfg);
      var out := HearAll(Front(solos), m, clock, cfg);
      assert Front(out + [Hear(Last(solos), m, clock(|solos| - 1), cfg)]) == out;
    }
  }

  lemma NewSoloValid(interest: Interest, cfg: Config)
    ensures SoloValid(NewSolo(interest), cfg)
  {
  }

  lemma PublishKeepsValid(b: BusState, m: Message, wall: real, clock: Readings, cfg: Config)
    requires BusValid(b, cfg)
    ensures BusValid(BusStep(b, Event.Publish(m, wall, clock), cfg), cfg)
  {
    hide SoloValid, Hear, TotalDrops, Losers;
    var stamped := Stamped(m, wall);
    DropsHeard(b.solos, stamped, clock, cfg);
    forall i | 0 <= i < |b.solos|
      ensures SoloValid(Hear(b.solos[i], stamped, clock(i), cfg), cfg)
    {
      HearKeepsValid(b.solos[i], stamped, clock(i), cfg);
    }
  }

  lemma BusStepKeepsValid(b: BusState, e: Event, cfg: Config)
    requires BusValid(b, cfg)
    ensures BusValid(BusStep(b, e, cfg), cfg)
  {
    hide SoloValid, Hear, Take, Deliver;
    match e
    case Subscribe(interest) =>
      NewSoloValid(interest, cfg);
      assert Front(b.solos + [NewSolo(interest)]) == b.solos;
    case Unsubscribe(id) =>
      if id < |b.solos| {
        ClosingKeepsValid(b.solos[id], cfg);
        DropsUpdated(b.solos, id, b.solos[id].(closed := true));
      }
    case Publish(m, wall, clock) => PublishKeepsValid(b, m, wall, clock, cfg);
    case Get(id) =>
      if id < |b.solos| {
        TakeKeepsValid(b.solos[id], cfg);
        TakeDropsNothing(b.solos[id]);
        DropsUpdated(b.solos, id, Take(b.solos[id]));
      }
  }

  lemma ClosingKeepsValid(s: Solo, cfg: Config)
    requires SoloValid(s, cfg)
    ensures SoloValid(s.(closed := true), cfg)
  {
  }

  lemma TakeDropsNothing(s: Solo)
    ensures Take(s).drops == s.drops
  {
  }

  lemma {:induction false} BusStaysValid(events: seq<Event>, cfg: Config)
    ensures BusValid(After(events, cfg), cfg)
  {
    if events != [] {
      BusStaysValid(Front(events), cfg);
      hide BusValid, BusStep;
      BusStepKeepsValid(After(Front(events), cfg), Last(events), cfg);
    }
  }

  // ----- Each subscriber's own story ---------------------------------------------------------------

  /** What a run looks like from one subscriber: nothing about anybody else. */
  datatype Own = Joined(interest: Interest) | Heard(message: Message, now: real) | Took | Left

  function Subscribers(events: seq<Event>): nat {
    if events == [] then 0 else Subscribers(Front(events)) + if Last(events).Subscribe? then 1 else 0
  }

  /** The events that concern subscriber `id`: its own calls and the publishes since it joined. */
  function Project(events: seq<Event>, id: nat): seq<Own> {
    if events == [] then []
    else Extend(Project(Front(events), id), Subscribers(Front(events)), Last(events), id)
  }

  /** The story after one more event, when `count` subscribers have joined so far. */
  function Extend(story: seq<Own>, count: nat, e: Event, id: nat): seq<Own> {
    match e
    case Subscribe(interest) => if count == id then story + [Joined(interest)] else story
    case Unsubscribe(i) => if i == id && story != [] then story + [Left] else story
    case Publish(m, wall, clock) =>
      if Known(m.channel) && story != [] then story + [Heard(Stamped(m, wall), clock(id))] else story
    case Get(i) => if i == id && story != [] then story + [Took] else story
  }

  /** The subscriber alone with its story. */
  function Alone(story: seq<Own>, cfg: Config): Solo {
    if story == [] then NewSolo(Interest({}, None)) else Live(Alone(Front(story), cfg), Last(story), cfg)
  }

  function Live(s: Solo, own: Own, cfg: Config): Solo {
    match own
    case Joined(interest) => NewSolo(interest)
    case Heard(m, now) => Hear(s, m, now, cfg)
    case Took => Take(s)
    case Left => s.(closed := true)
  }

  /** A subscriber's state is a function of its own story: no other subscriber can influence it. */
  lemma {:induction false} SubscribersAreIndependent(events: seq<Event>, id: nat, cfg: Config)
    ensures |After(events, cfg).solos| == Subscribers(events)
    ensures id < Subscribers(events) <==> Project(events, id) != []
    ensures id < Subscribers(events) ==> After(events, cfg).solos[id] == Alone(Project(events, id), cfg)
  {
    hide BusStep, Extend;
    if events != [] {
      var before := Front(events);
      SubscribersAreIndependent(before, id, cfg);
      StoryStep(After(before, cfg), Project(before, id), Last(events), id, cfg);
    }
  }

  lemma StoryStep(b: BusState, story: seq<Own>, e: Event, id: nat, cfg: Config)
    requires id < |b.solos| <==> story != []
    requires id < |b.solos| ==> b.solos[id] == Alone(story, cfg)
    ensures var after, more := BusStep(b, e, cfg), Extend(story, |b.solos|, e, id);
      && |after.solos| == |b.solos| + (if e.Subscribe? then 1 else 0)
      && (id < |after.solos| <==> more != [])
      && (id < |after.solos| ==> after.solos[id] == Alone(more, cfg))
  {
    hide Hear, Take, NewSolo, Known;
    var more := Extend(story, |b.solos|, e, id);
    if more != story {
      assert Front(more) == story;
      assert Alone(more, cfg) == Live(Alone(story, cfg), Last(more), cfg);
    }
    hide Alone;
  }

  /** The messages that matched the subscriber while it was subscribed, in publish order. */
  function Log(story: seq<Own>): seq<Message> {
    if story == [] then []
    else
      var before := Front(story);
      match Last(story)
      case Joined(_) => []
      case Heard(m, _) =>
        if IsOpen(before) && Matches(InterestOf(before), m) then Log(before) + [m] else Log(before)
      case _ => Log(before)
  }

  /** The interest of the latest `Joined`. */
  function InterestOf(story: seq<Own>): Interest {
    if story == [] then Interest({}, None)
    else if Last(story).Joined? then Last(story).interest else InterestOf(Front(story))
  }

  /** Whether the latest `Joined` has not been followed by a `Left`. */
  predicate IsOpen(story: seq<Own>) {
    story == [] || Last(story).Joined? || (!Last(story).Left? && IsOpen(Front(story)))
  }

  lemma {:induction false} AloneLogs(story: seq<Own>, cfg: Config)
    ensures var s := Alone(story, cfg);
      s.log == Log(story) && s.interest == InterestOf(story) && s.closed == !IsOpen(story)
  {
    if story != [] {
      AloneLogs(Front(story), cfg);
    }
  }

  /**
   * One more message is appended to the log of an open subscriber exactly when its channel is one of the
   * subscribed ones and it carries no symbol, or one of the chosen symbols, or all were chosen.
   */
  lemma OneMoreHeard(story: seq<Own>, m: Message, now: real)
    requires IsOpen(story)
    ensures var interest := InterestOf(story);
      Log(story + [Heard(m, now)])
      == if m.channel in interest.channels
            && (interest.symbols.None? || m.symbol.None? || m.symbol.value in interest.symbols.value)
         then Log(story) + [m] else Log(story)
  {
    assert Front(story + [Heard(m, now)]) == story;
  }

  predicate OneOfEight(channel: string) {
    || channel == "equity" || channel == "tick" || channel == "position" || channel == "fill"
    || channel == "signal" || channel == "risk_event" || channel == "orderbook" || channel == "heartbeat"
  }

  /** What a publish makes of one subscriber, field by field; `now` is the clock should it have to drop. */
  predicate Reached(s: Solo, after: Solo, m: Message, wall: real, now: real, cfg: Config) {
    var stamped := Message(m.channel, m.symbol, Some(if m.ts.Some? then m.ts.value else wall), m.payload);
    var full := cfg.queueSize > 0 && |s.queue| >= cfg.queueSize;
    if && OneOfEight(m.channel) && !s.closed && m.channel in s.interest.channels
       && (s.interest.symbols.None? || m.symbol.None? || m.symbol.value in s.interest.symbols.value)
    then
      && after.log == s.log + [stamped]
      && after.queue == (if full then s.queue[1..] else s.queue) + [stamped]
      && after.drops == s.drops + (if full then 1 else 0)
      && after.dropLog == (if full then s.dropLog + [now] else s.dropLog)
      && after.received == s.received && after.interest == s.interest && !after.closed
    else after == s
  }

  predicate AllReached(solos: seq<Solo>, after: seq<Solo>, m: Message, wall: real, clock: Readings, cfg: Config) {
    |after| == |solos| && forall i :: 0 <= i < |solos| ==> Reached(solos[i], after[i], m, wall, clock(i), cfg)
  }

  /** A publish reaches every subscriber like that, and there is nobody else. */
  lemma PublishReaches(b: BusState, m: Message, wall: real, clock: Readings, cfg: Config)
    ensures AllReached(b.solos, BusStep(b, Event.Publish(m, wall, clock), cfg).solos, m, wall, clock, cfg)
  {
    var after := BusStep(b, Event.Publish(m, wall, clock), cfg).solos;
    forall i | 0 <= i < |b.solos|
      ensures |after| == |b.solos| && Reached(b.solos[i], after[i], m, wall, clock(i), cfg)
    {
      if Known(m.channel) {
        HeardReaches(b.solos[i], m, wall, clock(i), cfg);
        hide Hear, Reached, Known;
      }
    }
  }

  lemma HeardReaches(s: Solo, m: Message, wall: real, now: real, cfg: Config)
    requires Known(m.channel)
    ensures Reached(s, Hear(s, Stamped(m, wall), now, cfg), m, wall, now, cfg)
  {
    hide CountSince, LastN;
  }

  /**
   * The bus log theorem. For every subscriber of every interleaving: its queue is the
   * newest stretch of the messages that matched it while subscribed and is within the
   * bound; what it received came in publish order, each position once; matched ==
   * received + queued + dropped; and the bus counts exactly the drops of all subscribers.
   */
  lemma BusLogTheorem(events: seq<Event>, id: nat, cfg: Config)
    requires id < Subscribers(events)
    ensures var b := After(events, cfg);
      && id < |b.solos|
      && var s, log := b.solos[id], Log(Project(events, id));
      && (cfg.queueSize > 0 ==> |s.queue| <= cfg.queueSize)
      && |log| == |s.received| + |s.queue| + s.drops
      && s.queue == log[|log| - |s.queue|..]
      && StrictlyIncreasing(s.received)
      && (forall i :: 0 <= i < |s.received| ==> s.received[i] < |log| - |s.queue|)
      && b.dropped == TotalDrops(b.solos)
  {
    SubscribersAreIndependent(events, id, cfg);
    BusStaysValid(events, cfg);
    AloneLogs(Project(events, id), cfg);
    hide Alone, Log, Project, After, FlaggedByDeque, TotalDrops;
    assert SoloValid(After(events, cfg).solos[id], cfg);
  }

  /** The publishes on a channel the bus knows. */
  function Publishes(events: seq<Event>): nat {
    if events == [] then 0
    else
      var e := Last(events);
      Publishes(Front(events)) +
      if e.Publish? && OneOfEight(e.message.channel) then 1 else 0
  }

  lemma {:induction false} PublishesAreCounted(events: seq<Event>, cfg: Config)
    ensures After(events, cfg).published == Publishes(events)
  {
    if events != [] {
      PublishesAreCounted(Front(events), cfg);
      PublishedStep(After(Front(events), cfg), Last(events), cfg);
      hide BusStep;
    }
  }

  lemma PublishedStep(b: BusState, e: Event, cfg: Config)
    ensures BusStep(b, e, cfg).published == b.published +
      if e.Publish? && OneOfEight(e.message.channel) then 1 else 0
  {
    hide HearAll, Losers, Take;
  }

  // ----- The slow flag over runs ---------------------------------------------------------------------

  ghost predicate ClockRuns(events: seq<Event>) {
    forall i, j, id: nat :: 0 <= i < j < |events| && events[i].Publish? && events[j].Publish? ==>
      events[i].clock(id) <= events[j].clock(id)
  }

  predicate PublishedAt(events: seq<Event>, id: nat, t: real) {
    exists i :: 0 <= i < |events| && events[i].Publish? && events[i].clock(id) == t
  }

  /** Every drop of subscriber `id` is stamped with a reading of some publish of the run. */
  predicate DropsHappened(drops: seq<real>, events: seq<Event>, id: nat) {
    forall k :: 0 <= k < |drops| ==> PublishedAt(events, id, drops[k])
  }

  lemma StillPublished(events: seq<Event>, e: Event, id: nat, t: real)
    ensures PublishedAt(events, id, t) ==> PublishedAt(events + [e], id, t)
    ensures e.Publish? ==> PublishedAt(events + [e], id, e.clock(id))
    ensures PublishedAt(events, id, t) && e.Publish? && ClockRuns(events + [e]) ==> t <= e.clock(id)
  {
    var all := events + [e];
    assert all[|events|] == e;
    if PublishedAt(events, id, t) {
      var i :| 0 <= i < |events| && events[i].Publish? && events[i].clock(id) == t;
      assert all[i] == events[i];
    }
  }

  lemma DropsStillHappened(drops: seq<real>, events: seq<Event>, e: Event, id: nat)
    requires DropsHappened(drops, events, id)
    ensures DropsHappened(drops, events + [e], id)
  {
    hide PublishedAt;
    forall k | 0 <= k < |drops|
      ensures PublishedAt(events + [e], id, drops[k])
    {
      StillPublished(events, e, id, drops[k]);
    }
  }

  lemma NewestDrop(drops: seq<real>, events: seq<Event>, e: Event, id: nat)
    requires DropsHappened(drops, events, id) && Nondecreasing(drops) && e.Publish? && ClockRuns(events + [e])
    ensures DropsHappened(drops + [e.clock(id)], events + [e], id) && Nondecreasing(drops + [e.clock(id)])
  {
    hide PublishedAt, ClockRuns;
    StillPublished(events, e, id, e.clock(id));
    forall k | 0 <= k < |drops|
      ensures drops[k] <= e.clock(id) && PublishedAt(events + [e], id, drops[k])
    {
      StillPublished(events, e, id, drops[k]);
    }
  }

  lemma DropLogGrows(b: BusState, e: Event, id: nat, cfg: Config)
    requires id < |BusStep(b, e, cfg).solos|
    ensures var drops := BusStep(b, e, cfg).solos[id].dropLog;
      if id >= |b.solos| then drops == []
      else drops == b.solos[id].dropLog || (e.Publish? && drops == b.solos[id].dropLog + [e.clock(id)])
  {
    hide Known, CountSince, LastN, Matches;
  }

  lemma {:induction false} DropLogIsOrdered(events: seq<Event>, id: nat, cfg: Config)
    requires ClockRuns(events) && id < |After(events, cfg).solos|
    ensures var drops := After(events, cfg).solos[id].dropLog; Nondecreasing(drops) && DropsHappened(drops, events, id)
  {
    var before, e := Front(events), Last(events);
    assert events == before + [e];
    var b := After(before, cfg);
    assert ClockRuns(before);
    hide After, ClockRuns, Nondecreasing, DropsHappened, BusStep;
    DropLogGrows(b, e, id, cfg);
    assert DropsHappened([], events, id) && Nondecreasing([]);
    if id < |b.solos| {
      var drops := b.solos[id].dropLog;
      DropLogIsOrdered(before, id, cfg);
      DropsStillHappened(drops, before, e, id);
      if e.Publish? {
        NewestDrop(drops, before, e, id);
      }
    }
  }

  /** With a clock that never runs backwards, a subscriber is slow exactly when its full drop history says so. */
  lemma SlowFlagTheorem(events: seq<Event>, id: nat, cfg: Config)
    requires ClockRuns(events) && id < |After(events, cfg).solos| && cfg.slowThreshold <= 200
    ensures var s := After(events, cfg).solos[id];
      |s.dropLog| == s.drops && (s.slow <==> FlaggedByHistory(s.dropLog, cfg))
  {
    BusStaysValid(events, cfg);
    var s := After(events, cfg).solos[id];
    assert SoloValid(s, cfg);
    DropLogIsOrdered(events, id, cfg);
    SlowDetectorIsExact(s.dropLog, cfg);
  }

  /** As shipped: a drop for each message beyond 1000 queued ones, and the flag for 100 drops within 10 seconds. */
  lemma ShippedBus(events: seq<Event>, id: nat, m: Message, now: real)
    requires ClockRuns(events) && id < |After(events, DEFAULT).solos|
    ensures var s := After(events, DEFAULT).solos[id]; var after := Hear(s, m, now, DEFAULT);
      && after.drops == s.drops + (if |after.log| > |s.log| && |s.queue| >= 1000 then 1 else 0)
      && (s.slow <==>
            exists k :: 0 <= k < |s.dropLog| && CountSince(s.dropLog[..k + 1], s.dropLog[k] - 10.0) >= 100)
  {
    SlowFlagTheorem(events, id, DEFAULT);
    hide After, CountSince, LastN, Matches, ClockRuns;
  }

  /** Once set, the flag stays set in every continuation of the run. */
  lemma {:induction false} SlowIsSticky(events: seq<Event>, more: seq<Event>, id: nat, cfg: Config)
    requires id < |After(events, cfg).solos| && After(events, cfg).solos[id].slow
    ensures id < |After(events + more, cfg).solos| && After(events + more, cfg).solos[id].slow
  {
    if more == [] {
      assert events + more == events;
    } else {
      SlowIsSticky(events, Front(more), id, cfg);
      assert Front(events + more) == events + Front(more);
      hide Known, CountSince, LastN, Matches;
    }
  }

  // ----- The classes --------------------------------------------------------------------------------------

  class Subscription {
    const interest: Interest
    const cfg: Config
    var queue: seq<Message>
    var drops: nat
    var dropTimes: seq<real>
    var slow: bool
    var closed: bool
    ghost var log: seq<Message>
    ghost var gone: nat
    ghost var received: seq<nat>
    ghost var dropLog: seq<real>

    ghost function State(): Solo
      reads this
    {
      Solo(interest, queue, drops, dropTimes, slow, closed, log, gone, received, dropLog)
    }

    constructor (interest: Interest, cfg: Config)
      ensures State() == NewSolo(interest) && this.cfg == cfg
    {
      this.interest, this.cfg := interest, cfg;
      queue, drops, dropTimes, slow, closed := [], 0, [], false, false;
      log, gone, received, dropLog := [], 0, [], [];
    }

    /** A `get` that found a message. */
    method Get() returns (m: Message)
      requires queue != []
      modifies this
      ensures m == old(queue[0]) && State() == Take(old(State()))
    {
      m := queue[0];
      queue := queue[1..];
      received := received + [gone];
      gone := gone + 1;
    }
  }

  predicate Distinct<T(==)>(xs: seq<T>) {
    forall i, j :: 0 <= i < j < |xs| ==> xs[i] != xs[j]
  }

  lemma RemoveAt<T>(xs: seq<T>, i: nat)
    requires Distinct(xs) && i < |xs|
    ensures var ys := xs[..i] + xs[i + 1..]; Distinct(ys) && forall x :: x in ys <==> x in xs && x != xs[i]
  {
    var ys := xs[..i] + xs[i + 1..];
    forall x
      ensures x in ys <==> x in xs && x != xs[i]
    {
      if x in xs && x != xs[i] {
        var k :| 0 <= k < |xs| && xs[k] == x;
        assert ys[if k < i then k else k - 1] == x;
      }
    }
  }

  /** The list holds, once each, every subscriber that is not closed. */
  ghost predicate Listed<T>(subs: seq<T>, all: seq<T>, solos: seq<Solo>) {
    && Distinct(subs) && |solos| == |all|
    && (forall k :: 0 <= k < |subs| ==> subs[k] in all)
    && (forall i :: 0 <= i < |all| ==> all[i] in subs || solos[i].closed)
  }

  lemma ListedAfterJoin<T>(subs: seq<T>, all: seq<T>, solos: seq<Solo>, x: T, s: Solo)
    requires Listed(subs, all, solos) && x !in all
    ensures Listed(subs + [x], all + [x], solos + [s])
  {
  }

  lemma ListedAfterLeave<T>(subs: seq<T>, all: seq<T>, solos: seq<Solo>, id: nat, left: seq<T>)
    requires Listed(subs, all, solos) && id < |all|
    requires Distinct(left) && forall x :: x in left <==> x in subs && x != all[id]
    requires Distinct(all)
    ensures Listed(left, all, solos[id := solos[id].(closed := true)])
  {
    forall k | 0 <= k < |left|
      ensures left[k] in all
    {
      assert left[k] in left;
    }
  }

  lemma ListedIfClosedAgrees<T>(subs: seq<T>, all: seq<T>, solos: seq<Solo>, after: seq<Solo>)
    requires Listed(subs, all, solos) && |after| == |solos|
    requires forall i :: 0 <= i < |solos| ==> after[i].closed == solos[i].closed
    ensures Listed(subs, all, after)
  {
  }

  class Bus {
    const cfg: Config
    var subs: seq<Subscription>
    var published: nat
    var dropped: nat
    /** Everybody who ever subscribed, in order; the index is the subscriber's id. */
    ghost var all: seq<Subscription>
    /** What each of them holds. */
    ghost var solos: seq<Solo>

    ghost function State(): BusState
      reads this
    {
      BusState(solos, published, dropped)
    }

    /** The mirror is up to date, and so is the drop counter. */
    ghost predicate Linked()
      reads this`all, this`solos, this`dropped, all
    {
      && Distinct(all) && |solos| == |all|
      && (forall i :: 0 <= i < |all| ==> all[i].State() == solos[i] && all[i].cfg == cfg)
      && dropped == TotalDrops(solos)
    }

    ghost predicate Valid()
      reads this, all
    {
      Listed(subs, all, solos) && Linked() && BusValid(State(), cfg)
    }

    constructor (cfg: Config)
      ensures Valid() && State() == BusState([], 0, 0) && this.cfg == cfg
    {
      this.cfg := cfg;
      subs, published, dropped, all, solos := [], 0, 0, [], [];
    }

    method Subscribe(interest: Interest) returns (sub: Subscription)
      requires Valid()
      modifies this
      ensures Valid() && fresh(sub) && all == old(all) + [sub]
      ensures State() == BusStep(old(State()), Event.Subscribe(interest), cfg)
    {
      BusStepKeepsValid(State(), Event.Subscribe(interest), cfg);
      assert Listed(subs, all, solos);
      sub := new Subscription(interest, cfg);
      ListedAfterJoin(subs, all, solos, sub, NewSolo(interest));
      assert Front(solos + [NewSolo(interest)]) == solos;
      hide BusValid, Listed, Known, TotalDrops;
      subs := subs + [sub];
      all := all + [sub];
      solos := solos + [NewSolo(interest)];
    }

    /** Closing twice, or a subscription already removed, is harmless. */
    method Unsubscribe(sub: Subscription, ghost id: nat)
      requires Valid() && id < |all| && all[id] == sub
      modifies this`subs, this`solos, sub
      ensures Valid()
      ensures State() == BusStep(old(State()), Event.Unsubscribe(id), cfg)
    {
      BusStepKeepsValid(State(), Event.Unsubscribe(id), cfg);
      assert Listed(subs, all, solos) && Linked() && |solos| == |all|;
      hide BusValid, Listed, Linked;
      Remove(sub, id);
    }

    method Remove(sub: Subscription, ghost id: nat)
      requires Listed(subs, all, solos) && Linked() && id < |all| && all[id] == sub
      modifies this`subs, this`solos, sub
      ensures Listed(subs, all, solos) && Linked()
      ensures solos == old(solos)[id := old(solos)[id].(closed := true)]
    {
      ghost var listed, mirror := subs, solos;
      assert Listed(listed, all, mirror) && Distinct(subs) && Distinct(all) && |solos| == |all|;
      hide Listed, Distinct, Linked;
      Close(sub, id);
      RemoveFromList(sub);
      ListedAfterLeave(listed, all, mirror, id, subs);
    }

    method Close(sub: Subscription, ghost id: nat)
      requires Linked() && id < |all| && all[id] == sub
      modifies this`solos, sub
      ensures Linked() && solos == old(solos)[id := old(solos)[id].(closed := true)]
    {
      DropsUpdated(solos, id, solos[id].(closed := true));
      hide TotalDrops;
      sub.closed := true;
      solos := solos[id := solos[id].(closed := true)];
    }

    /** A subscriber's completed `get`, as seen from the bus. */
    method Receive(sub: Subscription, ghost id: nat) returns (m: Message)
      requires Valid() && id < |all| && all[id] == sub && sub.queue != []
      modifies this`solos, sub
      ensures Valid()
      ensures m == old(sub.queue[0])
      ensures State() == BusStep(old(State()), Event.Get(id), cfg)
    {
      BusStepKeepsValid(State(), Event.Get(id), cfg);
      ListedIfClosedAgrees(subs, all, solos, solos[id := Take(solos[id])]);
      assert |solos| == |all|;
      hide BusValid, Take, Listed, Linked;
      m := HandOut(sub, id);
    }

    method HandOut(sub: Subscription, ghost id: nat) returns (m: Message)
      requires Linked() && id < |all| && all[id] == sub && sub.queue != []
      modifies this`solos, sub
      ensures Linked() && solos == old(solos)[id := Take(old(solos)[id])]
      ensures m == old(sub.queue[0])
    {
      TakeDropsNothing(solos[id]);
      DropsUpdated(solos, id, Take(solos[id]));
      hide TotalDrops, Take;
      m := sub.Get();
      solos := solos[id := Take(solos[id])];
    }

    /** `self._subs.remove(sub)`, with the `ValueError` of a missing entry swallowed. */
    method RemoveFromList(sub: Subscription)
      requires Distinct(subs)
      modifies this`subs
      ensures Distinct(subs) && forall s :: s in subs <==> s in old(subs) && s != sub
    {
      var i := 0;
      while i < |subs| && subs[i] != sub
        invariant 0 <= i <= |subs| && forall j :: 0 <= j < i ==> subs[j] != sub
      {
        i := i + 1;
      }
      if i < |subs| {
        RemoveAt(subs, i);
        subs := subs[..i] + subs[i + 1..];
      }
    }

    /** `_deliver`. */
    method DeliverTo(sub: Subscription, m: Message, now: real)
      requires sub.cfg == cfg
      modifies this`dropped, sub
      ensures sub.State() == Deliver(old(sub.State()), m, now, cfg)
      ensures dropped == old(dropped) + sub.drops - old(sub.drops)
    {
      hide CountSince;
      sub.log := sub.log + [m];
      if cfg.queueSize <= 0 || |sub.queue| < cfg.queueSize {
        sub.queue := sub.queue + [m];
        return;
      }
      sub.queue := sub.queue[1..];
      dropped := dropped + 1;
      sub.drops := sub.drops + 1;
      sub.dropTimes := sub.dropTimes + [now];
      if |sub.dropTimes| > DROP_HISTORY {
        sub.dropTimes := sub.dropTimes[|sub.dropTimes| - DROP_HISTORY..];
      }
      var recentDrops := CountRecent(sub.dropTimes, now - cfg.slowWindow);
      if recentDrops >= cfg.slowThreshold {
        sub.slow := true;
      }
      sub.queue := sub.queue + [m];
      sub.gone := sub.gone + 1;
      sub.dropLog := sub.dropLog + [now];
    }

    /** One turn of the loop of `publish`. */
    method Offer(sub: Subscription, m: Message, now: real, ghost id: nat)
      requires Linked() && id < |all| && all[id] == sub
      modifies this`dropped, this`solos, sub
      ensures Linked() && dropped == TotalDrops(solos)
      ensures solos == old(solos)[id := Hear(old(solos)[id], m, now, cfg)]
    {
      if sub.closed || !Matches(sub.interest, m) {
        assert solos[id := solos[id]] == solos;
        return;
      }
      DeliverTo(sub, m, now);
      DropsUpdated(solos, id, sub.State());
      hide Deliver, TotalDrops;
      solos := solos[id := sub.State()];
    }

    /** `clock(k)` is what the clock reads while entry k of the list is served. */
    method Publish(m: Message, wall: real, clock: nat -> real)
      requires Valid()
      modifies this`published, this`dropped, this`solos, subs
      ensures Valid()
      ensures State() == BusStep(old(State()), Event.Publish(m, wall, ReadingsOf(old(subs), all, clock)), cfg)
      ensures AllReached(old(solos), solos, m, wall, ReadingsOf(old(subs), all, clock), cfg)
    {
      hide Known, BusStep, ReadingsOf, Stamped, AllReached;
      ghost var b, readings := State(), ReadingsOf(subs, all, clock);
      PublishReaches(b, m, wall, readings, cfg);
      assert Linked() && Listed(subs, all, b.solos) && BusValid(b, cfg);
      UnknownIsIgnored(b, m, wall, readings, cfg);
      hide Listed, Linked, BusValid, TotalDrops, Hear, HearAll, Distinct;
      if !Known(m.channel) {
        return;
      }
      PublishedState(b, m, wall, readings, cfg);
      FanOut(Stamped(m, wall), clock, readings);
    }

    /** `publish` once the channel is known. */
    method FanOut(m: Message, clock: nat -> real, ghost readings: Readings)
      requires readings == ReadingsOf(subs, all, clock)
      requires Listed(subs, all, solos) && Linked()
      modifies this`published, this`dropped, this`solos, subs
      ensures published == old(published) + 1
      ensures Listed(subs, all, solos) && Linked() && dropped == TotalDrops(solos)
      ensures solos == HearAll(old(solos), m, readings, cfg)
    {
      ghost var before := solos;
      assert Listed(subs, all, before) && Linked() && Distinct(subs) && Distinct(all);
      assert |before| == |all| && dropped == TotalDrops(solos);
      assert Served(subs, all, before, before, 0, m, readings, cfg);
      hide Served, Listed, Linked, Hear, TotalDrops, Distinct, ReadingsOf;
      published := published + 1;
      for k := 0 to |subs|
        invariant Linked() && dropped == TotalDrops(solos) && |solos| == |all|
        invariant published == old(published) + 1
        invariant Served(subs, all, before, solos, k, m, readings, cfg)
      {
        ghost var id := IdOf(subs, all, before, k);
        ServedNext(subs, all, before, solos, id, k, m, readings, cfg);
        ReadingAt(subs, all, clock, id, k);
        Offer(subs[k], m, clock(k), id);
      }
      EverybodyHeard(subs, all, before, solos, m, readings, cfg);
    }
  }

  lemma UnknownIsIgnored(b: BusState, m: Message, wall: real, clock: Readings, cfg: Config)
    ensures !Known(m.channel) ==> BusStep(b, Event.Publish(m, wall, clock), cfg) == b
  {
    hide Known;
  }

  lemma PublishedState(b: BusState, m: Message, wall: real, clock: Readings, cfg: Config)
    requires BusValid(b, cfg) && Known(m.channel)
    ensures var heard := HearAll(b.solos, Stamped(m, wall), clock, cfg);
      && BusStep(b, Event.Publish(m, wall, clock), cfg) == BusState(heard, b.published + 1, TotalDrops(heard))
      && BusValid(BusStep(b, Event.Publish(m, wall, clock), cfg), cfg)
  {
    hide Known;
    BusStepKeepsValid(b, Event.Publish(m, wall, clock), cfg);
  }

  /** Where x first stands in the list. */
  ghost function IndexIn<T>(xs: seq<T>, x: T): (i: nat)
    requires x in xs
    ensures i < |xs| && xs[i] == x
  {
    if xs[0] == x then 0 else 1 + IndexIn(xs[1..], x)
  }

  /** The readings by subscriber, from the readings by place in the list. */
  ghost function ReadingsOf<T>(subs: seq<T>, all: seq<T>, clock: nat -> real): Readings {
    (i: nat) => if i < |all| && all[i] in subs then clock(IndexIn(subs, all[i])) else 0.0
  }

  lemma ReadingAt<T>(subs: seq<T>, all: seq<T>, clock: nat -> real, id: nat, k: nat)
    requires Distinct(subs) && k < |subs| && id < |all| && all[id] == subs[k]
    ensures ReadingsOf(subs, all, clock)(id) == clock(k)
  {
    assert subs[IndexIn(subs, subs[k])] == subs[k];
  }

  /** The first `k` list entries have heard the message, everybody else is as before. */
  ghost predicate Served<T>(subs: seq<T>, all: seq<T>, before: seq<Solo>, after: seq<Solo>, k: nat, m: Message,
                            clock: Readings, cfg: Config) {
    && |after| == |all| == |before| && k <= |subs|
    && forall i :: 0 <= i < |all| ==>
         after[i] == if all[i] in subs[..k] then Hear(before[i], m, clock(i), cfg) else before[i]
  }

  lemma IdOf<T>(subs: seq<T>, all: seq<T>, solos: seq<Solo>, k: nat) returns (id: nat)
    requires Listed(subs, all, solos) && k < |subs|
    ensures id < |all| && all[id] == subs[k]
  {
    id :| 0 <= id < |all| && all[id] == subs[k];
  }

  lemma ServedNext<T>(subs: seq<T>, all: seq<T>, before: seq<Solo>, after: seq<Solo>, id: nat, k: nat, m: Message,
                      clock: Readings, cfg: Config)
    requires Distinct(subs) && Distinct(all) && k < |subs| && id < |all| && all[id] == subs[k]
    requires Served(subs, all, before, after, k, m, clock, cfg)
    ensures Served(subs, all, before, after[id := Hear(after[id], m, clock(id), cfg)], k + 1, m, clock, cfg)
  {
    hide Hear;
    assert subs[..k + 1] == subs[..k] + [subs[k]];
    assert all[id] !in subs[..k];
  }

  lemma EverybodyHeard<T>(subs: seq<T>, all: seq<T>, before: seq<Solo>, after: seq<Solo>, m: Message, clock: Readings,
                          cfg: Config)
    requires Listed(subs, all, before) && Served(subs, all, before, after, |subs|, m, clock, cfg)
    ensures after == HearAll(before, m, clock, cfg)
    ensures Listed(subs, all, after)
  {
    hide Hear;
    assert subs[..|subs|] == subs;
    forall i | 0 <= i < |all|
      ensures after[i] == Hear(before[i], m, clock(i), cfg) && after[i].closed == before[i].closed
    {
      HearKeepsClosed(before[i], m, clock(i), cfg);
    }
    ListedIfClosedAgrees(subs, all, before, after);
  }

  lemma HearKeepsClosed(s: Solo, m: Message, now: real, cfg: Config)
    ensures Hear(s, m, now, cfg).closed == s.closed
    ensures s.closed ==> Hear(s, m, now, cfg) == s
  {
  }

  /** `sum(1 for t in drop_timestamps if t >= cutoff)`. */
  method CountRecent(times: seq<real>, cutoff: real) returns (n: nat)
    ensures n == CountSince(times, cutoff)
  {
    n := 0;
    for i := 0 to |times|
      invariant n == CountSince(times[..i], cutoff)
    {
      assert Front(times[..i + 1]) == times[..i];
      if times[i] >= cutoff {
        n := n + 1;
      }
    }
    assert times[..|times|] == times;
  }
}
