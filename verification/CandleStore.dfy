// src/marketdata/candle_store.py: OHLCV bars built in place from the trade stream.
//
// The batch side of this file groups a recorded stream by UTC bucket after the fact;
// the class builds the same bars one trade at a time in a bounded deque.
module CandleStore {
  import opened Prelude

  datatype Bar = Bar(openTime: int, open: real, high: real, low: real, close: real, volume: real)

  datatype Trade = Trade(coin: string, px: real, sz: real, time: int)

  /** A trade of one coin, stamped with the opening time of its bar. */
  datatype Tick = Tick(bucket: int, px: real, sz: real)

  /** The UTC-aligned opening time of the bar a trade belongs to (floor division). */
  function Bucket(time: int, barMs: int): int
    requires barMs > 0
  {
    (time / barMs) * barMs
  }

  /** The bucket is the one multiple of the bar length that opens a bar containing the trade. */
  lemma BucketContains(time: int, barMs: int, k: int)
    requires barMs > 0
    ensures k * barMs <= time < (k + 1) * barMs <==> k * barMs == Bucket(time, barMs)
  {
    var q := time / barMs;
    assert q * barMs <= time < q * barMs + barMs;
    assert (k + 1) * barMs == k * barMs + barMs;
    if k != q {
      MultiplesApart(k, q, barMs);
    }
  }

  lemma MultiplesApart(k: int, q: int, n: int)
    requires n > 0 && k != q
    ensures k * n + n <= q * n || q * n + n <= k * n
  {
    if k < q {
      AtLeastOneMore(k, q, n);
    } else {
      AtLeastOneMore(q, k, n);
    }
  }

  lemma AtLeastOneMore(k: int, q: int, n: int)
    requires n > 0 && k < q
    ensures k * n + n <= q * n
  {
    var gap := q - k - 1;
    assert gap * n >= 0;
    assert q * n == (k + 1 + gap) * n == k * n + n + gap * n;
  }

  // ----- Batch aggregation ----------------------------------------------------------

  function OfCoin(log: seq<Trade>, coin: string, barMs: int): seq<Tick>
    requires barMs > 0
  {
    if log == [] then []
    else
      var t := Last(log);
      OfCoin(Front(log), coin, barMs) + if t.coin == coin then [Tick(Bucket(t.time, barMs), t.px, t.sz)] else []
  }

  /** The newest bucket seen in a stream. */
  function Newest(log: seq<Tick>): int
    requires log != []
  {
    if |log| == 1 then log[0].bucket
    else
      var before := Newest(Front(log));
      if Last(log).bucket > before then Last(log).bucket else before
  }

  /** The trades whose bucket is not older than the newest bucket seen before them. */
  function Accepted(log: seq<Tick>): seq<Tick> {
    if log == [] then []
    else if |log| == 1 || Last(log).bucket >= Newest(Front(log)) then Accepted(Front(log)) + [Last(log)]
    else Accepted(Front(log))
  }

  /** The distinct buckets of a stream in order of first appearance. */
  function Buckets(log: seq<Tick>): seq<int>
  {
    if log == [] then []
    else
      var before, b := Buckets(Front(log)), Last(log).bucket;
      if b in before then before else before + [b]
  }

  function Group(log: seq<Tick>, b: int): seq<Tick>
  {
    if log == [] then []
    else Group(Front(log), b) + if Last(log).bucket == b then [Last(log)] else []
  }

  function HighestPx(group: seq<Tick>): real
    requires group != []
  {
    if |group| == 1 then group[0].px else Max(HighestPx(Front(group)), Last(group).px)
  }

  function LowestPx(group: seq<Tick>): real
    requires group != []
  {
    if |group| == 1 then group[0].px else Min(LowestPx(Front(group)), Last(group).px)
  }

  function TotalSz(group: seq<Tick>): real {
    if group == [] then 0.0 else TotalSz(Front(group)) + Last(group).sz
  }

  /** (first, max, min, last, sum) of one bucket. */
  function Aggregate(group: seq<Tick>, b: int): Bar
    requires group != []
  {
    Bar(b, group[0].px, HighestPx(group), LowestPx(group), Last(group).px, TotalSz(group))
  }

  lemma {:induction false} GroupOfBucket(log: seq<Tick>, b: int)
    ensures b in Buckets(log) <==> Group(log, b) != []
  {
    if log != [] {
      GroupOfBucket(Front(log), b);
    }
  }

  /** The bars of the listed buckets. */
  function BarsOf(log: seq<Tick>, bs: seq<int>): (bars: seq<Bar>)
    requires forall i :: 0 <= i < |bs| ==> Group(log, bs[i]) != []
    ensures |bars| == |bs|
  {
    if bs == [] then [] else BarsOf(log, Front(bs)) + [Aggregate(Group(log, Last(bs)), Last(bs))]
  }

  lemma {:induction false} BarAt(log: seq<Tick>, bs: seq<int>, k: nat)
    requires k < |bs| && forall i :: 0 <= i < |bs| ==> Group(log, bs[i]) != []
    ensures BarsOf(log, bs)[k] == Aggregate(Group(log, bs[k]), bs[k])
  {
    if k < |bs| - 1 {
      BarAt(log, Front(bs), k);
    }
  }

  lemma GroupsExist(log: seq<Tick>)
    ensures forall i :: 0 <= i < |Buckets(log)| ==> Group(log, Buckets(log)[i]) != []
  {
    forall i | 0 <= i < |Buckets(log)|
      ensures Group(log, Buckets(log)[i]) != []
    {
      GroupOfBucket(log, Buckets(log)[i]);
    }
  }

  function Bars(log: seq<Tick>): (bars: seq<Bar>)
    ensures |bars| == |Buckets(log)|
  {
    GroupsExist(log);
    BarsOf(log, Buckets(log))
  }

  lemma BarOf(log: seq<Tick>, k: nat)
    requires k < |Buckets(log)|
    ensures Group(log, Buckets(log)[k]) != []
    ensures Bars(log)[k] == Aggregate(Group(log, Buckets(log)[k]), Buckets(log)[k])
  {
    GroupsExist(log);
    BarAt(log, Buckets(log), k);
  }

  /** What a store that never forgets would hold for one coin's stream. */
  function Batch(log: seq<Tick>): seq<Bar>
  {
    Bars(Accepted(log))
  }

  // ----- One trade at a time ------------------------------------------------------------

  function Extend(bar: Bar, t: Tick): Bar {
    Bar(bar.openTime, bar.open, Max(bar.high, t.px), Min(bar.low, t.px), t.px, bar.volume + t.sz)
  }

  /** The three cases of `on_trade`, before the deque's bound is applied. */
  function Grow(bars: seq<Bar>, t: Tick): seq<Bar>
  {
    var b := t.bucket;
    if bars == [] || Last(bars).openTime < b then bars + [Bar(b, t.px, t.px, t.px, t.px, t.sz)]
    else if Last(bars).openTime == b then Front(bars) + [Extend(Last(bars), t)]
    else bars
  }

  lemma GrowBounded(bars: seq<Bar>, t: Tick, history: nat)
    requires history > 0
    ensures LastN(Grow(LastN(bars, history), t), history) == LastN(Grow(bars, t), history)
  {
    var kept := LastN(bars, history);
    if bars != [] {
      assert Last(kept) == Last(bars);
      if Last(bars).openTime < t.bucket {
        LastNSnoc(bars, Bar(t.bucket, t.px, t.px, t.px, t.px, t.sz), history);
      } else if Last(bars).openTime == t.bucket {
        hide Extend;
        ReplaceLastBounded(bars, Extend(Last(bars), t), history);
      }
    }
  }

  lemma ReplaceLastBounded(bars: seq<Bar>, bar: Bar, history: nat)
    requires history > 0 && bars != []
    ensures LastN(Front(LastN(bars, history)) + [bar], history) == LastN(Front(bars) + [bar], history)
  {
  }

  /** The buckets of accepted trades increase, and the last one is the newest seen. */
  lemma {:induction false} AcceptedBuckets(log: seq<Tick>)
    ensures var bs := Buckets(Accepted(log));
      && Increasing(bs)
      && (bs == [] <==> log == [])
      && (log != [] ==> Last(bs) == Newest(log))
  {
    if log != [] {
      var before, t := Front(log), Last(log);
      AcceptedBuckets(before);
      var bs := Buckets(Accepted(before));
      if |log| == 1 || t.bucket >= Newest(before) {
        AppendBucket(Accepted(before), t);
        if bs != [] && t.bucket > Last(bs) {
          assert t.bucket !in bs;
        }
      }
    }
  }

  predicate Increasing(bs: seq<int>) {
    forall i, j :: 0 <= i < j < |bs| ==> bs[i] < bs[j]
  }

  lemma AppendBucket(acc: seq<Tick>, t: Tick)
    ensures var b := t.bucket; var bs := Buckets(acc);
      Buckets(acc + [t]) == if b in bs then bs else bs + [b]
    ensures forall c :: Group(acc + [t], c) == if t.bucket == c then Group(acc, c) + [t] else Group(acc, c)
  {
    assert Front(acc + [t]) == acc;
  }

  lemma ExtendGroup(group: seq<Tick>, t: Tick, b: int)
    requires group != []
    ensures Aggregate(group + [t], b) == Extend(Aggregate(group, b), t)
  {
    var longer := group + [t];
    assert Front(longer) == group && Last(longer) == t && longer[0] == group[0];
  }

  lemma BatchGrows(log: seq<Tick>, t: Tick)
    ensures Batch(log + [t]) == Grow(Batch(log), t)
  {
    AcceptedBuckets(log);
    AcceptedStep(log, t);
    if log != [] {
      BarOf(Accepted(log), |Buckets(Accepted(log))| - 1);
    }
    if log == [] || t.bucket >= Newest(log) {
      if log != [] && t.bucket == Newest(log) {
        SameBar(Accepted(log), t);
      } else {
        assert t.bucket !in Buckets(Accepted(log));
        NewBar(Accepted(log), t);
      }
    }
  }

  /**
   * One more trade opens a bar with all prices its own, moves the last bar's range, close and volume,
   * or, when it belongs to an older bar, changes nothing.
   */
  lemma BatchStep(log: seq<Tick>, t: Tick)
    ensures var bars, after := Batch(log), Batch(log + [t]);
      if bars == [] || t.bucket > Last(bars).openTime
      then after == bars + [Bar(t.bucket, t.px, t.px, t.px, t.px, t.sz)]
      else if t.bucket < Last(bars).openTime then after == bars
      else
        && |after| == |bars| && Front(after) == Front(bars)
        && var was, now := Last(bars), Last(after);
        && now.openTime == was.openTime && now.open == was.open && now.close == t.px && now.volume == was.volume + t.sz
        && now.high == (if t.px > was.high then t.px else was.high)
        && now.low == (if t.px < was.low then t.px else was.low)
  {
    BatchGrows(log, t);
    hide Batch;
  }

  lemma AcceptedStep(log: seq<Tick>, t: Tick)
    ensures Accepted(log + [t])
         == if log == [] || t.bucket >= Newest(log) then Accepted(log) + [t] else Accepted(log)
  {
    assert Front(log + [t]) == log && Last(log + [t]) == t;
  }

  lemma OldBar(acc: seq<Tick>, t: Tick, k: nat)
    requires k < |Buckets(acc)|
    ensures k < |Buckets(acc + [t])|
    ensures Bars(acc + [t])[k] == if Buckets(acc)[k] == t.bucket then Extend(Bars(acc)[k], t) else Bars(acc)[k]
  {
    var b := Buckets(acc)[k];
    AppendBucket(acc, t);
    BarOf(acc, k);
    BarOf(acc + [t], k);
    if b == t.bucket {
      ExtendGroup(Group(acc, b), t, b);
    }
  }

  lemma FirstTick(t: Tick, b: int)
    ensures Aggregate([t], b) == Bar(b, t.px, t.px, t.px, t.px, t.sz)
  {
    assert TotalSz([t]) == TotalSz([]) + t.sz;
  }

  lemma OldBars(acc: seq<Tick>, t: Tick)
    ensures var bs, bars, after := Buckets(acc), Bars(acc), Bars(acc + [t]);
      && |bs| <= |after|
      && forall k :: 0 <= k < |bs| ==> after[k] == if bs[k] == t.bucket then Extend(bars[k], t) else bars[k]
  {
    AppendBucket(acc, t);
    forall k | 0 <= k < |Buckets(acc)|
      ensures Bars(acc + [t])[k] == if Buckets(acc)[k] == t.bucket then Extend(Bars(acc)[k], t) else Bars(acc)[k]
    {
      OldBar(acc, t, k);
    }
  }

  lemma NewBar(acc: seq<Tick>, t: Tick)
    requires t.bucket !in Buckets(acc)
    ensures Bars(acc + [t]) == Bars(acc) + [Bar(t.bucket, t.px, t.px, t.px, t.px, t.sz)]
  {
    OldBars(acc, t);
    AppendBucket(acc, t);
    BarOf(acc + [t], |Buckets(acc)|);
    GroupOfBucket(acc, t.bucket);
    FirstTick(t, t.bucket);
    Appended(Bars(acc), Bars(acc + [t]), Bar(t.bucket, t.px, t.px, t.px, t.px, t.sz));
  }

  lemma Appended(before: seq<Bar>, after: seq<Bar>, bar: Bar)
    requires |after| == |before| + 1 && after[|before|] == bar
    requires forall k :: 0 <= k < |before| ==> after[k] == before[k]
    ensures after == before + [bar]
  {
  }

  lemma SameBar(acc: seq<Tick>, t: Tick)
    requires var bs := Buckets(acc); Increasing(bs) && bs != [] && t.bucket == Last(bs)
    ensures var bars := Bars(acc); Bars(acc + [t]) == Front(bars) + [Extend(Last(bars), t)]
  {
    OldBars(acc, t);
    AppendBucket(acc, t);
    hide Extend, Buckets, Bars, Group;
    LastChanged(Buckets(acc), Bars(acc), Bars(acc + [t]), t);
  }

  lemma LastChanged(bs: seq<int>, before: seq<Bar>, after: seq<Bar>, t: Tick)
    requires Increasing(bs) && bs != [] && t.bucket == Last(bs) && |before| == |after| == |bs|
    requires forall k :: 0 <= k < |bs| ==> after[k] == if bs[k] == t.bucket then Extend(before[k], t) else before[k]
    ensures after == Front(before) + [Extend(Last(before), t)]
  {
    hide Extend;
  }

  /** The bounded deque sees exactly the newest bars of the batch. */
  lemma StreamingStep(log: seq<Tick>, t: Tick, history: nat)
    requires history > 0
    ensures LastN(Grow(LastN(Batch(log), history), t), history)
         == LastN(Batch(log + [t]), history)
  {
    BatchGrows(log, t);
    GrowBounded(Batch(log), t, history);
  }

  // ----- What every batch satisfies -------------------------------------------------------

  lemma {:induction false} PricesOfGroup(group: seq<Tick>) returns (high: nat, low: nat)
    requires group != []
    ensures forall i :: 0 <= i < |group| ==> LowestPx(group) <= group[i].px <= HighestPx(group)
    ensures high < |group| && group[high].px == HighestPx(group)
    ensures low < |group| && group[low].px == LowestPx(group)
  {
    if |group| == 1 {
      high, low := 0, 0;
    } else {
      high, low := PricesOfGroup(Front(group));
      assert forall i :: 0 <= i < |group| - 1 ==> group[i] == Front(group)[i];
      high := if group[high].px > Last(group).px then high else |group| - 1;
      low := if group[low].px < Last(group).px then low else |group| - 1;
    }
  }

  /** Opening times strictly increase and every bar's open and close lie in its range. */
  lemma BatchIsWellFormed(log: seq<Tick>)
    ensures var bars := Batch(log);
      && (forall i, j :: 0 <= i < j < |bars| ==> bars[i].openTime < bars[j].openTime)
      && (forall k :: 0 <= k < |bars| ==>
            && bars[k].low <= bars[k].open <= bars[k].high
            && bars[k].low <= bars[k].close <= bars[k].high)
  {
    AcceptedBuckets(log);
    var acc := Accepted(log);
    var bs, bars := Buckets(acc), Bars(acc);
    forall k | 0 <= k < |bars|
      ensures bars[k].openTime == bs[k]
      ensures bars[k].low <= bars[k].open <= bars[k].high && bars[k].low <= bars[k].close <= bars[k].high
    {
      BarOf(acc, k);
      var high, low := PricesOfGroup(Group(acc, bs[k]));
    }
  }

  /** First, highest, lowest and last price of a bucket's trades, and their total size. */
  predicate Summarizes(bar: Bar, group: seq<Tick>) {
    && group != []
    && bar.open == group[0].px && bar.close == Last(group).px && bar.volume == TotalSz(group)
    && (forall i :: 0 <= i < |group| ==> bar.low <= group[i].px <= bar.high)
    && (exists i :: 0 <= i < |group| && group[i].px == bar.high)
    && (exists i :: 0 <= i < |group| && group[i].px == bar.low)
  }

  /** Every bar summarises exactly the accepted trades of its bucket, and every such bucket has its bar. */
  lemma BarsSummarize(log: seq<Tick>)
    ensures var bars, acc := Batch(log), Accepted(log);
      && (forall k :: 0 <= k < |bars| ==> Summarizes(bars[k], Group(acc, bars[k].openTime)))
      && (forall b :: Group(acc, b) != [] ==> exists k :: 0 <= k < |bars| && bars[k].openTime == b)
  {
    var acc, bars := Accepted(log), Batch(log);
    forall k | 0 <= k < |bars|
      ensures bars[k].openTime == Buckets(acc)[k] && Summarizes(bars[k], Group(acc, bars[k].openTime))
    {
      BarOf(acc, k);
      var high, low := PricesOfGroup(Group(acc, Buckets(acc)[k]));
    }
    forall b | Group(acc, b) != []
      ensures exists k :: 0 <= k < |bars| && bars[k].openTime == b
    {
      GroupOfBucket(acc, b);
      var k :| 0 <= k < |Buckets(acc)| && Buckets(acc)[k] == b;
      assert bars[k].openTime == b;
    }
  }

  /** However the stream continues, every bar but the last is final, and the last keeps its open. */
  lemma {:induction false} PastBarsAreFinal(log: seq<Tick>, more: seq<Tick>)
    ensures var past, now := Batch(log), Batch(log + more);
      && |past| <= |now|
      && (forall k :: 0 <= k < |past| - 1 ==> now[k] == past[k])
      && (past != [] ==> now[|past| - 1].open == Last(past).open && now[|past| - 1].openTime == Last(past).openTime)
  {
    if more == [] {
      assert log + more == log;
    } else {
      PastBarsAreFinal(log, Front(more));
      assert log + more == (log + Front(more)) + [Last(more)];
      BatchGrows(log + Front(more), Last(more));
      hide Batch, Extend;
    }
  }

  // ----- The store -------------------------------------------------------------------------

  /** Each coin's deque is the tail of the batch aggregation of that coin's trades. */
  ghost predicate RefinesBatch(bars: map<string, seq<Bar>>, log: seq<Trade>, barMs: int, history: nat)
    requires barMs > 0
  {
    forall coin ::
      if coin in bars then bars[coin] == LastN(Batch(OfCoin(log, coin, barMs)), history)
      else OfCoin(log, coin, barMs) == []
  }

  lemma RefinementStep(bars: map<string, seq<Bar>>, log: seq<Trade>, t: Trade, barMs: int, history: nat)
    requires barMs > 0 && history > 0 && RefinesBatch(bars, log, barMs, history)
    ensures var deque := if t.coin in bars then bars[t.coin] else [];
      var tick := Tick(Bucket(t.time, barMs), t.px, t.sz);
      RefinesBatch(bars[t.coin := LastN(Grow(deque, tick), history)], log + [t], barMs, history)
  {
    forall coin
      ensures var deque := if t.coin in bars then bars[t.coin] else [];
        var after := bars[t.coin := LastN(Grow(deque, Tick(Bucket(t.time, barMs), t.px, t.sz)), history)];
        if coin in after then after[coin] == LastN(Batch(OfCoin(log + [t], coin, barMs)), history)
        else OfCoin(log + [t], coin, barMs) == []
    {
      OfCoinStep(log, t, coin, barMs);
      if coin == t.coin {
        StreamingStep(OfCoin(log, coin, barMs), Tick(Bucket(t.time, barMs), t.px, t.sz), history);
      }
    }
  }

  lemma OfCoinStep(log: seq<Trade>, t: Trade, coin: string, barMs: int)
    requires barMs > 0
    ensures OfCoin(log + [t], coin, barMs)
         == if t.coin == coin then OfCoin(log, coin, barMs) + [Tick(Bucket(t.time, barMs), t.px, t.sz)]
            else OfCoin(log, coin, barMs)
  {
    assert Front(log + [t]) == log;
    assert OfCoin(log, coin, barMs) + [] == OfCoin(log, coin, barMs);
  }

  /** The body of `on_trade` once the deque and the bar's opening time are known. */
  method Push(bars: seq<Bar>, barOpen: int, px: real, sz: real, history: nat) returns (deque: seq<Bar>)
    requires |bars| <= history
    ensures deque == LastN(Grow(bars, Tick(barOpen, px, sz)), history)
  {
    if |bars| == 0 || bars[|bars| - 1].openTime < barOpen {
      deque := bars + [Bar(barOpen, px, px, px, px, sz)];
      if |deque| > history {
        deque := deque[1..];
      }
      return;
    }
    var last := bars[|bars| - 1];
    if last.openTime == barOpen {
      deque := bars[|bars| - 1 := Bar(last.openTime, last.open, Max(last.high, px), Min(last.low, px),
                                      px, last.volume + sz)];
      assert deque == Front(bars) + [Extend(last, Tick(barOpen, px, sz))];
      return;
    }
    deque := bars;
  }

  class CandleStore {
    const history: nat
    const barMs: int
    var bars: map<string, seq<Bar>>
    /** Every trade ingested so far, oldest first. */
    ghost var log: seq<Trade>

    ghost predicate Valid()
      reads this
    {
      history > 0 && barMs > 0 && RefinesBatch(bars, log, barMs, history)
    }

    /** `get_candles`: the coin's rows, none for an unknown coin. */
    function GetCandles(coin: string): (rows: seq<Bar>)
      reads this
      requires Valid()
      ensures rows == LastN(Batch(OfCoin(log, coin, barMs)), history)
    {
      if coin in bars then bars[coin] else []
    }

    constructor (history: int, barSeconds: int)
      requires barSeconds > 0 && history > 0
      ensures Valid() && log == [] && this.history == history && barMs == barSeconds * 1000
    {
      this.history := history;
      barMs := barSeconds * 1000;
      bars := map[];
      log := [];
    }

    method OnTrade(coin: string, px: real, sz: real, time: int)
      requires Valid()
      modifies this
      ensures Valid() && log == old(log) + [Trade(coin, px, sz, time)]
      ensures bars.Keys == old(bars).Keys + {coin}
      ensures forall c :: c in old(bars) && c != coin ==> bars[c] == old(bars)[c]
    {
      RefinementStep(bars, log, Trade(coin, px, sz, time), barMs, history);
      var deque := Push(if coin in bars then bars[coin] else [], Bucket(time, barMs), px, sz, history);
      bars := bars[coin := deque];
      log := log + [Trade(coin, px, sz, time)];
    }

    method OnTradesMessage(data: seq<Trade>)
      requires Valid()
      modifies this
      ensures Valid() && log == old(log) + data
    {
      for i := 0 to |data|
        invariant Valid() && log == old(log) + data[..i]
      {
        assert data[..i + 1] == data[..i] + [data[i]];
        var t := data[i];
        OnTrade(t.coin, t.px, t.sz, t.time);
      }
      assert data[..|data|] == data;
    }
  }

  /** `CandleStore(history, bar_seconds)` with its two checks. */
  method NewStore(history: int, barSeconds: int) returns (r: Result<CandleStore>)
    ensures r.Err? <==> barSeconds <= 0 || history <= 0
    ensures r.Ok? ==> fresh(r.value) && r.value.Valid() && r.value.log == []
                      && r.value.history == history && r.value.barMs == barSeconds * 1000
  {
    if barSeconds <= 0 {
      return Err("bar_seconds must be positive");
    }
    if history <= 0 {
      return Err("history must be positive");
    }
    var store := new CandleStore(history, barSeconds);
    r := Ok(store);
  }
}
