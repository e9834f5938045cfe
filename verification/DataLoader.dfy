// src/backtest/data_loader.py: anchored chunk windows and the chunk cache.
//
// The endpoint is a fixed function of (coin, interval, start, end). A frame is a
// sequence of candles; its index is the candles' times.
module DataLoader {
  import opened Prelude

  const ANCHOR_MS: int := 1577836800000
  const MS_PER_DAY: int := 86400000

  datatype Window = Window(start: int, end: int)

  datatype Candle = Candle(t: int, o: real, h: real, l: real, c: real, v: real, n: int)

  type Endpoint = (string, string, int, int) -> seq<Candle>

  // ----- _chunk_windows ---------------------------------------------------------------

  /** The chunk with index k of the anchored grid. */
  function Chunk(k: int, chunkMs: int): Window {
    Window(ANCHOR_MS + k * chunkMs, ANCHOR_MS + k * chunkMs + chunkMs)
  }

  predicate Meets(w: Window, start: int, end: int) {
    w.start < end && start < w.end
  }

  function FirstIndex(start: int, chunkMs: int): int
    requires chunkMs > 0
  {
    (start - ANCHOR_MS) / chunkMs
  }

  function LastIndex(end: int, chunkMs: int): int
    requires chunkMs > 0
  {
    (end - ANCHOR_MS - 1) / chunkMs
  }

  /** The chunks number k, k + 1, ..., last. */
  function ChunksFrom(k: int, last: int, chunkMs: int): (ws: seq<Window>)
    ensures |ws| == if k <= last then last - k + 1 else 0
    ensures forall i :: 0 <= i < |ws| ==> ws[i] == Chunk(k + i, chunkMs)
    decreases last - k
  {
    if k > last then [] else [Chunk(k, chunkMs)] + ChunksFrom(k + 1, last, chunkMs)
  }

  function Chunks(start: int, end: int, chunkMs: int): seq<Window>
    requires chunkMs > 0
  {
    if end <= start then [] else ChunksFrom(FirstIndex(start, chunkMs), LastIndex(end, chunkMs), chunkMs)
  }

  lemma FloorBounds(x: int, n: int, k: int)
    requires n > 0
    ensures k * n <= x <==> k <= x / n
  {
    var q := x / n;
    assert q * n <= x < q * n + n;
    if k <= q {
      assert (q - k) * n >= 0;
    } else {
      assert (k - q - 1) * n >= 0;
    }
  }

  /** A chunk of the grid is fetched exactly when it meets the requested window. */
  lemma ChunkIsNeeded(start: int, end: int, chunkMs: int, k: int)
    requires chunkMs > 0 && start < end
    ensures FirstIndex(start, chunkMs) <= k <= LastIndex(end, chunkMs) <==> Meets(Chunk(k, chunkMs), start, end)
  {
    FloorBounds(end - ANCHOR_MS - 1, chunkMs, k);
    FloorBounds(start - ANCHOR_MS, chunkMs, k + 1);
    assert (k + 1) * chunkMs == k * chunkMs + chunkMs;
  }

  lemma NextChunk(k: int, chunkMs: int)
    ensures Chunk(k, chunkMs).end == Chunk(k + 1, chunkMs).start
  {
    assert (k + 1) * chunkMs == k * chunkMs + chunkMs;
  }

  lemma EndChunks(start: int, end: int, chunkMs: int)
    requires chunkMs > 0 && start < end
    ensures FirstIndex(start, chunkMs) <= LastIndex(end, chunkMs)
    ensures Chunk(FirstIndex(start, chunkMs), chunkMs).start <= start
    ensures end <= Chunk(LastIndex(end, chunkMs), chunkMs).end
  {
    var first, last := FirstIndex(start, chunkMs), LastIndex(end, chunkMs);
    FloorBounds(start - ANCHOR_MS, chunkMs, first);
    FloorBounds(end - ANCHOR_MS - 1, chunkMs, last + 1);
    FloorBounds(end - ANCHOR_MS - 1, chunkMs, first);
    NextChunk(last, chunkMs);
  }

  predicate Neighbours(ws: seq<Window>) {
    forall i :: 0 <= i < |ws| - 1 ==> ws[i].end == ws[i + 1].start
  }

  lemma ChunksAreNeighbours(k: int, last: int, chunkMs: int)
    ensures Neighbours(ChunksFrom(k, last, chunkMs))
  {
    var ws := ChunksFrom(k, last, chunkMs);
    forall i | 0 <= i < |ws| - 1
      ensures ws[i].end == ws[i + 1].start
    {
      NextChunk(k + i, chunkMs);
    }
  }

  lemma ChunkAt(first: int, last: int, chunkMs: int, i: nat)
    requires first + i <= last
    ensures Chunk(first + i, chunkMs) in ChunksFrom(first, last, chunkMs)
  {
    var ws := ChunksFrom(first, last, chunkMs);
    assert ws[i] == Chunk(first + i, chunkMs);
  }

  /** The list holds exactly the grid's chunks that meet [start, end), back to back, and covers it. */
  lemma ChunksCover(start: int, end: int, chunkMs: int)
    requires chunkMs > 0
    ensures var ws := Chunks(start, end, chunkMs);
      && (ws == [] <==> end <= start)
      && (start < end ==> ws[0].start <= start && end <= Last(ws).end)
      && Neighbours(ws)
      && (forall w :: w in ws <==>
            && start < end && Meets(w, start, end)
            && exists k ::
                 w == Chunk(k, chunkMs) && w.start == 1577836800000 + k * chunkMs && w.end == w.start + chunkMs)
  {
    if start < end {
      var first, last, ws := FirstIndex(start, chunkMs), LastIndex(end, chunkMs), Chunks(start, end, chunkMs);
      EndChunks(start, end, chunkMs);
      ChunksAreNeighbours(first, last, chunkMs);
      forall w
        ensures w in ws <==> Meets(w, start, end) && exists k :: w == Chunk(k, chunkMs)
      {
        if w in ws {
          var i :| 0 <= i < |ws| && ws[i] == w;
          ChunkIsNeeded(start, end, chunkMs, first + i);
        } else if exists k :: w == Chunk(k, chunkMs) {
          var k :| w == Chunk(k, chunkMs);
          ChunkIsNeeded(start, end, chunkMs, k);
          if first <= k <= last {
            assert Chunk(first + (k - first), chunkMs) == w;
            ChunkAt(first, last, chunkMs, k - first);
          }
        }
      }
    }
  }

  method ChunkWindows(startMs: int, endMs: int, chunkMs: int) returns (windows: seq<Window>)
    requires chunkMs > 0
    ensures windows == Chunks(startMs, endMs, chunkMs)
  {
    if endMs <= startMs {
      return [];
    }
    var firstIdx := (startMs - ANCHOR_MS) / chunkMs;
    var lastIdx := (endMs - ANCHOR_MS - 1) / chunkMs;
    windows := [];
    var i := firstIdx;
    while i < lastIdx + 1
      invariant firstIdx <= i
      invariant windows + ChunksFrom(i, lastIdx, chunkMs) == Chunks(startMs, endMs, chunkMs)
    {
      var chunkStart := ANCHOR_MS + i * chunkMs;
      var chunkEnd := chunkStart + chunkMs;
      assert ChunksFrom(i, lastIdx, chunkMs) == [Chunk(i, chunkMs)] + ChunksFrom(i + 1, lastIdx, chunkMs);
      windows := windows + [Window(chunkStart, chunkEnd)];
      i := i + 1;
    }
  }

  // ----- Frames -----------------------------------------------------------------------------

  predicate SortedByTime(rows: seq<Candle>) {
    forall i, j :: 0 <= i < j < |rows| ==> rows[i].t <= rows[j].t
  }

  predicate Increasing(rows: seq<Candle>) {
    forall i, j :: 0 <= i < j < |rows| ==> rows[i].t < rows[j].t
  }

  /** The first candle of a list stamped `t`. */
  function FirstAt(rows: seq<Candle>, t: int): Option<Candle> {
    if rows == [] then None
    else
      var earlier := FirstAt(Front(rows), t);
      if earlier.Some? then earlier else if Last(rows).t == t then Some(Last(rows)) else None
  }

  lemma {:induction false} FirstAtConcat(a: seq<Candle>, b: seq<Candle>, t: int)
    ensures FirstAt(a + b, t) == if FirstAt(a, t).Some? then FirstAt(a, t) else FirstAt(b, t)
  {
    if b == [] {
      assert a + b == a;
    } else {
      FirstAtConcat(a, Front(b), t);
      assert Front(a + b) == a + Front(b);
    }
  }

  lemma {:induction false} FirstAtFinds(rows: seq<Candle>, t: int)
    ensures FirstAt(rows, t).Some? ==> FirstAt(rows, t).value in rows && FirstAt(rows, t).value.t == t
    ensures (exists c :: c in rows && c.t == t) ==> FirstAt(rows, t).Some?
  {
    if rows != [] {
      FirstAtFinds(Front(rows), t);
      assert rows == Front(rows) + [Last(rows)];
    }
  }

  /** Stable insertion: after every row that is not later. */
  function Insert(rows: seq<Candle>, c: Candle): seq<Candle> {
    if rows == [] || Last(rows).t <= c.t then rows + [c]
    else Insert(Front(rows), c) + [Last(rows)]
  }

  /** `sort_index()`. */
  function SortByTime(rows: seq<Candle>): seq<Candle> {
    if rows == [] then [] else Insert(SortByTime(Front(rows)), Last(rows))
  }

  lemma {:induction false} InsertKeepsOrder(rows: seq<Candle>, c: Candle)
    requires SortedByTime(rows)
    ensures SortedByTime(Insert(rows, c))
    ensures forall x :: x in Insert(rows, c) <==> x in rows || x == c
  {
    if rows != [] && Last(rows).t > c.t {
      InsertKeepsOrder(Front(rows), c);
      var ins := Insert(Front(rows), c);
      assert rows == Front(rows) + [Last(rows)];
      forall i | 0 <= i < |ins|
        ensures ins[i].t <= Last(rows).t
      {
        assert ins[i] in ins;
      }
    }
  }

  lemma FirstAtSnoc(rows: seq<Candle>, c: Candle, t: int)
    ensures FirstAt(rows + [c], t)
         == if FirstAt(rows, t).Some? then FirstAt(rows, t) else if c.t == t then Some(c) else None
  {
    assert Front(rows + [c]) == rows;
  }

  lemma {:induction false} InsertIsStable(rows: seq<Candle>, c: Candle, t: int)
    ensures FirstAt(Insert(rows, c), t) == FirstAt(rows + [c], t)
  {
    FirstAtSnoc(rows, c, t);
    if rows != [] && Last(rows).t > c.t {
      InsertIsStable(Front(rows), c, t);
      FirstAtSnoc(Front(rows), c, t);
      FirstAtSnoc(Insert(Front(rows), c), Last(rows), t);
    }
  }

  lemma {:induction false} SortSorts(rows: seq<Candle>)
    ensures SortedByTime(SortByTime(rows))
    ensures forall x :: x in SortByTime(rows) <==> x in rows
  {
    if rows != [] {
      SortSorts(Front(rows));
      InsertKeepsOrder(SortByTime(Front(rows)), Last(rows));
      assert rows == Front(rows) + [Last(rows)];
    }
  }

  lemma {:induction false} SortIsStable(rows: seq<Candle>, t: int)
    ensures FirstAt(SortByTime(rows), t) == FirstAt(rows, t)
  {
    if rows != [] {
      SortIsStable(Front(rows), t);
      InsertIsStable(SortByTime(Front(rows)), Last(rows), t);
      FirstAtSnoc(SortByTime(Front(rows)), Last(rows), t);
    }
  }

  /** `full[~full.index.duplicated(keep="first")]`. */
  function KeepFirst(rows: seq<Candle>): seq<Candle> {
    if rows == [] then []
    else KeepFirst(Front(rows)) + if FirstAt(Front(rows), Last(rows).t).None? then [Last(rows)] else []
  }

  lemma {:induction false} KeepFirstProperties(rows: seq<Candle>)
    ensures forall x :: x in KeepFirst(rows) <==> FirstAt(rows, x.t) == Some(x)
    ensures forall i, j :: 0 <= i < j < |KeepFirst(rows)| ==> KeepFirst(rows)[i].t != KeepFirst(rows)[j].t
  {
    if rows != [] {
      KeepFirstProperties(Front(rows));
      var kept := KeepFirst(Front(rows));
      forall i | 0 <= i < |kept|
        ensures FirstAt(Front(rows), kept[i].t) == Some(kept[i])
      {
        assert kept[i] in kept;
      }
    }
  }

  /** The rows with start <= t < end. */
  function Slice(rows: seq<Candle>, start: int, end: int): seq<Candle> {
    if rows == [] then []
    else Slice(Front(rows), start, end) + if start <= Last(rows).t < end then [Last(rows)] else []
  }

  lemma {:induction false} SliceProperties(rows: seq<Candle>, start: int, end: int)
    requires Increasing(rows)
    ensures Increasing(Slice(rows, start, end))
    ensures forall x :: x in Slice(rows, start, end) <==> x in rows && start <= x.t < end
  {
    if rows != [] {
      SliceProperties(Front(rows), start, end);
      var s := Slice(Front(rows), start, end);
      assert rows == Front(rows) + [Last(rows)];
      forall i | 0 <= i < |s|
        ensures s[i].t < Last(rows).t
      {
        assert s[i] in s && s[i] in Front(rows);
      }
    }
  }

  /** `_candles_to_df`: the response sorted by time. */
  function ToFrame(candles: seq<Candle>): seq<Candle> {
    SortByTime(candles)
  }

  function Concat(frames: seq<seq<Candle>>): seq<Candle> {
    if frames == [] then [] else Concat(Front(frames)) + Last(frames)
  }

  /** concat, drop duplicates, sort, slice. */
  function Assemble(frames: seq<seq<Candle>>, start: int, end: int): seq<Candle> {
    Slice(SortByTime(KeepFirst(Concat(frames))), start, end)
  }

  // ----- What an uncached load returns ---------------------------------------------------------

  /** The raw responses for a list of windows, in window order. */
  function Responses(endpoint: Endpoint, coin: string, interval: string, ws: seq<Window>): seq<Candle> {
    if ws == [] then []
    else Responses(endpoint, coin, interval, Front(ws)) + endpoint(coin, interval, Last(ws).start, Last(ws).end)
  }

  /**
   * `out` is the time-ordered selection from `all` of one candle for each stamp in
   * [start, end), the one that came first.
   */
  ghost predicate ExactlyTheWindow(out: seq<Candle>, all: seq<Candle>, start: int, end: int) {
    && Increasing(out)
    && forall c :: c in out <==> start <= c.t < end && FirstAt(all, c.t) == Some(c)
  }

  /** That selection is unique. */
  lemma {:induction false} WindowIsUnique(a: seq<Candle>, b: seq<Candle>)
    requires Increasing(a) && Increasing(b) && forall c :: c in a <==> c in b
    ensures a == b
  {
    assert |a| > 0 ==> a[0] in a;
    assert |b| > 0 ==> b[0] in b;
    if a != [] && b != [] {
      assert a == Front(a) + [Last(a)] && b == Front(b) + [Last(b)];
      assert Last(a) in b && Last(b) in a;
      assert Last(a) == Last(b);
      forall c
        ensures c in Front(a) <==> c in Front(b)
      {
        assert c in Front(a) ==> c.t < Last(a).t;
        assert c in Front(b) ==> c.t < Last(b).t;
        assert c in a <==> c in b;
      }
      WindowIsUnique(Front(a), Front(b));
    }
  }

  predicate DistinctTimes(rows: seq<Candle>) {
    forall i, j :: 0 <= i < j < |rows| ==> rows[i].t != rows[j].t
  }

  lemma {:induction false} InsertDistinct(rows: seq<Candle>, c: Candle)
    requires DistinctTimes(rows) && forall i :: 0 <= i < |rows| ==> rows[i].t != c.t
    ensures DistinctTimes(Insert(rows, c))
    ensures forall x :: x in Insert(rows, c) <==> x in rows || x == c
  {
    if rows != [] && Last(rows).t > c.t {
      InsertDistinct(Front(rows), c);
      var ins := Insert(Front(rows), c);
      assert rows == Front(rows) + [Last(rows)];
      forall i | 0 <= i < |ins|
        ensures ins[i].t != Last(rows).t
      {
        assert ins[i] in ins;
      }
    }
  }

  lemma {:induction false} DistinctStaysDistinct(rows: seq<Candle>)
    requires DistinctTimes(rows)
    ensures DistinctTimes(SortByTime(rows))
  {
    if rows != [] {
      DistinctStaysDistinct(Front(rows));
      SortSorts(Front(rows));
      var sorted := SortByTime(Front(rows));
      forall i | 0 <= i < |sorted|
        ensures sorted[i].t != Last(rows).t
      {
        assert sorted[i] in Front(rows);
      }
      InsertDistinct(sorted, Last(rows));
    }
  }

  /** Sorting each chunk and then assembling them selects the same rows as reading the raw responses. */
  lemma AssembleIsExact(frames: seq<seq<Candle>>, all: seq<Candle>, start: int, end: int)
    requires SameFirsts(frames, all)
    ensures ExactlyTheWindow(Assemble(frames, start, end), all, start, end)
  {
    var kept := KeepFirst(Concat(frames));
    KeepFirstProperties(Concat(frames));
    SortSorts(kept);
    DistinctStaysDistinct(kept);
    SliceProperties(SortByTime(kept), start, end);
  }

  /** `if not df.empty: frames.append(df)`. */
  function AddFrame(frames: seq<seq<Candle>>, df: seq<Candle>): seq<seq<Candle>> {
    if df == [] then frames else frames + [df]
  }

  /** The frames so far offer the same first candle per stamp as the responses so far. */
  ghost predicate SameFirsts(frames: seq<seq<Candle>>, all: seq<Candle>) {
    forall t :: FirstAt(Concat(frames), t) == FirstAt(all, t)
  }

  lemma FramesStep(frames: seq<seq<Candle>>, all: seq<Candle>, response: seq<Candle>)
    requires SameFirsts(frames, all)
    ensures SameFirsts(AddFrame(frames, ToFrame(response)), all + response)
  {
    var df := ToFrame(response);
    assert Front(frames + [df]) == frames;
    assert df == [] ==> Concat(frames) + df == Concat(frames);
    forall t
      ensures FirstAt(Concat(AddFrame(frames, df)), t) == FirstAt(all + response, t)
    {
      FirstAtConcat(Concat(frames), df, t);
      FirstAtConcat(all, response, t);
      SortIsStable(response, t);
    }
  }

  // ----- load_candles ----------------------------------------------------------------------------

  /** The name of one parquet file. */
  datatype Key = Key(coin: string, interval: string, start: int, end: int)

  function KeyOf(coin: string, interval: string, w: Window): Key {
    Key(coin, interval, w.start, w.end)
  }

  function KeysOf(coin: string, interval: string, ws: seq<Window>): set<Key> {
    set w | w in ws :: KeyOf(coin, interval, w)
  }

  lemma NextWindow(endpoint: Endpoint, coin: string, interval: string, ws: seq<Window>, i: nat)
    requires i < |ws|
    ensures KeysOf(coin, interval, ws[..i + 1]) == KeysOf(coin, interval, ws[..i]) + {KeyOf(coin, interval, ws[i])}
    ensures Responses(endpoint, coin, interval, ws[..i + 1])
         == Responses(endpoint, coin, interval, ws[..i]) + endpoint(coin, interval, ws[i].start, ws[i].end)
  {
    assert Front(ws[..i + 1]) == ws[..i];
    assert ws[..i + 1] == ws[..i] + [ws[i]];
  }

  /** The cache and the request log of a loader at one moment. */
  datatype Disk = Disk(cache: map<Key, seq<Candle>>, fetches: seq<Key>)

  /** From `a` to `b`: the missing files among `keys` were fetched and written, and nothing else happened. */
  ghost predicate FetchedOnly(a: Disk, b: Disk, keys: set<Key>) {
    && b.cache.Keys == a.cache.Keys + keys
    && (forall k :: k in a.cache ==> b.cache[k] == a.cache[k])
    && a.fetches <= b.fetches
    && (forall k :: k in b.fetches[|a.fetches|..] <==> k in keys && k !in a.cache)
  }

  lemma FetchedThen(a: Disk, b: Disk, c: Disk, keys: set<Key>, more: set<Key>)
    requires FetchedOnly(a, b, keys) && FetchedOnly(b, c, more)
    ensures FetchedOnly(a, c, keys + more)
  {
    assert c.fetches[|a.fetches|..] == b.fetches[|a.fetches|..] + c.fetches[|b.fetches|..];
  }

  class Loader {
    const endpoint: Endpoint
    /** The cache directory. */
    var cache: map<Key, seq<Candle>>
    /** Every request ever sent to the endpoint, oldest first. */
    ghost var fetches: seq<Key>

    ghost function State(): Disk
      reads this
    {
      Disk(cache, fetches)
    }

    /** Files hold what the endpoint answers, and no file was ever requested twice. */
    ghost predicate Valid()
      reads this
    {
      && (forall k :: k in cache ==> cache[k] == ToFrame(endpoint(k.coin, k.interval, k.start, k.end)))
      && (forall i :: 0 <= i < |fetches| ==> fetches[i] in cache)
      && (forall i, j :: 0 <= i < j < |fetches| ==> fetches[i] != fetches[j])
    }

    constructor (endpoint: Endpoint)
      ensures Valid() && cache == map[] && fetches == [] && this.endpoint == endpoint
    {
      this.endpoint := endpoint;
      cache := map[];
      fetches := [];
    }

    /** One pass of the inner loop: read the file, or fetch and write it. */
    method LoadChunk(coin: string, interval: string, w: Window) returns (df: seq<Candle>)
      requires Valid()
      modifies this
      ensures Valid() && FetchedOnly(old(State()), State(), {KeyOf(coin, interval, w)})
      ensures df == ToFrame(endpoint(coin, interval, w.start, w.end))
      ensures SortedByTime(df) && forall c :: c in df <==> c in endpoint(coin, interval, w.start, w.end)
    {
      SortSorts(endpoint(coin, interval, w.start, w.end));
      hide SortByTime;
      var file := KeyOf(coin, interval, w);
      if file in cache {
        df := cache[file];
      } else {
        var candles := endpoint(coin, interval, w.start, w.end);
        df := ToFrame(candles);
        cache := cache[file := df];
        fetches := fetches + [file];
      }
    }

    method LoadCoin(coin: string, interval: string, startMs: int, nowMs: int, chunkMs: int) returns (full: seq<Candle>)
      requires Valid() && chunkMs > 0
      modifies this
      ensures Valid()
      ensures FetchedOnly(old(State()), State(), KeysOf(coin, interval, Chunks(startMs, nowMs, chunkMs)))
      ensures ExactlyTheWindow(full, Responses(endpoint, coin, interval, Chunks(startMs, nowMs, chunkMs)),
                               startMs, nowMs)
    {
      var windows := ChunkWindows(startMs, nowMs, chunkMs);
      var frames: seq<seq<Candle>> := [];
      for i := 0 to |windows|
        invariant Valid() && FetchedOnly(old(State()), State(), KeysOf(coin, interval, windows[..i]))
        invariant SameFirsts(frames, Responses(endpoint, coin, interval, windows[..i]))
      {
        ghost var before := State();
        var w := windows[i];
        var df := LoadChunk(coin, interval, w);
        FetchedThen(old(State()), before, State(), KeysOf(coin, interval, windows[..i]), {KeyOf(coin, interval, w)});
        NextWindow(endpoint, coin, interval, windows, i);
        FramesStep(frames, Responses(endpoint, coin, interval, windows[..i]), endpoint(coin, interval, w.start, w.end));
        frames := AddFrame(frames, df);
      }
      assert windows[..|windows|] == windows;
      AssembleIsExact(frames, Responses(endpoint, coin, interval, windows), startMs, nowMs);
      full := Assemble(frames, startMs, nowMs);
    }

    /**
     * Whatever earlier loads cached: every coin's frame is exactly what the uncached
     * responses hold for [now - days, now), and only missing chunks are requested.
     */
    method LoadCandles(coins: seq<string>, days: int, interval: string, chunkDays: int, nowMs: int)
      returns (r: Result<map<string, seq<Candle>>>)
      requires Valid()
      modifies this
      ensures Valid()
      ensures r.Err? <==> days <= 0 || chunkDays <= 0
      ensures r.Err? ==> State() == old(State())
      ensures r.Ok? ==> (forall c :: c in r.value <==> c in coins)
      ensures r.Ok? ==> forall c :: c in coins ==>
        ExactlyTheWindow(r.value[c], Uncached(endpoint, c, days, interval, chunkDays, nowMs),
                         nowMs - days * 86400000, nowMs)
      ensures r.Ok? ==>
        FetchedOnly(old(State()), State(), KeysOfCoins(coins, interval, WindowsOf(days, chunkDays, nowMs)))
    {
      if days <= 0 {
        return Err("days must be positive");
      }
      if chunkDays <= 0 {
        return Err("chunk_days must be positive");
      }
      var startMs, chunkMs := nowMs - days * MS_PER_DAY, chunkDays * MS_PER_DAY;
      ghost var ws := WindowsOf(days, chunkDays, nowMs);
      assert ws == Chunks(startMs, nowMs, chunkMs);
      assert forall c: string ::
        Uncached(endpoint, c, days, interval, chunkDays, nowMs) == Responses(endpoint, c, interval, ws);
      assert FetchedOnly(State(), State(), KeysOfCoins(coins[..0], interval, ws));
      hide Valid, FetchedOnly, ExactlyTheWindow, Chunks, WindowsOf, Uncached, Responses, KeysOf, KeysOfCoins;
      var out: map<string, seq<Candle>> := map[];
      for i := 0 to |coins|
        invariant Valid() && FetchedOnly(old(State()), State(), KeysOfCoins(coins[..i], interval, ws))
        invariant forall c :: c in out <==> c in coins[..i]
        invariant forall c :: c in out ==>
          ExactlyTheWindow(out[c], Uncached(endpoint, c, days, interval, chunkDays, nowMs), startMs, nowMs)
      {
        ghost var before := State();
        var full := LoadCoin(coins[i], interval, startMs, nowMs, chunkMs);
        FetchedThen(old(State()), before, State(), KeysOfCoins(coins[..i], interval, ws),
                    KeysOf(coins[i], interval, ws));
        NextCoin(coins, interval, ws, i);
        out := out[coins[i] := full];
      }
      assert coins[..|coins|] == coins;
      r := Ok(out);
    }
  }

  function WindowsOf(days: int, chunkDays: int, nowMs: int): seq<Window>
    requires chunkDays > 0
  {
    Chunks(nowMs - days * 86400000, nowMs, chunkDays * 86400000)
  }

  function Uncached(endpoint: Endpoint, coin: string, days: int, interval: string, chunkDays: int,
                    nowMs: int): seq<Candle>
    requires chunkDays > 0
  {
    Responses(endpoint, coin, interval, WindowsOf(days, chunkDays, nowMs))
  }

  function KeysOfCoins(coins: seq<string>, interval: string, ws: seq<Window>): set<Key> {
    set c, w | c in coins && w in ws :: KeyOf(c, interval, w)
  }

  lemma NextCoin(coins: seq<string>, interval: string, ws: seq<Window>, i: nat)
    requires i < |coins|
    ensures KeysOfCoins(coins[..i + 1], interval, ws)
         == KeysOfCoins(coins[..i], interval, ws) + KeysOf(coins[i], interval, ws)
    ensures coins[..i + 1] == coins[..i] + [coins[i]]
  {
    assert coins[..i + 1] == coins[..i] + [coins[i]];
  }

  // ----- The chunk size does not matter ---------------------------------------------------------

  /**
   * The endpoint serves one fixed history: a response holds only its candles, and all
   * of those inside the window (it may add others, such as the one on the end stamp).
   */
  ghost predicate Serves(endpoint: Endpoint, coin: string, interval: string, history: set<Candle>) {
    && (forall a, b :: a in history && b in history && a.t == b.t ==> a == b)
    && (forall cs, ce, c :: c in endpoint(coin, interval, cs, ce) ==> c in history)
    && (forall cs, ce, c :: c in history && cs <= c.t < ce ==> c in endpoint(coin, interval, cs, ce))
  }

  lemma {:induction false} ResponsesServe(endpoint: Endpoint, coin: string, interval: string, history: set<Candle>,
                                          ws: seq<Window>, c: Candle)
    requires Serves(endpoint, coin, interval, history)
    ensures c in Responses(endpoint, coin, interval, ws) ==> c in history
    ensures c in history && (exists i :: 0 <= i < |ws| && ws[i].start <= c.t < ws[i].end) ==>
      c in Responses(endpoint, coin, interval, ws)
  {
    if ws != [] {
      ResponsesServe(endpoint, coin, interval, history, Front(ws), c);
      assert forall i :: 0 <= i < |ws| - 1 ==> ws[i] == Front(ws)[i];
    }
  }

  lemma SomeChunkHolds(start: int, end: int, chunkMs: int, t: int)
    requires chunkMs > 0 && start <= t < end
    ensures var ws := Chunks(start, end, chunkMs); exists i :: 0 <= i < |ws| && ws[i].start <= t < ws[i].end
  {
    var k := (t - ANCHOR_MS) / chunkMs;
    FloorBounds(t - ANCHOR_MS, chunkMs, k);
    FloorBounds(t - ANCHOR_MS, chunkMs, k + 1);
    NextChunk(k, chunkMs);
    ChunkIsNeeded(start, end, chunkMs, k);
    assert Chunks(start, end, chunkMs)[k - FirstIndex(start, chunkMs)] == Chunk(k, chunkMs);
  }

  /** Against a fixed history a load returns precisely its candles in [start, now), for every chunk size. */
  lemma LoadIsTheHistory(endpoint: Endpoint, coin: string, interval: string, history: set<Candle>,
                         days: int, chunkDays: int, nowMs: int, out: seq<Candle>)
    requires chunkDays > 0 && Serves(endpoint, coin, interval, history)
    ensures var start := nowMs - days * 86400000;
      ExactlyTheWindow(out, Uncached(endpoint, coin, days, interval, chunkDays, nowMs), start, nowMs) ==>
        Increasing(out) && forall c :: c in out <==> c in history && start <= c.t < nowMs
  {
    var start, chunkMs := nowMs - days * 86400000, chunkDays * 86400000;
    var ws := WindowsOf(days, chunkDays, nowMs);
    var all := Uncached(endpoint, coin, days, interval, chunkDays, nowMs);
    if ExactlyTheWindow(out, all, start, nowMs) {
      forall c
        ensures c in out <==> c in history && start <= c.t < nowMs
      {
        FirstAtFinds(all, c.t);
        if c in out {
          ResponsesServe(endpoint, coin, interval, history, ws, c);
        } else if c in history && start <= c.t < nowMs {
          SomeChunkHolds(start, nowMs, chunkMs, c.t);
          ResponsesServe(endpoint, coin, interval, history, ws, c);
          var first := FirstAt(all, c.t).value;
          ResponsesServe(endpoint, coin, interval, history, ws, first);
        }
      }
    }
  }
}
