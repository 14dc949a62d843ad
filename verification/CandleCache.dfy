// The gap-filling candle cache: which spans are missing, what saving keeps, and what a fetch
// returns once the missing spans have been downloaded.
module CandleCache {
  import opened Common
  import opened Backtest
  import opened CandleLists

  datatype Timeframe = M5 | M15 | H1 | H4 | D1
  {
    function Seconds(): (n: nat)
      ensures n > 0
    {
      match this
      case M5 => 300
      case M15 => 900
      case H1 => 3600
      case H4 => 14400
      case D1 => 86400
    }

    function Step(): (n: nat)
      ensures n > 0
    {
      Seconds() * SECOND
    }
  }

  datatype Series = Series(exchange: string, symbol: string, timeframe: Timeframe)

  // The unique key of a stored candle.
  datatype Key = Key(series: Series, at: Instant)

  type Rows = map<Key, Candle>

  ghost predicate Keyed(rows: Rows) {
    forall k :: k in rows ==> rows[k].timestamp == k.at
  }

  // ---------------------------------------------------------------- the grid

  predicate OnGrid(at: int, step: nat)
    requires step > 0
  {
    at % step == 0
  }

  lemma GridIndex(at: int, step: nat) returns (k: int)
    requires step > 0 && OnGrid(at, step)
    ensures at == k * step
  {
    k := at / step;
  }

  lemma MultipleOnGrid(k: int, step: nat)
    requires step > 0
    ensures OnGrid(k * step, step)
  {
    var q, r := k * step / step, k * step % step;
    assert k * step == q * step + r;
    SmallMultiple(k - q, step, r);
  }

  lemma {:induction false} Grows(n: nat, step: nat)
    requires n > 0
    ensures n * step >= step
  {
    if n > 1 {
      assert n * step == (n - 1) * step + step;
      Grows(n - 1, step);
    }
  }

  lemma SmallMultiple(d: int, step: nat, r: int)
    requires d * step == r && 0 <= r < step
    ensures r == 0
  {
    assert (-d) * step == -(d * step);
    if d > 0 {
      Grows(d, step);
    } else if d < 0 {
      Grows(-d, step);
    }
  }

  lemma NextOnGrid(at: int, step: nat)
    requires step > 0 && OnGrid(at, step)
    ensures OnGrid(at + step, step) && OnGrid(at - step, step)
  {
    hide OnGrid;
    var k := GridIndex(at, step);
    MultipleOnGrid(k + 1, step);
    MultipleOnGrid(k - 1, step);
    assert (k + 1) * step == at + step && (k - 1) * step == at - step;
  }

  lemma GridGap(a: int, b: int, step: nat)
    requires step > 0 && OnGrid(a, step) && OnGrid(b, step) && a < b
    ensures a + step <= b
  {
    hide OnGrid;
    var i := GridIndex(a, step);
    var j := GridIndex(b, step);
    IndexGap(i, j, step);
  }

  lemma IndexGap(i: int, j: int, step: nat)
    requires i * step < j * step
    ensures i * step + step <= j * step
  {
    assert (j - i) * step == j * step - i * step;
    assert (i - j) * step == i * step - j * step;
    if i < j {
      Grows(j - i, step);
    } else if j < i {
      Grows(i - j, step);
    }
  }

  // The start of the bar an instant falls in, found in whole seconds.
  function FloorTime(value: Instant, timeframe: Timeframe): (r: Instant)
    ensures OnGrid(r, timeframe.Step()) && r <= value < r + timeframe.Step()
  {
    var seconds := value / SECOND;
    FloorIsOnGrid(seconds, timeframe.Seconds());
    (seconds - seconds % timeframe.Seconds()) * SECOND
  }

  lemma FloorIsOnGrid(seconds: nat, bar: nat)
    requires bar > 0
    ensures OnGrid((seconds - seconds % bar) * SECOND, bar * SECOND) && seconds % bar <= seconds
  {
    hide OnGrid;
    var k := seconds / bar;
    assert seconds - seconds % bar == k * bar;
    assert k * (bar * SECOND) == k * bar * SECOND;
    MultipleOnGrid(k, bar * SECOND);
  }

  // ---------------------------------------------------------------- missing ranges

  type Range = (Instant, Instant)

  // The scan from `cursor`, with the range it has open.
  function Missing(cached: set<Instant>, cursor: Instant, end: Instant, step: nat, open: Option<Instant>): seq<Range>
    requires step > 0
    decreases end - cursor
  {
    if cursor >= end then
      if open.Some? then [(open.value, end)] else []
    else if cursor !in cached && open.None? then
      Missing(cached, cursor + step, end, step, Some(cursor))
    else if cursor in cached && open.Some? then
      [(open.value, cursor)] + Missing(cached, cursor + step, end, step, None)
    else
      Missing(cached, cursor + step, end, step, open)
  }

  predicate Covered(ranges: seq<Range>, p: Instant) {
    exists i :: 0 <= i < |ranges| && ranges[i].0 <= p < ranges[i].1
  }

  ghost predicate Ordered(ranges: seq<Range>) {
    && (forall i :: 0 <= i < |ranges| ==> ranges[i].0 < ranges[i].1)
    && (forall i, j :: 0 <= i < j < |ranges| ==> ranges[i].1 < ranges[j].0)
  }

  // Each range starts at a grid point and runs to a cached grid point or to the end.
  ghost predicate Bounded(ranges: seq<Range>, cached: set<Instant>, from: Instant, end: Instant, step: nat)
    requires step > 0
  {
    forall i :: 0 <= i < |ranges| ==>
      && from <= ranges[i].0 && OnGrid(ranges[i].0, step)
      && ranges[i].1 <= end
      && (ranges[i].1 < end ==> OnGrid(ranges[i].1, step) && ranges[i].1 in cached)
  }

  ghost predicate CoversExactly(ranges: seq<Range>, cached: set<Instant>, from: Instant, end: Instant, step: nat)
    requires step > 0
  {
    forall p: Instant :: from <= p < end && OnGrid(p, step) ==> (p !in cached <==> Covered(ranges, p))
  }

  // Ordered, disjoint ranges that cover exactly the uncached grid points of [from, end).
  ghost predicate GapList(ranges: seq<Range>, cached: set<Instant>, from: Instant, end: Instant, step: nat)
    requires step > 0
  {
    Ordered(ranges) && Bounded(ranges, cached, from, end, step) && CoversExactly(ranges, cached, from, end, step)
  }

  lemma CoveredByFirstOrRest(first: Range, rest: seq<Range>, p: Instant)
    ensures Covered([first] + rest, p) <==> (first.0 <= p < first.1 || Covered(rest, p))
  {
    var all := [first] + rest;
    if first.0 <= p < first.1 {
      assert all[0].0 <= p < all[0].1;
    }
    if Covered(rest, p) {
      var i :| 0 <= i < |rest| && rest[i].0 <= p < rest[i].1;
      assert all[i + 1].0 <= p < all[i + 1].1;
    }
  }

  // Nothing between `o` and the cursor is cached while a range is open at `o`.
  ghost predicate OpenSince(cached: set<Instant>, o: Instant, cursor: Instant, step: nat)
    requires step > 0
  {
    && o < cursor && OnGrid(o, step)
    && (forall p: Instant :: o <= p < cursor && OnGrid(p, step) ==> p !in cached)
  }

  lemma OpenOneMore(cached: set<Instant>, o: Instant, cursor: Instant, step: nat)
    requires step > 0 && OnGrid(cursor, step) && cursor !in cached
    requires o == cursor || OpenSince(cached, o, cursor, step)
    ensures OpenSince(cached, o, cursor + step, step)
  {
    forall p: Instant | o <= p < cursor + step && OnGrid(p, step)
      ensures p !in cached
    {
      if p > cursor {
        GridGap(cursor, p, step);
        assert false;
      }
    }
  }

  lemma {:induction false} MissingIsGapList(cached: set<Instant>, cursor: Instant, end: Instant, step: nat,
                                            open: Option<Instant>)
    requires step > 0 && OnGrid(cursor, step)
    requires open.Some? ==> open.value < cursor && open.value < end && OpenSince(cached, open.value, cursor, step)
    ensures GapList(Missing(cached, cursor, end, step, open), cached, if open.Some? then open.value else cursor, end,
                    step)
    decreases end - cursor
  {
    hide OnGrid, GapList, OpenSince;
    var from := if open.Some? then open.value else cursor;
    if cursor >= end {
      if open.Some? {
        OneRange(cached, from, cursor, end, step);
      } else {
        NoRange(cached, from, end, step);
      }
    } else {
      NextOnGrid(cursor, step);
      if cursor in cached {
        var rest := Missing(cached, cursor + step, end, step, None);
        MissingIsGapList(cached, cursor + step, end, step, None);
        if open.Some? {
          CloseRange(cached, from, cursor, end, step, rest);
        } else {
          SkipCached(cached, cursor, end, step, rest);
        }
      } else {
        OpenOneMore(cached, from, cursor, step);
        MissingIsGapList(cached, cursor + step, end, step, Some(from));
      }
    }
  }

  lemma NoRange(cached: set<Instant>, from: Instant, end: Instant, step: nat)
    requires step > 0 && end <= from
    ensures GapList([], cached, from, end, step)
  {
  }

  lemma OneRange(cached: set<Instant>, from: Instant, cursor: Instant, end: Instant, step: nat)
    requires step > 0 && from < end <= cursor && OpenSince(cached, from, cursor, step)
    ensures GapList([(from, end)], cached, from, end, step)
  {
    hide OnGrid;
    var r: seq<Range> := [(from, end)];
    forall p: Instant | from <= p < end
      ensures Covered(r, p)
    {
      assert r[0].0 <= p < r[0].1;
    }
  }

  lemma CloseRange(cached: set<Instant>, from: Instant, cursor: Instant, end: Instant, step: nat, rest: seq<Range>)
    requires step > 0 && OnGrid(cursor, step) && cursor in cached && cursor < end
    requires OpenSince(cached, from, cursor, step)
    requires GapList(rest, cached, cursor + step, end, step)
    ensures GapList([(from, cursor)] + rest, cached, from, end, step)
  {
    hide OnGrid;
    forall p: Instant | from <= p < end && OnGrid(p, step)
      ensures p !in cached <==> Covered([(from, cursor)] + rest, p)
    {
      CoveredByFirstOrRest((from, cursor), rest, p);
      if p > cursor {
        GridGap(cursor, p, step);
      }
    }
  }

  lemma SkipCached(cached: set<Instant>, cursor: Instant, end: Instant, step: nat, rest: seq<Range>)
    requires step > 0 && OnGrid(cursor, step) && cursor in cached
    requires GapList(rest, cached, cursor + step, end, step)
    ensures GapList(rest, cached, cursor, end, step)
  {
    hide OnGrid;
    forall p: Instant | cursor <= p < end && OnGrid(p, step)
      ensures p !in cached <==> Covered(rest, p)
    {
      if p > cursor {
        GridGap(cursor, p, step);
      }
    }
  }

  // A range cannot be extended to the left: the grid point before it is cached.
  lemma RangesAreMaximal(ranges: seq<Range>, cached: set<Instant>, from: Instant, end: Instant, step: nat, i: nat)
    requires step > 0 && i < |ranges| && GapList(ranges, cached, from, end, step) && OnGrid(from, step)
    ensures ranges[i].0 > from ==> ranges[i].0 - step >= from && ranges[i].0 - step in cached
    ensures ranges[i].1 < end ==> ranges[i].1 in cached
  {
    hide OnGrid, Covered;
    var lo := ranges[i].0;
    if lo > from {
      GridGap(from, lo, step);
      NextOnGrid(lo, step);
      if lo - step !in cached {
        JustBelowIsCovered(ranges, cached, from, end, step, i);
      }
    }
  }

  lemma JustBelowIsCovered(ranges: seq<Range>, cached: set<Instant>, from: Instant, end: Instant, step: nat, i: nat)
    requires step > 0 && i < |ranges| && Ordered(ranges) && Bounded(ranges, cached, from, end, step)
    requires step <= ranges[i].0
    ensures !Covered(ranges, ranges[i].0 - step)
  {
    hide OnGrid;
    var lo := ranges[i].0;
    if Covered(ranges, lo - step) {
      var j :| 0 <= j < |ranges| && ranges[j].0 <= lo - step < ranges[j].1;
      NextOnGrid(lo, step);
      if j < i {
        GridGap(lo - step, ranges[j].1, step);
      }
    }
  }

  lemma InsideIsUncached(ranges: seq<Range>, cached: set<Instant>, from: Instant, end: Instant, step: nat, i: nat,
                         p: Instant)
    requires step > 0 && i < |ranges| && CoversExactly(ranges, cached, from, end, step)
    requires ranges[i].0 <= p < ranges[i].1 && from <= p < end && OnGrid(p, step)
    ensures p !in cached
  {
    assert Covered(ranges, p);
  }

  lemma FirstsAgree(a: seq<Range>, b: seq<Range>, cached: set<Instant>, from: Instant, end: Instant, step: nat)
    requires step > 0 && GapList(a, cached, from, end, step) && GapList(b, cached, from, end, step)
    requires a != []
    ensures b != [] && b[0].0 <= a[0].0
  {
    hide OnGrid;
    InsideIsUncached(a, cached, from, end, step, 0, a[0].0);
    assert Covered(b, a[0].0);
    var j :| 0 <= j < |b| && b[j].0 <= a[0].0 < b[j].1;
    assert b[0].0 <= b[j].0;
  }

  lemma FirstEndsAgree(a: seq<Range>, b: seq<Range>, cached: set<Instant>, from: Instant, end: Instant, step: nat)
    requires step > 0 && GapList(a, cached, from, end, step) && GapList(b, cached, from, end, step)
    requires a != [] && b != [] && a[0].0 == b[0].0
    ensures b[0].1 <= a[0].1
  {
    hide OnGrid, Covered, CoversExactly;
    if a[0].1 < b[0].1 {
      InsideIsUncached(b, cached, from, end, step, 0, a[0].1);
    }
  }

  lemma RestIsGapList(ranges: seq<Range>, cached: set<Instant>, from: Instant, end: Instant, step: nat)
    requires step > 0 && ranges != [] && GapList(ranges, cached, from, end, step)
    ensures GapList(ranges[1..], cached, ranges[0].1, end, step)
  {
    hide OnGrid;
    assert ranges == [ranges[0]] + ranges[1..];
    forall p: Instant | ranges[0].1 <= p < end && OnGrid(p, step)
      ensures p !in cached <==> Covered(ranges[1..], p)
    {
      CoveredByFirstOrRest(ranges[0], ranges[1..], p);
    }
  }

  // There is only one such list.
  lemma {:induction false} GapListIsUnique(a: seq<Range>, b: seq<Range>, cached: set<Instant>, from: Instant,
                                           end: Instant, step: nat)
    requires step > 0 && GapList(a, cached, from, end, step) && GapList(b, cached, from, end, step)
    ensures a == b
    decreases |a|
  {
    hide GapList, OnGrid;
    if a == [] {
      if b != [] {
        FirstsAgree(b, a, cached, from, end, step);
      }
    } else {
      FirstsAgree(a, b, cached, from, end, step);
      FirstsAgree(b, a, cached, from, end, step);
      FirstEndsAgree(a, b, cached, from, end, step);
      FirstEndsAgree(b, a, cached, from, end, step);
      RestIsGapList(a, cached, from, end, step);
      RestIsGapList(b, cached, from, end, step);
      GapListIsUnique(a[1..], b[1..], cached, a[0].1, end, step);
      assert a == [a[0]] + a[1..] && b == [b[0]] + b[1..];
    }
  }

  // ---------------------------------------------------------------- stored rows

  // The stored candles of [start, end) in time order.
  function Loaded(rows: Rows, series: Series, start: Instant, end: Instant): seq<Candle>
    decreases end - start
  {
    if start >= end then []
    else
      var rest := Loaded(rows, series, start + 1, end);
      if Key(series, start) in rows then [rows[Key(series, start)]] + rest else rest
  }

  ghost predicate Chronological(r: seq<Candle>, start: Instant, end: Instant) {
    Ascending(r) && forall i :: 0 <= i < |r| ==> start <= r[i].timestamp < end
  }

  lemma ChronologicalCons(c: Candle, rest: seq<Candle>, start: Instant, end: Instant)
    requires Chronological(rest, start + 1, end) && c.timestamp == start < end
    ensures Chronological([c] + rest, start, end)
  {
  }

  lemma {:induction false} LoadedIsOrdered(rows: Rows, series: Series, start: Instant, end: Instant)
    requires Keyed(rows)
    ensures Chronological(Loaded(rows, series, start, end), start, end)
    decreases end - start
  {
    if start < end {
      LoadedIsOrdered(rows, series, start + 1, end);
      if Key(series, start) in rows {
        ChronologicalCons(rows[Key(series, start)], Loaded(rows, series, start + 1, end), start, end);
      }
    }
  }

  // A candle on record for an instant of the span.
  predicate Stored(rows: Rows, series: Series, start: Instant, end: Instant, c: Candle) {
    start <= c.timestamp < end && Key(series, c.timestamp) in rows && rows[Key(series, c.timestamp)] == c
  }

  lemma {:induction false} LoadedIsExact(rows: Rows, series: Series, start: Instant, end: Instant, c: Candle)
    requires Keyed(rows)
    ensures c in Loaded(rows, series, start, end) <==> Stored(rows, series, start, end, c)
    decreases end - start
  {
    if start < end {
      LoadedIsExact(rows, series, start + 1, end, c);
      var rest := Loaded(rows, series, start + 1, end);
      if Key(series, start) in rows {
        assert c in [rows[Key(series, start)]] + rest <==> c == rows[Key(series, start)] || c in rest;
      }
    }
  }

  // The stored candles of a span have one ascending order.
  lemma LoadedIsUnique(rows: Rows, series: Series, start: Instant, end: Instant, candles: seq<Candle>)
    requires Keyed(rows) && Ascending(candles) && forall c :: c in candles <==> Stored(rows, series, start, end, c)
    ensures candles == Loaded(rows, series, start, end)
  {
    hide Stored;
    LoadedIsOrdered(rows, series, start, end);
    forall c
      ensures c in candles <==> c in Loaded(rows, series, start, end)
    {
      LoadedIsExact(rows, series, start, end, c);
    }
    SameElements(candles, Loaded(rows, series, start, end));
  }

  function CachedInstants(rows: Rows, series: Series, start: Instant, end: Instant): set<Instant> {
    set c | c in Loaded(rows, series, start, end) :: c.timestamp
  }

  lemma CachedExactly(rows: Rows, series: Series, start: Instant, end: Instant, p: Instant)
    requires Keyed(rows)
    ensures p in CachedInstants(rows, series, start, end) <==> start <= p < end && Key(series, p) in rows
  {
    hide Loaded;
    if start <= p < end && Key(series, p) in rows {
      LoadedIsExact(rows, series, start, end, rows[Key(series, p)]);
    }
    if p in CachedInstants(rows, series, start, end) {
      var c :| c in Loaded(rows, series, start, end) && c.timestamp == p;
      LoadedIsExact(rows, series, start, end, c);
    }
  }

  // Insert what is not there yet; on a repeated key the first row stays.
  function Saved(rows: Rows, series: Series, candles: seq<Candle>): Rows {
    if candles == [] then rows
    else
      var before := Saved(rows, series, candles[..|candles| - 1]);
      var c := candles[|candles| - 1];
      if Key(series, c.timestamp) in before then before else before[Key(series, c.timestamp) := c]
  }

  ghost predicate Extends(rows: Rows, later: Rows) {
    forall k :: k in rows ==> k in later && later[k] == rows[k]
  }

  // A stored candle never changes, and only the saved candles are added.
  lemma {:induction false} SavedKeepsRows(rows: Rows, series: Series, candles: seq<Candle>)
    requires Keyed(rows)
    ensures Keyed(Saved(rows, series, candles)) && Extends(rows, Saved(rows, series, candles))
    ensures forall k :: k in Saved(rows, series, candles) && k !in rows ==>
      k.series == series && Saved(rows, series, candles)[k] in candles
    ensures forall i :: 0 <= i < |candles| ==> Key(series, candles[i].timestamp) in Saved(rows, series, candles)
  {
    if candles != [] {
      SavedKeepsRows(rows, series, candles[..|candles| - 1]);
    }
  }

  function Gaps(rows: Rows, series: Series, start: Instant, end: Instant): seq<Range> {
    Missing(CachedInstants(rows, series, start, end), FloorTime(start, series.timeframe), end, series.timeframe.Step(),
            None)
  }

  // The missing ranges are the one list of ordered, disjoint ranges that covers exactly the grid
  // points before `end` without a stored candle in [start, end).
  lemma GapsAreExact(rows: Rows, series: Series, start: Instant, end: Instant)
    requires Keyed(rows)
    ensures var ranges, first, step := Gaps(rows, series, start, end), FloorTime(start, series.timeframe),
        series.timeframe.Step();
      && Ordered(ranges)
      && (forall p: Instant :: first <= p < end && OnGrid(p, step) ==>
            (Covered(ranges, p) <==> p < start || Key(series, p) !in rows))
      && (forall other ::
            GapList(other, CachedInstants(rows, series, start, end), first, end, step) ==> other == ranges)
  {
    hide OnGrid, Loaded, CachedInstants, FloorTime, Covered, Bounded;
    var ranges, first, step := Gaps(rows, series, start, end), FloorTime(start, series.timeframe),
        series.timeframe.Step();
    var cached := CachedInstants(rows, series, start, end);
    MissingIsGapList(cached, first, end, step, None);
    forall p: Instant | first <= p < end && OnGrid(p, step)
      ensures Covered(ranges, p) <==> p < start || Key(series, p) !in rows
    {
      CachedExactly(rows, series, start, end, p);
    }
    forall other | GapList(other, cached, first, end, step)
      ensures other == ranges
    {
      GapListIsUnique(other, ranges, cached, first, end, step);
    }
  }

  class HistoricalCandleCache {
    var rows: Rows

    ghost predicate Valid()
      reads this
    {
      Keyed(rows)
    }

    constructor ()
      ensures Valid() && rows == map[]
    {
      rows := map[];
    }

    // Exactly the stored candles of [start, end), in time order.
    method Load(series: Series, start: Instant, end: Instant) returns (candles: seq<Candle>)
      requires Valid()
      ensures forall c :: c in candles <==> Stored(rows, series, start, end, c)
      ensures Ascending(candles)
    {
      candles := Loaded(rows, series, start, end);
      LoadedIsOrdered(rows, series, start, end);
      forall c
        ensures c in candles <==> Stored(rows, series, start, end, c)
      {
        LoadedIsExact(rows, series, start, end, c);
      }
    }

    // The one ordered list of ranges that covers exactly the grid points with no stored candle
    // in [start, end).
    method MissingRanges(series: Series, start: Instant, end: Instant) returns (missing: seq<Range>)
      requires Valid()
      ensures missing == Gaps(rows, series, start, end)
    {
      var candles := Load(series, start, end);
      LoadedIsUnique(rows, series, start, end, candles);
      var cached := set c | c in candles :: c.timestamp;
      var step := series.timeframe.Step();
      var cursor := FloorTime(start, series.timeframe);
      missing := [];
      var rangeStart: Option<Instant> := None;
      ghost var all := Missing(cached, cursor, end, step, None);
      while cursor < end
        invariant all == missing + Missing(cached, cursor, end, step, rangeStart)
        decreases end - cursor
      {
        if cursor !in cached && rangeStart.None? {
          rangeStart := Some(cursor);
        }
        if cursor in cached && rangeStart.Some? {
          missing := missing + [(rangeStart.value, cursor)];
          rangeStart := None;
        }
        cursor := cursor + step;
      }
      if rangeStart.Some? {
        missing := missing + [(rangeStart.value, end)];
      }
    }

    method Save(series: Series, candles: seq<Candle>)
      requires Valid()
      modifies this
      ensures Valid()
      ensures rows == Saved(old(rows), series, candles)
    {
      for offset := 0 to |candles|
        invariant rows == Saved(old(rows), series, candles[..offset])
      {
        var c := candles[offset];
        assert candles[..offset + 1][..offset] == candles[..offset];
        if Key(series, c.timestamp) !in rows {
          rows := rows[Key(series, c.timestamp) := c];
        }
      }
      assert candles[..|candles|] == candles;
      SavedKeepsRows(old(rows), series, candles);
    }
  }

  // ---------------------------------------------------------------- fetching through the cache

  // The answer to the n-th download of a fetch; None when the provider raises.
  type Provider = (nat, Instant, Instant) -> Option<seq<Candle>>

  // The rows after the first `n` downloads, none of which failed.
  function Filled(rows: Rows, series: Series, ranges: seq<Range>, provider: Provider, n: nat): Rows
    requires n <= |ranges|
  {
    if n == 0 then rows
    else
      var before := Filled(rows, series, ranges, provider, n - 1);
      match provider(n - 1, ranges[n - 1].0, ranges[n - 1].1)
      case None => before
      case Some(downloaded) => Saved(before, series, downloaded)
  }

  datatype FetchError = ProviderFailed | ValidationFailed(errors: seq<CandleError>)

  class CachedHistoricalDataProvider {
    const name: string
    const cache: HistoricalCandleCache

    constructor (name: string, cache: HistoricalCandleCache)
      ensures this.name == name && this.cache == cache
    {
      this.name := name;
      this.cache := cache;
    }

    // `calls` counts the downloads that were asked for.
    method Fetch(symbol: string, timeframe: Timeframe, start: Instant, end: Instant, provider: Provider)
      returns (result: Result<seq<Candle>, FetchError>, calls: nat)
      requires cache.Valid()
      modifies cache
      ensures cache.Valid()
      ensures var series := Series(name, symbol, timeframe);
        var ranges := old(Gaps(cache.rows, series, start, end));
        && calls <= |ranges| && cache.rows == Filled(old(cache.rows), series, ranges, provider, calls)
        && (result == Err(ProviderFailed) <==>
              0 < calls && provider(calls - 1, ranges[calls - 1].0, ranges[calls - 1].1).None?)
        && (result != Err(ProviderFailed) ==>
              && calls == |ranges|
              && var candles := Loaded(cache.rows, series, start, end);
                 if ValidCandles(candles, timeframe.Seconds()) then result == Ok(candles) else result.Err?)
    {
      var series := Series(name, symbol, timeframe);
      var missing := cache.MissingRanges(series, start, end);
      calls := 0;
      while calls < |missing|
        invariant calls <= |missing| && cache.Valid()
        invariant cache.rows == Filled(old(cache.rows), series, missing, provider, calls)
        invariant 0 < calls ==> provider(calls - 1, missing[calls - 1].0, missing[calls - 1].1).Some?
      {
        var downloaded := provider(calls, missing[calls].0, missing[calls].1);
        calls := calls + 1;
        if downloaded.None? {
          return Err(ProviderFailed), calls;
        }
        cache.Save(series, downloaded.value);
      }
      var candles := cache.Load(series, start, end);
      LoadedIsUnique(cache.rows, series, start, end, candles);
      var errors := ValidateCandles(candles, timeframe.Seconds());
      result := if errors == [] then Ok(candles) else Err(ValidationFailed(errors));
    }
  }

  // ---------------------------------------------------------------- what a fetch promises

  // Whatever the provider answers, no stored candle changes.
  lemma {:induction false} FetchKeepsRows(rows: Rows, series: Series, ranges: seq<Range>, provider: Provider, n: nat)
    requires Keyed(rows) && n <= |ranges|
    ensures Keyed(Filled(rows, series, ranges, provider, n)) && Extends(rows, Filled(rows, series, ranges, provider, n))
    ensures forall k :: k in Filled(rows, series, ranges, provider, n) && k.series != series ==> k in rows
  {
    hide Saved;
    if n > 0 {
      FetchKeepsRows(rows, series, ranges, provider, n - 1);
      var before := Filled(rows, series, ranges, provider, n - 1);
      var answer := provider(n - 1, ranges[n - 1].0, ranges[n - 1].1);
      if answer.Some? {
        SavedKeepsRows(before, series, answer.value);
      }
    }
  }

  // Every stored candle of the series is a sound one on the grid.
  ghost predicate GridSeries(rows: Rows, series: Series) {
    forall k :: k in rows && k.series == series ==> OnGrid(k.at, series.timeframe.Step()) && SoundCandle(rows[k])
  }

  ghost predicate GridCandles(candles: seq<Candle>, step: nat)
    requires step > 0
  {
    forall i :: 0 <= i < |candles| ==> OnGrid(candles[i].timestamp, step) && SoundCandle(candles[i])
  }

  predicate Includes(candles: seq<Candle>, p: Instant) {
    exists i :: 0 <= i < |candles| && candles[i].timestamp == p
  }

  // Sound grid candles, those of every grid point of the range among them.
  ghost predicate Answers(downloaded: Option<seq<Candle>>, range: Range, step: nat)
    requires step > 0
  {
    && downloaded.Some?
    && GridCandles(downloaded.value, step)
    && (forall p: Instant :: range.0 <= p < range.1 && OnGrid(p, step) ==> Includes(downloaded.value, p))
  }

  // The provider has all that is asked of it. It may return candles beyond the range too.
  ghost predicate Complete(provider: Provider, ranges: seq<Range>, step: nat)
    requires step > 0
  {
    forall n :: 0 <= n < |ranges| ==> Answers(provider(n, ranges[n].0, ranges[n].1), ranges[n], step)
  }

  lemma SavedStaysOnGrid(rows: Rows, series: Series, candles: seq<Candle>)
    requires Keyed(rows) && GridSeries(rows, series) && GridCandles(candles, series.timeframe.Step())
    ensures GridSeries(Saved(rows, series, candles), series)
  {
    hide OnGrid, SoundCandle;
    SavedKeepsRows(rows, series, candles);
    var later := Saved(rows, series, candles);
    forall k | k in later && k.series == series
      ensures OnGrid(k.at, series.timeframe.Step()) && SoundCandle(later[k])
    {
      if k !in rows {
        assert later[k] in candles;
      }
    }
  }

  lemma {:induction false} FilledCovers(rows: Rows, series: Series, ranges: seq<Range>, provider: Provider, n: nat,
                                        p: Instant)
    requires Keyed(rows) && GridSeries(rows, series) && Complete(provider, ranges, series.timeframe.Step())
        && n <= |ranges|
    requires OnGrid(p, series.timeframe.Step())
    ensures GridSeries(Filled(rows, series, ranges, provider, n), series)
    ensures Covered(ranges[..n], p) ==> Key(series, p) in Filled(rows, series, ranges, provider, n)
  {
    hide OnGrid, SoundCandle, GridSeries, GridCandles, Saved;
    if n > 0 {
      FilledCovers(rows, series, ranges, provider, n - 1, p);
      FetchKeepsRows(rows, series, ranges, provider, n - 1);
      var before := Filled(rows, series, ranges, provider, n - 1);
      assert Answers(provider(n - 1, ranges[n - 1].0, ranges[n - 1].1), ranges[n - 1], series.timeframe.Step());
      var downloaded := provider(n - 1, ranges[n - 1].0, ranges[n - 1].1).value;
      SavedKeepsRows(before, series, downloaded);
      SavedStaysOnGrid(before, series, downloaded);
      if Covered(ranges[..n], p) {
        var i :| 0 <= i < n && ranges[i].0 <= p < ranges[i].1;
        if i < n - 1 {
          assert ranges[..n - 1][i].0 <= p < ranges[..n - 1][i].1;
        } else {
          assert Includes(downloaded, p);
        }
      }
    }
  }

  // Every grid point of [start, end) is stored once the gaps have been downloaded.
  lemma FilledHasEveryPoint(rows: Rows, series: Series, start: Instant, end: Instant, provider: Provider, p: Instant)
    requires Keyed(rows) && GridSeries(rows, series)
        && Complete(provider, Gaps(rows, series, start, end), series.timeframe.Step())
    requires OnGrid(p, series.timeframe.Step()) && start <= p < end
    ensures var ranges := Gaps(rows, series, start, end);
      Key(series, p) in Filled(rows, series, ranges, provider, |ranges|)
  {
    hide OnGrid, SoundCandle, GridSeries, Loaded, Complete;
    var ranges := Gaps(rows, series, start, end);
    var cached := CachedInstants(rows, series, start, end);
    var first := FloorTime(start, series.timeframe);
    MissingIsGapList(cached, first, end, series.timeframe.Step(), None);
    FetchKeepsRows(rows, series, ranges, provider, |ranges|);
    CachedExactly(rows, series, start, end, p);
    FilledCovers(rows, series, ranges, provider, |ranges|, p);
    assert ranges[..|ranges|] == ranges;
  }

  lemma NothingBetween(candles: seq<Candle>, i: nat, c: Candle)
    requires forall i, j :: 0 <= i < j < |candles| ==> candles[i].timestamp < candles[j].timestamp
    requires 0 < i < |candles| && c in candles && candles[i - 1].timestamp < c.timestamp
    ensures candles[i].timestamp <= c.timestamp
  {
    var j :| 0 <= j < |candles| && candles[j] == c;
    assert j >= i;
  }

  // A series stored at every grid point of [start, end) and nowhere else loads without an error.
  lemma FullSeriesIsValid(rows: Rows, series: Series, start: Instant, end: Instant)
    requires Keyed(rows) && GridSeries(rows, series)
    requires forall p: Instant :: start <= p < end && OnGrid(p, series.timeframe.Step()) ==> Key(series, p) in rows
    ensures ValidCandles(Loaded(rows, series, start, end), series.timeframe.Seconds())
  {
    hide OnGrid, SoundCandle, Loaded;
    var candles, step := Loaded(rows, series, start, end), series.timeframe.Step();
    LoadedIsOrdered(rows, series, start, end);
    forall i | 0 <= i < |candles|
      ensures SoundCandle(candles[i]) && OnGrid(candles[i].timestamp, step)
    {
      LoadedIsExact(rows, series, start, end, candles[i]);
    }
    forall i | 0 < i < |candles|
      ensures candles[i].timestamp - candles[i - 1].timestamp == step
    {
      var before, next := candles[i - 1].timestamp, candles[i - 1].timestamp + step;
      GridGap(before, candles[i].timestamp, step);
      NextOnGrid(before, step);
      if next < candles[i].timestamp {
        LoadedIsExact(rows, series, start, end, rows[Key(series, next)]);
        NothingBetween(candles, i, rows[Key(series, next)]);
      }
    }
  }

  // With a complete provider a fetch returns every grid point of [start, end) exactly once.
  lemma FetchReturnsTheGrid(rows: Rows, series: Series, start: Instant, end: Instant, provider: Provider)
    requires Keyed(rows) && GridSeries(rows, series)
        && Complete(provider, Gaps(rows, series, start, end), series.timeframe.Step())
    ensures var ranges := Gaps(rows, series, start, end);
      var later := Filled(rows, series, ranges, provider, |ranges|);
      var candles := Loaded(later, series, start, end);
      && GridSeries(later, series)
      && ValidCandles(candles, series.timeframe.Seconds())
      && (forall p: Instant :: Includes(candles, p) <==> start <= p < end && OnGrid(p, series.timeframe.Step()))
  {
    hide OnGrid, SoundCandle, Loaded, Gaps, GridSeries, Complete, Filled, ValidCandles;
    var ranges := Gaps(rows, series, start, end);
    var later := Filled(rows, series, ranges, provider, |ranges|);
    FetchKeepsRows(rows, series, ranges, provider, |ranges|);
    FilledCovers(rows, series, ranges, provider, |ranges|, 0) by {
      ZeroOnGrid(series.timeframe.Step());
    }
    forall p: Instant | start <= p < end && OnGrid(p, series.timeframe.Step())
      ensures Key(series, p) in later
    {
      FilledHasEveryPoint(rows, series, start, end, provider, p);
    }
    FullSeriesIsValid(later, series, start, end);
    forall p: Instant
      ensures Includes(Loaded(later, series, start, end), p) <==> start <= p < end && OnGrid(p, series.timeframe.Step())
    {
      IncludedIffStored(later, series, start, end, p);
    }
  }

  lemma ZeroOnGrid(step: nat)
    requires step > 0
    ensures OnGrid(0, step)
  {
  }

  lemma IncludedIffStored(rows: Rows, series: Series, start: Instant, end: Instant, p: Instant)
    requires Keyed(rows) && GridSeries(rows, series)
    ensures Includes(Loaded(rows, series, start, end), p) <==> start <= p < end && Key(series, p) in rows
    ensures Includes(Loaded(rows, series, start, end), p) ==> OnGrid(p, series.timeframe.Step())
  {
    hide OnGrid, SoundCandle, Loaded;
    var candles := Loaded(rows, series, start, end);
    if Includes(candles, p) {
      var i :| 0 <= i < |candles| && candles[i].timestamp == p;
      LoadedIsExact(rows, series, start, end, candles[i]);
    }
    if start <= p < end && Key(series, p) in rows {
      LoadedIsExact(rows, series, start, end, rows[Key(series, p)]);
    }
  }

  // What is still missing after a complete fetch: nothing when the start lies on the grid. The
  // bar that an unaligned start falls in begins before it, so it is never among the loaded
  // candles and every later fetch downloads it again.
  lemma WhatStaysMissing(rows: Rows, series: Series, start: Instant, end: Instant)
    requires Keyed(rows)
    requires forall p: Instant :: start <= p < end && OnGrid(p, series.timeframe.Step()) ==> Key(series, p) in rows
    ensures var first := FloorTime(start, series.timeframe);
      Gaps(rows, series, start, end) ==
        if OnGrid(start, series.timeframe.Step()) || end <= first then []
        else [(first, MinInt(first + series.timeframe.Step(), end))]
  {
    hide OnGrid, Loaded, CachedInstants;
    var first, step := FloorTime(start, series.timeframe), series.timeframe.Step();
    var cached := CachedInstants(rows, series, start, end);
    forall p: Instant | first <= p < end && OnGrid(p, step)
      ensures p !in cached <==> p == first && p != start
    {
      CachedExactly(rows, series, start, end, p);
      if p > first {
        GridGap(first, p, step);
      }
    }
    NextOnGrid(first, step);
    if OnGrid(start, step) && first < start {
      GridGap(first, start, step);
      assert false;
    }
    if first < end {
      if first == start {
        NoneMissing(cached, first, end, step);
      } else {
        assert Missing(cached, first, end, step, None) == Missing(cached, first + step, end, step, Some(first));
        if first + step < end {
          NextOnGrid(first + step, step);
          NoneMissing(cached, first + step + step, end, step);
        }
      }
    }
  }

  lemma {:induction false} NoneMissing(cached: set<Instant>, cursor: Instant, end: Instant, step: nat)
    requires step > 0 && OnGrid(cursor, step)
    requires forall p: Instant :: cursor <= p < end && OnGrid(p, step) ==> p in cached
    ensures Missing(cached, cursor, end, step, None) == []
    decreases end - cursor
  {
    hide OnGrid;
    if cursor < end {
      NextOnGrid(cursor, step);
      NoneMissing(cached, cursor + step, end, step);
    }
  }

  // A second identical fetch asks the provider for nothing exactly when the start is on the grid
  // or the span holds no bar at all.
  lemma SecondFetchIsFree(rows: Rows, series: Series, start: Instant, end: Instant, provider: Provider)
    requires Keyed(rows) && GridSeries(rows, series)
        && Complete(provider, Gaps(rows, series, start, end), series.timeframe.Step())
    ensures var ranges := Gaps(rows, series, start, end);
      var later := Filled(rows, series, ranges, provider, |ranges|);
      (Gaps(later, series, start, end) == [])
          == (OnGrid(start, series.timeframe.Step()) || end <= FloorTime(start, series.timeframe))
  {
    hide OnGrid, Loaded, Gaps, GridSeries, Complete, Filled, FloorTime;
    var ranges := Gaps(rows, series, start, end);
    var later := Filled(rows, series, ranges, provider, |ranges|);
    FetchKeepsRows(rows, series, ranges, provider, |ranges|);
    forall p: Instant | start <= p < end && OnGrid(p, series.timeframe.Step())
      ensures Key(series, p) in later
    {
      FilledHasEveryPoint(rows, series, start, end, provider, p);
    }
    WhatStaysMissing(later, series, start, end);
  }
}
