// Downloading a long span page by page: each loop returns what one unbounded query would.
module Pagination {
  import opened Common
  import opened Backtest
  import opened CandleLists
  import CandleCache

  // Milliseconds since the Unix epoch.
  type Millis = nat

  datatype Row = Row(at: Millis, open: real, high: real, low: real, close: real, volume: real)

  function ToCandle(r: Row): Candle {
    Candle(r.at * 1000, r.open, r.high, r.low, r.close, r.volume)
  }

  function ToCandles(rows: seq<Row>): (r: seq<Candle>)
    ensures |r| == |rows| && forall i :: 0 <= i < |r| ==> r[i] == ToCandle(rows[i])
  {
    seq(|rows|, i requires 0 <= i < |rows| => ToCandle(rows[i]))
  }

  function ToMillis(at: Instant): Millis {
    at / 1000
  }

  // ---------------------------------------------------------------- one candle per timestamp

  // Puts a candle in its place, over the one that has its timestamp.
  function Placed(sorted: seq<Candle>, c: Candle): seq<Candle> {
    if sorted == [] || c.timestamp < sorted[0].timestamp then [c] + sorted
    else if c.timestamp == sorted[0].timestamp then [c] + sorted[1..]
    else [sorted[0]] + Placed(sorted[1..], c)
  }

  function Deduped(candles: seq<Candle>): seq<Candle> {
    if candles == [] then [] else Placed(Deduped(candles[..|candles| - 1]), candles[|candles| - 1])
  }

  lemma {:induction false} PlacedReplaces(sorted: seq<Candle>, c: Candle)
    requires Ascending(sorted)
    ensures Ascending(Placed(sorted, c))
    ensures forall x :: x in Placed(sorted, c) <==> x == c || (x in sorted && x.timestamp != c.timestamp)
  {
    hide Ascending;
    if sorted == [] {
      AscendingCons(c, []) by {
        EmptyAscends();
      }
    } else {
      var rest := sorted[1..];
      AscendingTail(sorted);
      if c.timestamp < sorted[0].timestamp {
        AscendingCons(c, sorted);
      } else if c.timestamp == sorted[0].timestamp {
        AscendingCons(c, rest);
      } else {
        PlacedReplaces(rest, c);
        AscendingCons(sorted[0], Placed(rest, c));
      }
    }
  }

  ghost predicate LastAt(candles: seq<Candle>, i: int) {
    0 <= i < |candles| && forall j :: i < j < |candles| ==> candles[j].timestamp != candles[i].timestamp
  }

  // Sorted, and of several candles with one timestamp the last.
  lemma {:induction false} DedupedKeepsTheLast(candles: seq<Candle>)
    ensures Ascending(Deduped(candles))
    ensures forall x :: x in Deduped(candles) <==> exists i :: LastAt(candles, i) && candles[i] == x
  {
    hide Ascending, Placed;
    if candles == [] {
      EmptyAscends();
    } else {
      var rest, c := candles[..|candles| - 1], candles[|candles| - 1];
      DedupedKeepsTheLast(rest);
      PlacedReplaces(Deduped(rest), c);
      forall x
        ensures x in Deduped(candles) <==> exists i :: LastAt(candles, i) && candles[i] == x
      {
        LastOneMore(rest, c, x);
        assert candles == rest + [c];
      }
    }
  }

  lemma LastOneMore(rest: seq<Candle>, c: Candle, x: Candle)
    ensures (exists i :: LastAt(rest + [c], i) && (rest + [c])[i] == x)
       <==> (x == c || (x.timestamp != c.timestamp && exists i :: LastAt(rest, i) && rest[i] == x))
  {
    var all := rest + [c];
    if x == c {
      assert LastAt(all, |rest|);
    }
    if i :| LastAt(rest, i) && rest[i] == x && x.timestamp != c.timestamp {
      assert all[i] == x && LastAt(all, i);
    }
    if i :| LastAt(all, i) && all[i] == x && i < |rest| {
      assert all[|rest|] == c;
      assert rest[i] == x;
      assert forall j :: i < j < |rest| ==> rest[j] == all[j];
      assert LastAt(rest, i);
    }
  }

  // The candles of a span, or a refusal when one of them is not sound.
  function Answer(candles: seq<Candle>): Option<seq<Candle>> {
    if forall i :: 0 <= i < |candles| ==> SoundCandle(candles[i]) then Some(candles) else None
  }

  // None stands for the raised validation error.
  method Dedupe(candles: seq<Candle>) returns (result: Option<seq<Candle>>)
    ensures result == Answer(Deduped(candles))
  {
    DedupedKeepsTheLast(candles);
    var ordered := Deduped(candles);
    var errors := ValidateCandles(ordered, 0);
    result := if errors == [] then Some(ordered) else None;
  }

  // ---------------------------------------------------------------- the venue

  // At most one candle per bar.
  ghost predicate Spaced(history: seq<Row>, gap: nat) {
    forall i, j :: 0 <= i < j < |history| ==> history[i].at + gap <= history[j].at
  }

  predicate InSpan(r: Row, from: Millis, to: Option<Millis>) {
    from <= r.at && (to.Some? ==> r.at <= to.value)
  }

  // The one unbounded query: the venue's rows of a span, oldest first.
  function Select(history: seq<Row>, from: Millis, to: Option<Millis>): seq<Row> {
    if history == [] then []
    else (if InSpan(history[0], from, to) then [history[0]] else []) + Select(history[1..], from, to)
  }

  lemma {:induction false} SelectIsExact(history: seq<Row>, from: Millis, to: Option<Millis>, r: Row)
    ensures r in Select(history, from, to) <==> r in history && InSpan(r, from, to)
  {
    if history != [] {
      SelectIsExact(history[1..], from, to, r);
      assert history == [history[0]] + history[1..];
    }
  }

  lemma SpacedTail(history: seq<Row>, gap: nat)
    requires Spaced(history, gap) && history != []
    ensures Spaced(history[1..], gap)
    ensures forall r :: r in history[1..] ==> history[0].at + gap <= r.at
  {
  }

  lemma {:induction false} SelectAscends(history: seq<Row>, from: Millis, to: Option<Millis>, gap: nat)
    requires gap > 0 && Spaced(history, gap)
    ensures Ascending(ToCandles(Select(history, from, to)))
  {
    hide Spaced, Ascending;
    if history == [] {
      EmptyAscends();
    } else {
      SpacedTail(history, gap);
      SelectAscends(history[1..], from, to, gap);
      if InSpan(history[0], from, to) {
        var rest := ToCandles(Select(history[1..], from, to));
        forall x | x in rest
          ensures ToCandle(history[0]).timestamp < x.timestamp
        {
          var r := RowOf(Select(history[1..], from, to), x);
          SelectIsExact(history[1..], from, to, r);
        }
        AscendingCons(ToCandle(history[0]), rest);
        assert ToCandles(Select(history, from, to)) == [ToCandle(history[0])] + rest;
      } else {
        assert Select(history, from, to) == Select(history[1..], from, to);
      }
    }
  }

  lemma RowOf(rows: seq<Row>, c: Candle) returns (r: Row)
    requires c in ToCandles(rows)
    ensures r in rows && ToCandle(r) == c
  {
    var i :| 0 <= i < |rows| && ToCandles(rows)[i] == c;
    r := rows[i];
  }

  // A page of the newest rows of a span: what it leaves out is older than all it holds, and it
  // leaves nothing out unless it is full. The order within the page is free.
  ghost predicate NewestPage(page: seq<Row>, history: seq<Row>, from: Millis, to: Millis, limit: nat) {
    && (forall r :: r in page ==> r in history && InSpan(r, from, Some(to)))
    && (forall r :: r in history && InSpan(r, from, Some(to)) && r !in page ==>
          |page| >= limit && forall q :: q in page ==> r.at < q.at)
  }

  // A page of the oldest rows of a span, oldest first.
  ghost predicate OldestPage(page: seq<Row>, history: seq<Row>, from: Millis, to: Option<Millis>, limit: nat) {
    && (forall r :: r in page ==> r in history && InSpan(r, from, to))
    && (forall i, j :: 0 <= i < j < |page| ==> page[i].at < page[j].at)
    && (forall r :: r in history && InSpan(r, from, to) && r !in page ==>
          |page| >= limit && forall q :: q in page ==> q.at < r.at)
  }

  // The rows downloaded so far are those of [from, to].
  ghost predicate Collected(rows: seq<Row>, history: seq<Row>, from: int, to: int) {
    forall r :: r in rows <==> r in history && from <= r.at <= to
  }

  lemma CollectedIsTheQuery(rows: seq<Row>, history: seq<Row>, from: Millis, to: Millis, gap: nat)
    requires gap > 0 && Spaced(history, gap) && Collected(rows, history, from, to)
    ensures Deduped(ToCandles(rows)) == ToCandles(Select(history, from, Some(to)))
  {
    hide Spaced, Deduped, Ascending;
    var wanted := Select(history, from, Some(to));
    SelectAscends(history, from, Some(to), gap);
    DedupedKeepsTheLast(ToCandles(rows));
    forall r
      ensures r in rows <==> r in wanted
    {
      SelectIsExact(history, from, Some(to), r);
    }
    forall x
      ensures x in Deduped(ToCandles(rows)) <==> x in ToCandles(wanted)
    {
      DedupedElements(rows, wanted, x);
    }
    SameElements(Deduped(ToCandles(rows)), ToCandles(wanted));
  }

  lemma DedupedElements(rows: seq<Row>, wanted: seq<Row>, x: Candle)
    requires Ascending(ToCandles(wanted)) && forall r :: r in rows <==> r in wanted
    requires x in Deduped(ToCandles(rows)) <==> exists i :: LastAt(ToCandles(rows), i) && ToCandles(rows)[i] == x
    ensures x in Deduped(ToCandles(rows)) <==> x in ToCandles(wanted)
  {
    hide Deduped;
    if x in Deduped(ToCandles(rows)) {
      var i :| LastAt(ToCandles(rows), i) && ToCandles(rows)[i] == x;
      var r := rows[i];
      assert r in wanted;
      var k :| 0 <= k < |wanted| && wanted[k] == r;
      assert ToCandles(wanted)[k] == x;
    }
    if x in ToCandles(wanted) {
      var r := RowOf(wanted, x);
      assert r in rows;
      var i := LastOf(rows, r, wanted);
    }
  }

  // The last row with a wanted row's timestamp is that row again.
  lemma LastOf(rows: seq<Row>, r: Row, wanted: seq<Row>) returns (i: int)
    requires Ascending(ToCandles(wanted)) && r in rows && forall q :: q in rows <==> q in wanted
    ensures LastAt(ToCandles(rows), i) && ToCandles(rows)[i] == ToCandle(r)
  {
    i := |rows| - 1;
    while rows[i] != r
      invariant 0 <= i < |rows| && r in rows[..i + 1]
      invariant forall j :: i < j < |rows| ==> ToCandles(rows)[j].timestamp != ToCandle(r).timestamp
      decreases i
    {
      assert rows[i] in wanted && r in wanted;
      DistinctTimes(wanted, rows[i], r);
      assert rows[..i + 1] == rows[..i] + [rows[i]];
      i := i - 1;
    }
  }

  lemma DistinctTimes(wanted: seq<Row>, a: Row, b: Row)
    requires Ascending(ToCandles(wanted)) && a in wanted && b in wanted && a != b
    ensures ToCandle(a).timestamp != ToCandle(b).timestamp
  {
  }

  // ---------------------------------------------------------------- the fetch loops

  function Oldest(page: seq<Row>): (m: Millis)
    requires page != []
    ensures forall r :: r in page ==> m <= r.at
    ensures exists r :: r in page && r.at == m
  {
    if |page| == 1 then page[0].at else
      var rest := Oldest(page[1..]);
      if page[0].at < rest then page[0].at else rest
  }

  const PAGE: nat := 1000

  type Server = (Millis, Millis) -> seq<Row>

  // Backward from the end: the newest page of what is left, the candle at the end included.
  method FetchBybit(start: Instant, end: Instant, timeframe: CandleCache.Timeframe, server: Server,
                    ghost history: seq<Row>)
    returns (result: Option<seq<Candle>>)
    requires Spaced(history, timeframe.Seconds() * 1000)
    requires forall from, to :: NewestPage(server(from, to), history, from, to, PAGE)
    ensures result == Answer(if ToMillis(start) < ToMillis(end)
                             then ToCandles(Select(history, ToMillis(start), Some(ToMillis(end)))) else [])
  {
    hide Select, Spaced, NewestPage;
    var startMs, cursorEnd := ToMillis(start), ToMillis(end);
    ghost var endMs, low := ToMillis(end), ToMillis(end) + 1;
    var rows: seq<Row> := [];
    while startMs < cursorEnd
      invariant startMs < endMs ==> startMs <= cursorEnd <= endMs && low == cursorEnd + 1
      invariant Collected(rows, history, low, endMs)
      invariant cursorEnd == endMs || exists r :: r in history && r.at == cursorEnd + 1
      invariant startMs >= endMs ==> rows == []
      decreases cursorEnd
    {
      var page := server(startMs, cursorEnd);
      PageExtends(page, history, startMs, cursorEnd, endMs, rows);
      if page == [] {
        low := startMs;
        break;
      }
      rows := rows + page;
      var oldest := Oldest(page);
      if oldest <= startMs {
        low := startMs;
        break;
      }
      cursorEnd := oldest - 1;
      low := oldest;
      if |page| < PAGE {
        low := startMs;
        break;
      }
    }
    if startMs < endMs {
      if low > startMs {
        NothingOneBefore(history, startMs, timeframe.Seconds() * 1000);
        assert Collected(rows, history, startMs, endMs);
      }
      CollectedIsTheQuery(rows, history, startMs, endMs, timeframe.Seconds() * 1000);
    }
    result := Dedupe(ToCandles(rows));
  }

  // Adding the newest page of [from, to] to the rows after `to`.
  lemma PageExtends(page: seq<Row>, history: seq<Row>, from: Millis, to: Millis, end: Millis, rows: seq<Row>)
    requires NewestPage(page, history, from, to, PAGE) && from <= to <= end && Collected(rows, history, to + 1, end)
    ensures page == [] ==> Collected(rows, history, from, end)
    ensures page != [] ==> from <= Oldest(page) <= to && Collected(rows + page, history, Oldest(page), end)
    ensures page != [] ==> exists r :: r in history && r.at == Oldest(page)
    ensures 0 < |page| < PAGE ==> Collected(rows + page, history, from, end)
  {
  }

  lemma NothingOneBefore(history: seq<Row>, at: Millis, gap: nat)
    requires Spaced(history, gap) && gap > 1 && exists r :: r in history && r.at == at + 1
    ensures forall r :: r in history ==> r.at != at
  {
  }

  // Forward from the start: the oldest page of what is left, the candle at the end included.
  method FetchBinance(start: Instant, end: Instant, timeframe: CandleCache.Timeframe, server: Server,
                      ghost history: seq<Row>)
    returns (result: Option<seq<Candle>>)
    requires Spaced(history, timeframe.Seconds() * 1000)
    requires forall from, to :: OldestPage(server(from, to), history, from, Some(to), PAGE)
    ensures result == Answer(if ToMillis(start) < ToMillis(end)
                             then ToCandles(Select(history, ToMillis(start), Some(ToMillis(end)))) else [])
  {
    hide Select, Spaced, OldestPage;
    var startMs, endMs := ToMillis(start), ToMillis(end);
    var cursor := startMs;
    ghost var high := startMs as int - 1;
    var rows: seq<Row> := [];
    while cursor < endMs
      invariant startMs < endMs ==> startMs <= cursor <= endMs + 1 && high == cursor - 1
      invariant Collected(rows, history, startMs, high)
      invariant cursor == startMs || exists r :: r in history && r.at == cursor - 1
      invariant startMs >= endMs ==> rows == []
      decreases endMs - cursor
    {
      var page := server(cursor, endMs);
      OldestPageExtends(page, history, startMs, cursor, endMs, rows);
      if page == [] {
        high := endMs;
        break;
      }
      rows := rows + page;
      cursor := page[|page| - 1].at + 1;
      high := cursor - 1;
      if |page| < PAGE {
        high := endMs;
        break;
      }
    }
    if startMs < endMs {
      if high < endMs {
        NothingOneAfter(history, endMs - 1, timeframe.Seconds() * 1000);
        assert Collected(rows, history, startMs, endMs);
      }
      CollectedIsTheQuery(rows, history, startMs, endMs, timeframe.Seconds() * 1000);
    }
    result := Dedupe(ToCandles(rows));
  }

  // Adding the oldest page of [from, to] to the rows of [start, from).
  lemma OldestPageExtends(page: seq<Row>, history: seq<Row>, start: Millis, from: Millis, to: Millis, rows: seq<Row>)
    requires OldestPage(page, history, from, Some(to), PAGE) && start <= from <= to
        && Collected(rows, history, start, from - 1)
    ensures page == [] ==> Collected(rows, history, start, to)
    ensures page != [] ==>
      var last := page[|page| - 1];
      last in history && from <= last.at <= to && Collected(rows + page, history, start, last.at)
    ensures 0 < |page| < PAGE ==> Collected(rows + page, history, start, to)
  {
  }

  lemma NothingOneAfter(history: seq<Row>, at: Millis, gap: nat)
    requires Spaced(history, gap) && gap > 1 && exists r :: r in history && r.at == at
    ensures forall r :: r in history ==> r.at != at + 1
  {
  }

  function Accepted(page: seq<Row>, from: Millis, to: Millis): (r: seq<Row>)
    ensures forall x :: x in r <==> x in page && from <= x.at < to
  {
    if page == [] then []
    else
      var rest := Accepted(page[1..], from, to);
      if from <= page[0].at < to then [page[0]] + rest else rest
  }

  // Forward without an upper bound: the oldest page from the cursor on, cut at the end. The loop
  // ends whatever the venue answers; against the stated venue it returns the candles before `end`.
  method FetchCcxt(start: Instant, end: Instant, timeframe: CandleCache.Timeframe, server: Millis -> seq<Row>,
                   ghost history: seq<Row>, ghost limit: nat)
    returns (result: Option<seq<Candle>>)
    requires Spaced(history, timeframe.Seconds() * 1000) && limit > 0
    ensures (forall from :: OldestPage(server(from), history, from, None, limit)) ==>
      result == Answer(if ToMillis(start) < ToMillis(end)
                       then ToCandles(Select(history, ToMillis(start), Some(ToMillis(end) - 1))) else [])
  {
    hide Select, Spaced, OldestPage;
    var startMs, endMs := ToMillis(start), ToMillis(end);
    var cursor := startMs;
    ghost var honest := forall from :: OldestPage(server(from), history, from, None, limit);
    ghost var high := startMs as int - 1;
    var rows: seq<Row> := [];
    while cursor < endMs
      invariant startMs <= cursor && (startMs < endMs ==> high == MinInt(cursor, endMs) - 1)
      invariant startMs >= endMs ==> rows == []
      invariant honest && startMs < endMs ==> Collected(rows, history, startMs, high)
      decreases endMs - cursor
    {
      var page := server(cursor);
      if honest {
        OpenPageExtends(page, history, startMs, cursor, endMs, timeframe.Seconds() * 1000, limit, rows);
      }
      if page == [] {
        high := endMs - 1;
        break;
      }
      rows := rows + Accepted(page, cursor, endMs);
      var nextCursor := page[|page| - 1].at + timeframe.Seconds() * 1000;
      if nextCursor <= cursor {
        high := endMs - 1;
        break;
      }
      cursor := nextCursor;
      high := MinInt(cursor, endMs) - 1;
    }
    if honest && startMs < endMs {
      CollectedIsTheQuery(rows, history, startMs, endMs - 1, timeframe.Seconds() * 1000);
    }
    result := Dedupe(ToCandles(rows));
  }

  // No row lies within one bar after the last row of a page.
  lemma OpenPageExtends(page: seq<Row>, history: seq<Row>, start: Millis, from: Millis, end: Millis, gap: nat,
                        limit: nat, rows: seq<Row>)
    requires OldestPage(page, history, from, None, limit) && Spaced(history, gap) && limit > 0 && gap > 0
    requires start <= from < end && Collected(rows, history, start, from - 1)
    ensures page == [] ==> Collected(rows, history, start, end - 1)
    ensures page != [] ==>
      var next := page[|page| - 1].at + gap;
      next >= from + gap && Collected(rows + Accepted(page, from, end), history, start, MinInt(next, end) - 1)
  {
  }

  // ---------------------------------------------------------------- downloading into the cache

  // A provider whose answers are those of `FetchBybit` or `FetchBinance` against a venue.
  ghost predicate ServedBy(provider: CandleCache.Provider, history: seq<Row>) {
    forall n: nat, from: Instant, to: Instant ::
      provider(n, from, to) == Answer(if ToMillis(from) < ToMillis(to)
                                      then ToCandles(Select(history, ToMillis(from), Some(ToMillis(to)))) else [])
  }

  predicate HasBarAt(history: seq<Row>, p: Instant) {
    exists i :: 0 <= i < |history| && history[i].at * 1000 == p
  }

  // Sound bars on the grid, one at every grid point of [first, end).
  ghost predicate FullHistory(history: seq<Row>, first: Instant, end: Instant, step: nat)
    requires step > 0
  {
    && (forall r :: r in history ==> CandleCache.OnGrid(r.at * 1000, step) && SoundCandle(ToCandle(r)))
    && (forall p: Instant :: first <= p < end && CandleCache.OnGrid(p, step) ==> HasBarAt(history, p))
  }

  lemma RangeIsAnswered(history: seq<Row>, range: CandleCache.Range, first: Instant, end: Instant, step: nat)
    requires step > 0 && FullHistory(history, first, end, step)
    requires first <= range.0 <= range.1 <= end
    ensures CandleCache.Answers(Answer(ToCandles(Select(history, ToMillis(range.0), Some(ToMillis(range.1))))), range,
                                step)
  {
    hide CandleCache.OnGrid, SoundCandle, Select;
    var page := Select(history, ToMillis(range.0), Some(ToMillis(range.1)));
    forall i | 0 <= i < |page|
      ensures CandleCache.OnGrid(ToCandles(page)[i].timestamp, step) && SoundCandle(ToCandles(page)[i])
    {
      SelectIsExact(history, ToMillis(range.0), Some(ToMillis(range.1)), page[i]);
    }
    forall p: Instant | range.0 <= p < range.1 && CandleCache.OnGrid(p, step)
      ensures CandleCache.Includes(ToCandles(page), p)
    {
      assert HasBarAt(history, p);
      var i :| 0 <= i < |history| && history[i].at * 1000 == p;
      SelectIsExact(history, ToMillis(range.0), Some(ToMillis(range.1)), history[i]);
      var k :| 0 <= k < |page| && page[k] == history[i];
      assert ToCandles(page)[k].timestamp == p;
    }
  }

  // Against a venue with a bar at every grid point, the paginated download completes the cache.
  // The end must be a whole millisecond: a span that rounds to nothing is never requested.
  lemma VenueCompletesTheCache(rows: CandleCache.Rows, series: CandleCache.Series, start: Instant, end: Instant,
                               provider: CandleCache.Provider, history: seq<Row>)
    requires CandleCache.Keyed(rows) && end % 1000 == 0 && ServedBy(provider, history)
    requires FullHistory(history, CandleCache.FloorTime(start, series.timeframe), end, series.timeframe.Step())
    ensures CandleCache.Complete(provider, CandleCache.Gaps(rows, series, start, end), series.timeframe.Step())
  {
    hide CandleCache.OnGrid, CandleCache.FloorTime, CandleCache.Covered, CandleCache.Missing, FullHistory, Answer,
        Select;
    var ranges, first, step := CandleCache.Gaps(rows, series, start, end),
        CandleCache.FloorTime(start, series.timeframe), series.timeframe.Step();
    CandleCache.MissingIsGapList(CandleCache.CachedInstants(rows, series, start, end), first, end, step, None);
    forall n | 0 <= n < |ranges|
      ensures CandleCache.Answers(provider(n, ranges[n].0, ranges[n].1), ranges[n], step)
    {
      RangeIsAnswered(history, ranges[n], first, end, step);
      WholeMillis(ranges[n].0, series.timeframe);
      if ranges[n].1 < end {
        WholeMillis(ranges[n].1, series.timeframe);
      }
      assert ToMillis(ranges[n].0) < ToMillis(ranges[n].1);
    }
  }

  lemma WholeMillis(at: Instant, timeframe: CandleCache.Timeframe)
    requires CandleCache.OnGrid(at, timeframe.Step())
    ensures at % 1000 == 0
  {
    hide CandleCache.OnGrid;
    var k := CandleCache.GridIndex(at, timeframe.Step());
    assert at == 1000 * (k * (timeframe.Seconds() * 1000));
  }
}
