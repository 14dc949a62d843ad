// Strategies as readers of the history view: each read may depend on the answers so far. Causality
// of a run follows from the reads alone, and a read that leaks breaks it.
module BacktestReaders {
  import opened Common
  import opened RiskApproval
  import opened HistoryView
  import opened Backtest
  import opened BacktestRuns
  import opened BacktestTrades

  // What a strategy can ask of its view: its length, an item, a slice, or, by concatenating a
  // list, all of it.
  datatype Query = Size | At(index: int) | Span(slice: PySlice) | Whole

  // BadStep is the ValueError of a slice with step zero, an absent item the IndexError.
  datatype Reply = Count(n: nat) | Item(candle: Option<Candle>) | Items(candles: seq<Candle>) | BadStep

  function ReplyTo(v: View<Candle>, q: Query): Reply
    requires v.Valid()
  {
    match q
    case Size => Count(v.stop)
    case At(index) => Item(v.Get(index))
    case Span(slice) => if slice.step == 0 then BadStep else Items(v.Slice(slice))
    case Whole => Items(v.candles[..v.stop])
  }

  // Reads `rounds` times, choosing each read from the replies before it, then decides.
  datatype Reader = Reader(rounds: nat, ask: seq<Reply> -> Query, decide: seq<Reply> -> Option<Action>)

  function Transcript(r: Reader, v: View<Candle>, n: nat): seq<Reply>
    requires v.Valid()
  {
    if n == 0 then []
    else
      var before := Transcript(r, v, n - 1);
      before + [ReplyTo(v, r.ask(before))]
  }

  function StrategyOf(r: Reader): Strategy {
    (v: View<Candle>) => if v.Valid() then r.decide(Transcript(r, v, r.rounds)) else None
  }

  predicate LeakingRead(v: View<Candle>, q: Query) {
    q.Span? && q.slice.step != 0 && Leaks(q.slice, v.stop, |v.candles|)
  }

  // None of the reads made on this view leaks.
  ghost predicate Discreet(r: Reader, v: View<Candle>)
    requires v.Valid()
  {
    forall n :: 0 <= n < r.rounds ==> !LeakingRead(v, r.ask(Transcript(r, v, n)))
  }

  lemma ReplyFromClosed(v: View<Candle>, q: Query)
    requires v.Valid() && !LeakingRead(v, q)
    ensures ReplyTo(v, q) == ReplyTo(v.Closed(), q)
  {
    match q {
      case Span(slice) =>
        if slice.step != 0 {
          HiddenSlices(v, slice);
        }
      case Whole => assert v.candles[..v.stop][..v.stop] == v.candles[..v.stop];
      case _ =>
    }
  }

  lemma {:induction false} TranscriptFromClosed(r: Reader, v: View<Candle>, n: nat)
    requires v.Valid() && n <= r.rounds && Discreet(r, v)
    ensures Transcript(r, v, n) == Transcript(r, v.Closed(), n)
  {
    hide ReplyTo, LeakingRead;
    if n > 0 {
      TranscriptFromClosed(r, v, n - 1);
      ReplyFromClosed(v, r.ask(Transcript(r, v, n - 1)));
    }
  }

  // A reader that never leaks reads only closed candles.
  lemma DiscreetIsCausal(r: Reader)
    requires forall v: View<Candle> :: v.Valid() ==> Discreet(r, v)
    ensures Causal(StrategyOf(r))
  {
    forall v: View<Candle> | v.Valid()
      ensures StrategyOf(r)(v) == StrategyOf(r)(v.Closed())
    {
      TranscriptFromClosed(r, v, r.rounds);
    }
  }

  // In particular one that takes no slice with a negative step.
  lemma ForwardReadersAreCausal(r: Reader)
    requires forall replies :: r.ask(replies).Span? ==> r.ask(replies).slice.step >= 0
    ensures Causal(StrategyOf(r))
  {
    forall v: View<Candle> | v.Valid()
      ensures Discreet(r, v)
    {
    }
    DiscreetIsCausal(r);
  }

  // Causality of a run, derived from its reads: when none of them leaks on the two candle lists,
  // the states after `k` common candles are the same, whatever follows.
  lemma RunsOfReadersAreCausal(e: Engine, cfg: Config, r: Reader, a: seq<Candle>, b: seq<Candle>, k: nat)
    requires e.Valid()
    requires k <= |a| && k <= |b| && a[..k] == b[..k]
    requires forall n :: 0 < n <= k ==> Discreet(r, View(a, n)) && Discreet(r, View(b, n))
    ensures After(e, cfg, StrategyOf(r), a, k) == After(e, cfg, StrategyOf(r), b, k)
  {
    forall n | 0 < n <= k
      ensures StrategyOf(r)(View(a, n)) == StrategyOf(r)(View(b, n))
    {
      TranscriptFromClosed(r, View(a, n), r.rounds);
      TranscriptFromClosed(r, View(b, n), r.rounds);
      assert a[..n] == a[..k][..n] && b[..n] == b[..k][..n];
      assert View(a, n).Closed() == View(b, n).Closed();
    }
    SameDecisionsSameRun(e, cfg, StrategyOf(r), a, b, k);
  }

  // ---------------------------------------------------------------- a reader that leaks

  const PEEK: PySlice := PySlice(Some(-10), Some(0), -1)

  const BUY: Action := Action(Long, 90.0, 120.0, 0, 0.0, 0.0, false, None, None, None)

  // Buys when the slice begins with a candle that closes above 150.
  function Peeker(): Reader {
    Reader(1, (replies: seq<Reply>) => Span(PEEK),
           (replies: seq<Reply>) =>
             if |replies| == 1 && replies[0].Items? && replies[0].candles != [] && replies[0].candles[0].close > 150.0
             then Some(BUY) else None)
  }

  function Flat(at: Instant, price: real): Candle {
    Candle(at, price, price, price, price, 1.0)
  }

  // A first candle at 100, and what comes an hour later.
  function TwoCandles(next: real): seq<Candle> {
    [Flat(0, 100.0), Flat(3600 * SECOND, next)]
  }

  const FREE: Engine := Engine(0.0, 0.0, 0.0, 0.0, true, 8)

  function HourlyRun(): Config {
    Config(1000.0, RiskProfile(0.005, 1000.0, 1.0, 1, 0.02, 1.0, 3, 60, 1.0, 1.0), 1.0, 3600 * SECOND)
  }

  lemma PeekerSeesNext(next: real)
    ensures StrategyOf(Peeker())(View(TwoCandles(next), 1)) == if next > 150.0 then Some(BUY) else None
  {
    var v := View(TwoCandles(next), 1);
    assert v.Slice(PEEK) == Walk(v.candles, 1, 0, -1);
    assert Walk(v.candles, 1, 0, -1) == [v.candles[1]];
    assert Transcript(Peeker(), v, 0) == [];
    assert Transcript(Peeker(), v, 1) == [Items([v.candles[1]])];
  }

  lemma BuyOpens(at: Instant)
    ensures var r := EntryFor(FREE, HourlyRun(), StandingOf(Initial(HourlyRun())), BUY, Flat(0, 100.0), at);
      r.Ok? && r.value.Some?
  {
    hide Approve, EntryFor;
    var cfg, s, c := HourlyRun(), StandingOf(Initial(HourlyRun())), Flat(0, 100.0);
    OpensExactly(FREE, cfg, s, BUY, c, at);
    ApprovedExactly(IntentFor(cfg, s, BUY, c, at), cfg.profile);
    ApprovedSize(IntentFor(cfg, s, BUY, c, at), cfg.profile);
  }

  lemma FirstStepOpens(e: Engine, cfg: Config, c: Candle, at: Instant, action: Option<Action>)
    requires e.Valid()
    requires action.Some? ==>
      var r := EntryFor(e, cfg, StandingOf(Initial(cfg)), action.value, c, at); r.Ok? && r.value.Some?
    ensures var r := Step(e, cfg, Initial(cfg), c, at, action);
      r.Ok? && (r.value.open.Some? <==> action.Some?)
  {
    hide EntryFor, Unrealized;
  }

  lemma OpensWithNext(next: real)
    ensures var r := After(FREE, HourlyRun(), StrategyOf(Peeker()), TwoCandles(next), 1);
      r.Ok? && (r.value.open.Some? <==> next > 150.0)
  {
    hide EntryFor, StrategyOf, Step;
    var candles, cfg := TwoCandles(next), HourlyRun();
    PeekerSeesNext(next);
    BuyOpens(EventTime(candles[0], cfg.bar));
    FirstStepOpens(FREE, cfg, candles[0], EventTime(candles[0], cfg.bar), StrategyOf(Peeker())(View(candles, 1)));
    assert After(FREE, cfg, StrategyOf(Peeker()), candles, 0) == Ok(Initial(cfg));
  }

  // One candle in common, and the states after it already differ.
  lemma LeakBreaksCausality()
    ensures FREE.Valid() && TwoCandles(200.0)[..1] == TwoCandles(100.0)[..1]
    ensures After(FREE, HourlyRun(), StrategyOf(Peeker()), TwoCandles(200.0), 1)
         != After(FREE, HourlyRun(), StrategyOf(Peeker()), TwoCandles(100.0), 1)
  {
    hide After;
    OpensWithNext(200.0);
    OpensWithNext(100.0);
  }
}
