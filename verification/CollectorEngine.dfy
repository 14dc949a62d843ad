// The engine and the recovery routine as they run, each shown to be a run of the protocol: so a
// crash anywhere inside them leaves a state the protocol already accounts for.
module CollectorEngine {
  import opened Common
  import opened Ledger
  import opened Collector

  // What deciding a candle comes to: an exception, no signal, or a signal that the risk manager
  // turned into an order or refused; `notified` is whether announcing a stored trade succeeds.
  datatype Verdict = Raises | NoSignal | Signal(choice: Choice, order: Option<TradeRow>, notified: bool) {
    predicate Valid() {
      Signal? ==> choice != Wait && (order.Some? ==> order.value.status == Open && order.value.side == choice)
    }
  }

  // What a verdict is recorded as; a pair that already has an open trade refuses every order.
  function DecisionFor(verdict: Verdict, occupied: bool): (DecisionRow, Option<TradeRow>) {
    match verdict
    case Raises => (DecisionRow(Wait, NotApplicable, Live, true), None)
    case NoSignal => (DecisionRow(Wait, NotApplicable, Live, true), None)
    case Signal(choice, order, _) =>
      if occupied || order.None? then (DecisionRow(choice, Reject, Live, true), None)
      else (DecisionRow(choice, Allow, Live, true), order)
  }

  // Whether the pass goes on after the candle: judging it did not raise, nor did announcing its trade.
  predicate Completes(verdict: Verdict, occupied: bool) {
    !verdict.Raises? && (DecisionFor(verdict, occupied).1.Some? ==> verdict.notified)
  }

  ghost function VerdictStep(s: System, exchange: string, verdict: Verdict): Step
    requires exchange in s.pending
  {
    if verdict.Raises? then Abandon(exchange)
    else
      var (decision, trade) := DecisionFor(verdict, HasOpenTrade(s.db, s.pending[exchange].pair));
      Decide(exchange, decision, trade)
  }

  // What one live pass over a pair is given.
  datatype Pass = Pass(
    pair: Pair,
    offered: seq<Candle>,
    exchangeTimestamp: int,
    receivedAt: int,
    decide: (seq<Candle>, Candle) -> Verdict)

  // A step of the pass: it commits an offered candle, or decides the pending one by judging the
  // history that ends with it.
  ghost predicate Faithful(pass: Pass, s: System, step: Step) {
    match step
    case Commit(pair, candle, exchangeTimestamp, receivedAt) =>
      && pair == pass.pair && candle in pass.offered
      && exchangeTimestamp == pass.exchangeTimestamp && receivedAt == pass.receivedAt
    case _ =>
      && pass.pair.exchange in s.pending && pass.pair in s.histories && s.histories[pass.pair] != []
      && var h := s.histories[pass.pair];
         step == VerdictStep(s, pass.pair.exchange, pass.decide(h, h[|h| - 1]))
  }

  ghost predicate FaithfulRun(p: Protocol, pass: Pass, s: System, steps: seq<Step>)
    requires Possible(p, s, steps)
    decreases |steps|
  {
    steps == [] || (Faithful(pass, s, steps[0]) && FaithfulRun(p, pass, Apply(p, s, steps[0]), steps[1..]))
  }

  // One more step at the end of a pass.
  lemma {:induction false} PassGoesOn(p: Protocol, pass: Pass, s: System, steps: seq<Step>, step: Step)
    requires Possible(p, s, steps) && FaithfulRun(p, pass, s, steps)
    requires Enabled(p, Reached(p, s, steps), step) && Faithful(pass, Reached(p, s, steps), step)
    ensures Possible(p, s, steps + [step]) && FaithfulRun(p, pass, s, steps + [step])
    decreases |steps|
  {
    hide Enabled, Apply, Faithful;
    if steps == [] {
      assert ([] + [step])[0] == step && ([] + [step])[1..] == [];
      assert Possible(p, Apply(p, s, step), []) && FaithfulRun(p, pass, Apply(p, s, step), []);
    } else {
      assert (steps + [step])[1..] == steps[1..] + [step];
      PassGoesOn(p, pass, Apply(p, s, steps[0]), steps[1..], step);
    }
  }

  function OrNone(answer: Option<seq<Candle>>): seq<Candle> {
    match answer case None => [] case Some(candles) => candles
  }

  // Every hourly candle opening in [start, end), in order, possibly plus the one at `end`.
  ghost predicate Provides(candles: seq<Candle>, start: int, end: int) {
    && (forall i :: 0 <= i < |candles| ==> candles[i].timestamp == start + i * HOUR)
    && (|candles| * HOUR == end - start || |candles| * HOUR == end - start + HOUR)
  }

  // All candles of the pair up to `end` are on record.
  ghost predicate CaughtUp(p: Protocol, db: Database, pair: Pair, end: int) {
    NextOpen(p, db, pair) >= end
  }

  lemma NextOpenFollows(p: Protocol, db: Database, pair: Pair, row: CandleRow, after: Database)
    requires CandlesOk(p, db) && row.candle.timestamp == NextOpen(p, db, pair)
    requires after.candles == db.candles[Key(pair, row.candle.timestamp) := row]
    ensures NextOpen(p, after, pair) == row.candle.timestamp + HOUR
  {
    NextOpenIsNew(p, db, pair);
    assert OpensOf(after, pair) == OpensOf(db, pair) + {row.candle.timestamp};
    assert row.candle.timestamp in OpensOf(after, pair);
  }

  lemma StartOfFetch(p: Protocol, db: Database, pair: Pair, last: Option<int>)
    requires IsLastOpen(db, pair, last)
    ensures NextOpen(p, db, pair) == if last.Some? then last.value + HOUR else FloorHour(p.lockedAt)
  {
  }

  // One more step at the end of a run.
  lemma StepAfter(p: Protocol, s: System, steps: seq<Step>, step: Step)
    requires Possible(p, s, steps) && Enabled(p, Reached(p, s, steps), step)
    ensures Possible(p, s, steps + [step]) && Reached(p, s, steps + [step]) == Apply(p, Reached(p, s, steps), step)
  {
    var mid := Reached(p, s, steps);
    hide Enabled, Apply;
    assert [step][1..] == [];
    assert Possible(p, Apply(p, mid, step), []);
    assert Possible(p, mid, [step]) && Reached(p, mid, [step]) == Apply(p, mid, step);
    RunsCompose(p, s, steps, [step]);
  }

  class ProspectiveShadowEngine {
    const p: Protocol
    const repository: ShadowRepository
    var histories: map<Pair, seq<Candle>>

    // The protocol state during a cycle, seen from the task of one exchange.
    ghost function State(pending: map<string, Key>): System
      reads this, repository
    {
      System(repository.View(), Cycling, histories, pending)
    }

    // Rebuilds the in-memory histories: warm-up, then every persisted candle in order.
    constructor (p: Protocol, repository: ShadowRepository)
      ensures this.p == p && this.repository == repository
      ensures histories == Histories(p, repository.View())
    {
      this.p, this.repository := p, repository;
      histories := p.warmups;
      new;
      var left := p.warmups.Keys;
      while left != {}
        invariant left <= p.warmups.Keys && histories.Keys == p.warmups.Keys
        invariant forall pair :: pair in p.warmups ==>
          histories[pair]
          == if pair in left then p.warmups[pair] else p.warmups[pair] + Persisted(repository.View(), pair)
        decreases left
      {
        var pair :| pair in left;
        var rows := repository.ProspectiveCandles(pair);
        histories := histories[pair := histories[pair] + rows];
        left := left - {pair};
      }
    }

    // Decides the candle committed last; false when judging it or announcing its trade raised.
    method DecideCandle(key: Key, verdict: Verdict) returns (ok: bool, ghost step: Step)
      requires verdict.Valid() && Inv(p, State(map[key.pair.exchange := key]))
      modifies repository
      ensures Enabled(p, old(State(map[key.pair.exchange := key])), step)
      ensures State(map[]) == Apply(p, old(State(map[key.pair.exchange := key])), step)
      ensures step == VerdictStep(old(State(map[key.pair.exchange := key])), key.pair.exchange, verdict)
      ensures ok <==> Completes(verdict, HasOpenTrade(old(repository.View()), key.pair))
    {
      hide EventsOk, CandlesOk, HistoriesOk, Histories;
      var exchange := key.pair.exchange;
      assert map[exchange := key] - {exchange} == map[];
      assert key !in repository.decisions && key !in repository.trades;
      var decision := DecisionRow(Wait, NotApplicable, Live, true);
      var trade: Option<TradeRow> := None;
      match verdict {
        case Raises =>
          return false, Abandon(exchange);
        case NoSignal =>
        case Signal(choice, order, _) =>
          var existing := repository.OpenTrade(key.pair);
          if existing.Some? || order.None? {
            decision := DecisionRow(choice, Reject, Live, true);
          } else {
            decision := DecisionRow(choice, Allow, Live, true);
            trade := order;
          }
      }
      step := Decide(exchange, decision, trade);
      var _ := repository.RecordDecision(key, decision, trade);
      ok := trade.Some? ==> verdict.notified;
    }

    // One live pass over the closed candles of a pair. `closedCandles` answers for a span, or
    // raises; `decide` judges a candle from the history that ends with it.
    method ProcessCandles(pair: Pair, exchangeTimestamp: int, receivedAt: int,
                          closedCandles: (int, int) -> Option<seq<Candle>>,
                          decide: (seq<Candle>, Candle) -> Verdict)
      returns (ok: bool, ghost steps: seq<Step>)
      requires pair in p.warmups && Inv(p, State(map[]))
      requires forall s, e :: closedCandles(s, e).Some? ==> Provides(closedCandles(s, e).value, s, e)
      requires forall h, c :: decide(h, c).Valid()
      modifies this, repository
      ensures Possible(p, old(State(map[])), steps) && State(map[]) == Reached(p, old(State(map[])), steps)
      ensures Inv(p, State(map[]))
      ensures var offered := OrNone(closedCandles(NextOpen(p, old(repository.View()), pair),
                                                  FloorHour(exchangeTimestamp)));
        FaithfulRun(p, Pass(pair, offered, exchangeTimestamp, receivedAt, decide), old(State(map[])), steps)
      ensures ok ==> CaughtUp(p, repository.View(), pair, FloorHour(exchangeTimestamp))
    {
      hide Inv, Apply, Enabled, Provides, Faithful;
      ghost var s0 := State(map[]);
      steps := [];
      var last := repository.LastCandleOpen(pair);
      StartOfFetch(p, repository.View(), pair, last);
      var start := if last.Some? then last.value + HOUR else FloorHour(p.lockedAt);
      var end := FloorHour(exchangeTimestamp);
      if start >= end {
        return true, [];
      }
      var answer := closedCandles(start, end);
      if answer.None? {
        return false, [];
      }
      var candles := answer.value;
      ghost var pass := Pass(pair, candles, exchangeTimestamp, receivedAt, decide);
      StartAfterLock(p, State(map[]), pair);
      FloorBounds(p.lockedAt);
      FloorBounds(exchangeTimestamp);
      for i := 0 to |candles|
        invariant Possible(p, s0, steps) && State(map[]) == Reached(p, s0, steps) && Inv(p, State(map[]))
        invariant FaithfulRun(p, pass, s0, steps)
        invariant NextOpen(p, repository.View(), pair) == if i * HOUR <= end - start then start + i * HOUR else end
      {
        var candle := candles[i];
        ProvidedTime(candles, start, end, i);
        var closeTime := candle.timestamp + HOUR;
        if p.lockedAt < closeTime <= exchangeTimestamp {
          var proceed;
          proceed, steps := TakeCandle(pair, candle, exchangeTimestamp, receivedAt, decide, pass, s0, steps);
          if !proceed {
            return false, steps;
          }
        }
      }
      ProvidedEnd(candles, start, end);
      ok := true;
    }

    // Persists a candle that is due and appends it to the history.
    method CommitCandle(pair: Pair, candle: Candle, exchangeTimestamp: int, receivedAt: int)
      requires pair in p.warmups && Inv(p, State(map[]))
      requires candle.timestamp == NextOpen(p, repository.View(), pair) && candle.timestamp + HOUR <= exchangeTimestamp
      modifies this, repository
      ensures Enabled(p, old(State(map[])), Commit(pair, candle, exchangeTimestamp, receivedAt))
      ensures State(map[pair.exchange := Key(pair, candle.timestamp)])
           == Apply(p, old(State(map[])), Commit(pair, candle, exchangeTimestamp, receivedAt))
      ensures pair in old(histories) && histories == old(histories)[pair := old(histories)[pair] + [candle]]
      ensures NextOpen(p, repository.View(), pair) == candle.timestamp + HOUR
    {
      CommitFacts(p, State(map[]), pair, candle, exchangeTimestamp, receivedAt);
      hide Inv, TablesOk, EventsOk, CandlesOk, HistoriesOk, Histories, PendingOk, NextOpen;
      var saved := repository.SaveCandle(pair, candle, exchangeTimestamp, receivedAt);
      assert saved;
      histories := histories[pair := histories[pair] + [candle]];
    }

    // The body of the live loop for a candle that is due.
    method TakeCandle(pair: Pair, candle: Candle, exchangeTimestamp: int, receivedAt: int,
                      decide: (seq<Candle>, Candle) -> Verdict, ghost pass: Pass, ghost s0: System,
                      ghost before: seq<Step>)
      returns (ok: bool, ghost steps: seq<Step>)
      requires pair in p.warmups && Inv(p, State(map[]))
      requires candle.timestamp == NextOpen(p, repository.View(), pair) && candle.timestamp + HOUR <= exchangeTimestamp
      requires forall h, c :: decide(h, c).Valid()
      requires Possible(p, s0, before) && State(map[]) == Reached(p, s0, before)
      requires pass == Pass(pair, pass.offered, exchangeTimestamp, receivedAt, decide) && candle in pass.offered
      requires FaithfulRun(p, pass, s0, before)
      modifies this, repository
      ensures Possible(p, s0, steps) && State(map[]) == Reached(p, s0, steps) && Inv(p, State(map[]))
      ensures FaithfulRun(p, pass, s0, steps)
      ensures NextOpen(p, repository.View(), pair) == candle.timestamp + HOUR
      ensures pair in old(histories)
      ensures ok <==> Completes(decide(old(histories)[pair] + [candle], candle),
                                HasOpenTrade(old(repository.View()), pair))
    {
      hide Inv, NextOpen, HasOpenTrade;
      ghost var s := State(map[]);
      ghost var commit := Commit(pair, candle, exchangeTimestamp, receivedAt);
      CommitCandle(pair, candle, exchangeTimestamp, receivedAt);
      StepKeeps(p, s, commit);
      SameTradesSameOpen(s.db, repository.View(), pair);
      hide Enabled, Apply;
      ghost var mid := State(map[pair.exchange := Key(pair, candle.timestamp)]);
      ghost var step;
      ok, step := DecideCandle(Key(pair, candle.timestamp), decide(histories[pair], candle));
      assert Faithful(pass, mid, step) && (step.Decide? || step.Abandon?);
      hide VerdictStep;
      CommitThenDecide(p, pass, s0, before, commit, step);
      steps := before + [commit] + [step];
    }
  }

  lemma CommitThenDecide(p: Protocol, pass: Pass, s0: System, before: seq<Step>, commit: Step, step: Step)
    requires Possible(p, s0, before) && FaithfulRun(p, pass, s0, before)
    requires var s := Reached(p, s0, before);
      && Inv(p, s) && commit.Commit? && Enabled(p, s, commit) && Faithful(pass, s, commit)
      && Enabled(p, Apply(p, s, commit), step) && Faithful(pass, Apply(p, s, commit), step)
      && (step.Decide? || step.Abandon?)
    ensures var s := Reached(p, s0, before);
      var steps := before + [commit] + [step];
      && Possible(p, s0, steps) && FaithfulRun(p, pass, s0, steps)
      && Reached(p, s0, steps) == Apply(p, Apply(p, s, commit), step)
      && Inv(p, Reached(p, s0, steps))
      && (forall pair :: NextOpen(p, Reached(p, s0, steps).db, pair) == NextOpen(p, Apply(p, s, commit).db, pair))
  {
    hide Inv, Enabled, Apply, Faithful, NextOpen;
    var s := Reached(p, s0, before);
    PassGoesOn(p, pass, s0, before, commit);
    StepAfter(p, s0, before, commit);
    StepKeeps(p, s, commit);
    PassGoesOn(p, pass, s0, before + [commit], step);
    StepAfter(p, s0, before + [commit], step);
    StepKeeps(p, Apply(p, s, commit), step);
    DecisionKeepsCandles(p, Apply(p, s, commit), step);
  }

  lemma SameTradesSameOpen(a: Database, b: Database, pair: Pair)
    requires a.trades == b.trades
    ensures HasOpenTrade(a, pair) <==> HasOpenTrade(b, pair)
  {
  }

  // ---------------------------------------------------------------- other exchanges

  // Steps of a cycle that another exchange takes.
  ghost predicate OfAnother(s: System, step: Step, pair: Pair) {
    match step
    case Quote(other, _) => other.exchange != pair.exchange
    case Commit(other, _, _, _) => other.exchange != pair.exchange
    case Decide(exchange, _, _) => exchange != pair.exchange
    case Abandon(exchange) => exchange != pair.exchange
    case CloseOut(key, _, _) => key.pair.exchange != pair.exchange
    case _ => false
  }

  // What a live pass over a pair relies on when it goes on.
  ghost predicate SameForPair(p: Protocol, a: System, b: System, pair: Pair) {
    && NextOpen(p, a.db, pair) == NextOpen(p, b.db, pair)
    && (pair in a.histories <==> pair in b.histories)
    && (pair in a.histories ==> a.histories[pair] == b.histories[pair])
    && (HasOpenTrade(a.db, pair) <==> HasOpenTrade(b.db, pair))
    && (pair.exchange in a.pending <==> pair.exchange in b.pending)
    && a.phase == b.phase
  }

  // The rows of the pair are the same.
  ghost predicate SameRows(a: Database, b: Database, pair: Pair) {
    forall key: Key :: key.pair == pair ==>
      && (key in a.candles <==> key in b.candles)
      && (key in a.trades <==> key in b.trades)
      && (key in a.trades ==> a.trades[key] == b.trades[key])
  }

  lemma SameRowsLook(p: Protocol, a: Database, b: Database, pair: Pair)
    requires SameRows(a, b, pair)
    ensures NextOpen(p, a, pair) == NextOpen(p, b, pair)
    ensures HasOpenTrade(a, pair) <==> HasOpenTrade(b, pair)
  {
    assert OpensOf(a, pair) == OpensOf(b, pair) by {
      assert forall open: int :: Key(pair, open) in a.candles <==> Key(pair, open) in b.candles;
    }
  }

  lemma OtherStepKeepsRows(p: Protocol, s: System, step: Step, pair: Pair)
    requires PendingOk(s) && Enabled(p, s, step) && OfAnother(s, step, pair)
    ensures SameRows(s.db, Apply(p, s, step).db, pair)
  {
    hide NextOpen, HasOpenTrade, Histories;
  }

  lemma OtherStepLeavesPair(p: Protocol, s: System, step: Step, pair: Pair)
    requires Inv(p, s) && Enabled(p, s, step) && OfAnother(s, step, pair)
    ensures SameForPair(p, s, Apply(p, s, step), pair)
  {
    hide Apply, Enabled, OfAnother, SameRows, NextOpen, HasOpenTrade, TablesOk, EventsOk, CandlesOk, HistoriesOk;
    OtherStepKeepsRows(p, s, step, pair);
    OtherStepKeepsMemory(p, s, step, pair);
    SameRowsLook(p, s.db, Apply(p, s, step).db, pair);
  }

  lemma OtherStepKeepsMemory(p: Protocol, s: System, step: Step, pair: Pair)
    requires Enabled(p, s, step) && OfAnother(s, step, pair)
    ensures var r := Apply(p, s, step);
      && (pair in s.histories <==> pair in r.histories)
      && (pair in s.histories ==> s.histories[pair] == r.histories[pair])
      && (pair.exchange in s.pending <==> pair.exchange in r.pending)
      && s.phase == r.phase
  {
    hide NextOpen, HasOpenTrade, Histories, OkOr, WithCandle, WithDecision, WithClosed, WithQuote, WellDecided;
  }

  ghost predicate AllOfAnother(p: Protocol, s: System, steps: seq<Step>, pair: Pair)
    requires Possible(p, s, steps)
    decreases |steps|
  {
    steps == [] || (OfAnother(s, steps[0], pair) && AllOfAnother(p, Apply(p, s, steps[0]), steps[1..], pair))
  }

  // Whatever other exchanges do between two candles of a pass, the pass finds its pair as it
  // left it, and the invariant intact.
  lemma {:induction false} OthersLeavePair(p: Protocol, s: System, steps: seq<Step>, pair: Pair)
    requires Inv(p, s) && Possible(p, s, steps) && AllOfAnother(p, s, steps, pair)
    ensures Inv(p, Reached(p, s, steps)) && SameForPair(p, s, Reached(p, s, steps), pair)
    decreases |steps|
  {
    if steps != [] {
      OtherStepLeavesPair(p, s, steps[0], pair);
      StepKeeps(p, s, steps[0]);
      hide Inv, Enabled, Apply, OfAnother, NextOpen, HasOpenTrade;
      OthersLeavePair(p, Apply(p, s, steps[0]), steps[1..], pair);
    }
  }

  lemma CommitFacts(p: Protocol, s: System, pair: Pair, candle: Candle, exchangeTimestamp: int, receivedAt: int)
    requires Inv(p, s) && s.phase == Cycling && s.pending == map[] && pair in p.warmups
    requires candle.timestamp == NextOpen(p, s.db, pair) && candle.timestamp + HOUR <= exchangeTimestamp
    ensures Enabled(p, s, Commit(pair, candle, exchangeTimestamp, receivedAt))
    ensures Key(pair, candle.timestamp) !in s.db.candles && pair in s.histories
    ensures NextOpen(p, Apply(p, s, Commit(pair, candle, exchangeTimestamp, receivedAt)).db, pair)
        == candle.timestamp + HOUR
  {
    hide NextOpen, TablesOk, EventsOk, CandlesOk, PendingOk, Persisted;
    NextOpenIsNew(p, s.db, pair);
    var row := LiveRow(candle, exchangeTimestamp, receivedAt);
    var after := WithCandle(s.db, Key(pair, candle.timestamp), row);
    NextOpenFollows(p, s.db, pair, row, after);
    assert Apply(p, s, Commit(pair, candle, exchangeTimestamp, receivedAt)).db == after;
  }

  lemma DecisionKeepsCandles(p: Protocol, s: System, step: Step)
    requires Enabled(p, s, step) && (step.Decide? || step.Abandon?)
    ensures Apply(p, s, step).db.candles == s.db.candles
    ensures forall pair :: NextOpen(p, Apply(p, s, step).db, pair) == NextOpen(p, s.db, pair)
  {
    var after := Apply(p, s, step).db;
    forall pair
      ensures NextOpen(p, after, pair) == NextOpen(p, s.db, pair)
    {
      assert OpensOf(after, pair) == OpensOf(s.db, pair);
    }
  }

  lemma FloorBounds(at: int)
    ensures FloorHour(at) <= at < FloorHour(at) + HOUR
  {
  }

  lemma StartAfterLock(p: Protocol, s: System, pair: Pair)
    requires Inv(p, s)
    ensures NextOpen(p, s.db, pair) >= FloorHour(p.lockedAt)
  {
  }

  lemma ProvidedTime(candles: seq<Candle>, start: int, end: int, i: nat)
    requires Provides(candles, start, end) && i < |candles|
    ensures candles[i].timestamp == start + i * HOUR
    ensures i * HOUR <= end - start
    ensures i * HOUR < end - start ==> (i + 1) * HOUR <= end - start
  {
  }

  lemma ProvidedEnd(candles: seq<Candle>, start: int, end: int)
    requires Provides(candles, start, end)
    ensures |candles| * HOUR >= end - start
  {
  }

  // ---------------------------------------------------------------- recovery

  // Between cycles, or right after a repair.
  predicate Recovering(s: System) {
    s.phase == Starting || s.phase.Maintaining?
  }

  // Each recovered candle is one the venue answered with, recorded at recovery time.
  ghost predicate Fetched(steps: seq<Step>, fetch: (Pair, int, int) -> Option<seq<Candle>>, now: int) {
    forall i :: 0 <= i < |steps| ==>
      steps[i].Recover? && steps[i].at == now && Answered(fetch, steps[i].pair, steps[i].candle)
  }

  ghost predicate Answered(fetch: (Pair, int, int) -> Option<seq<Candle>>, pair: Pair, candle: Candle) {
    exists start, end :: candle in OrNone(fetch(pair, start, end))
  }

  function CountFor(steps: seq<Step>, exchange: string): nat {
    if steps == [] then 0
    else
      var last := steps[|steps| - 1];
      CountFor(steps[..|steps| - 1], exchange) + if last.Recover? && last.pair.exchange == exchange then 1 else 0
  }

  lemma CountOneMore(steps: seq<Step>, pair: Pair, candle: Candle, now: int)
    ensures forall x :: CountFor(steps + [Recover(pair, candle, now)], x)
                     == CountFor(steps, x) + if x == pair.exchange then 1 else 0
  {
    assert (steps + [Recover(pair, candle, now)])[..|steps|] == steps;
  }

  // The recovery steps of each exchange.
  ghost predicate Tallied(byExchange: map<string, nat>, exchanges: seq<string>, steps: seq<Step>) {
    && (forall x :: x in byExchange <==> x in exchanges)
    && (forall x :: x in byExchange ==> byExchange[x] == CountFor(steps, x))
  }

  lemma TallyGoesOn(byExchange: map<string, nat>, exchanges: seq<string>, before: seq<Step>, steps: seq<Step>,
                    exchange: string, added: nat)
    requires Tallied(byExchange, exchanges, before) && exchange in exchanges
    requires forall x :: CountFor(steps, x) == CountFor(before, x) + if x == exchange then added else 0
    ensures exchange in byExchange
    ensures Tallied(byExchange[exchange := byExchange[exchange] + added], exchanges, steps)
  {
    hide CountFor;
  }

  lemma FetchedMore(steps: seq<Step>, fetch: (Pair, int, int) -> Option<seq<Candle>>, now: int, pair: Pair,
                    start: int, end: int, candle: Candle)
    requires Fetched(steps, fetch, now) && candle in OrNone(fetch(pair, start, end))
    ensures Fetched(steps + [Recover(pair, candle, now)], fetch, now)
  {
    assert Answered(fetch, pair, candle);
    hide Answered;
    var all := steps + [Recover(pair, candle, now)];
    assert forall i :: 0 <= i < |steps| ==> all[i] == steps[i];
  }

  // `s` after recovering `n` more candles of `repository`'s table.
  ghost predicate RecoveredTo(p: Protocol, s: System, steps: seq<Step>, db: Database, n: nat) {
    && Possible(p, s, steps)
    && var r := Reached(p, s, steps);
       && r.db == db && r.histories == s.histories && r.pending == s.pending
       && r.phase == (if s.phase.Maintaining? && n > 0 then Maintaining(true) else s.phase)
       && |db.candles| == |s.db.candles| + n
       && Inv(p, r)
  }

  lemma RecoverOne(p: Protocol, s: System, steps: seq<Step>, db: Database, n: nat, pair: Pair, candle: Candle, at: int)
    requires Recovering(s) && RecoveredTo(p, s, steps, db, n)
    requires pair in p.warmups && candle.timestamp == NextOpen(p, db, pair) && candle.timestamp + HOUR <= at
    ensures WithRecovered(db, Key(pair, candle.timestamp), RecoveredRow(candle, at)).Ok?
    ensures var after := WithRecovered(db, Key(pair, candle.timestamp), RecoveredRow(candle, at)).value;
      && RecoveredTo(p, s, steps + [Recover(pair, candle, at)], after, n + 1)
      && NextOpen(p, after, pair) == candle.timestamp + HOUR
      && Key(pair, candle.timestamp) !in db.candles
  {
    var r := Reached(p, s, steps);
    var step := Recover(pair, candle, at);
    var key := Key(pair, candle.timestamp);
    NextOpenIsNew(p, db, pair);
    RecoveredKeepsTables(db, key, RecoveredRow(candle, at));
    NextOpenFollows(p, db, pair, RecoveredRow(candle, at), WithRecovered(db, key, RecoveredRow(candle, at)).value);
    hide Inv, NextOpen, CandlesOk, TablesOk, EventsOk, HistoriesOk;
    StepAfter(p, s, steps, step);
    StepKeeps(p, r, step);
  }

  // Persists the missed candles of one pair; false when fetching raised.
  method RecoverPair(p: Protocol, repository: ShadowRepository, pair: Pair,
                     fetch: (Pair, int, int) -> Option<seq<Candle>>, through: int, now: int,
                     ghost s: System, ghost before: seq<Step>, ghost n: nat)
    returns (ok: bool, recovered: nat, ghost steps: seq<Step>)
    requires pair in p.warmups && FloorHour(through) <= now
    requires forall q, x, y :: fetch(q, x, y).Some? ==> Provides(fetch(q, x, y).value, x, y)
    requires Recovering(s) && RecoveredTo(p, s, before, repository.View(), n) && Fetched(before, fetch, now)
    modifies repository
    ensures RecoveredTo(p, s, steps, repository.View(), n + recovered) && Fetched(steps, fetch, now)
    ensures |steps| == |before| + recovered
    ensures forall x :: CountFor(steps, x) == CountFor(before, x) + if x == pair.exchange then recovered else 0
    ensures ok ==> CaughtUp(p, repository.View(), pair, FloorHour(through))
    ensures KeepsCandles(old(repository.View()), repository.View())
  {
    hide RecoveredTo, Provides, NextOpen, Fetched, CountFor;
    recovered, steps := 0, before;
    var last := repository.LastCandleOpen(pair);
    StartOfFetch(p, repository.View(), pair, last);
    var start := if last.Some? then last.value + HOUR else FloorHour(p.lockedAt);
    var end := FloorHour(through);
    if start >= end {
      return true, 0, before;
    }
    var answer := fetch(pair, start, end);
    if answer.None? {
      return false, 0, before;
    }
    var candles := answer.value;
    RecoveryStart(p, s, before, repository.View(), n, pair);
    FloorBounds(p.lockedAt);
    for i := 0 to |candles|
      invariant RecoveredTo(p, s, steps, repository.View(), n + recovered) && Fetched(steps, fetch, now)
      invariant |steps| == |before| + recovered
      invariant forall x :: CountFor(steps, x) == CountFor(before, x) + if x == pair.exchange then recovered else 0
      invariant KeepsCandles(old(repository.View()), repository.View())
      invariant NextOpen(p, repository.View(), pair) == if i * HOUR <= end - start then start + i * HOUR else end
    {
      var candle := candles[i];
      ProvidedTime(candles, start, end, i);
      var closeTime := candle.timestamp + HOUR;
      if p.lockedAt < closeTime <= end {
        RecoverOne(p, s, steps, repository.View(), n + recovered, pair, candle, now);
        var saved := repository.RecordRecoveredCandle(pair, candle, now);
        assert saved == Ok(true);
        recovered := recovered + 1;
        FetchedMore(steps, fetch, now, pair, start, end, candle);
        CountOneMore(steps, pair, candle, now);
        steps := steps + [Recover(pair, candle, now)];
      }
    }
    ProvidedEnd(candles, start, end);
    ok := true;
  }

  lemma RecoveryStart(p: Protocol, s: System, steps: seq<Step>, db: Database, n: nat, pair: Pair)
    requires RecoveredTo(p, s, steps, db, n)
    ensures NextOpen(p, db, pair) >= FloorHour(p.lockedAt)
  {
  }

  ghost predicate KeepsCandles(before: Database, after: Database) {
    before.candles.Keys <= after.candles.Keys
  }

  // A pair once caught up stays so.
  lemma CaughtUpStays(p: Protocol, before: Database, after: Database, pair: Pair, end: int)
    requires KeepsCandles(before, after) && CandlesOk(p, after) && CaughtUp(p, before, pair, end)
    ensures CaughtUp(p, after, pair, end)
  {
    NextOpenIsNew(p, after, pair);
    if OpensOf(before, pair) != {} {
      var last := Largest(OpensOf(before, pair));
      assert last in OpensOf(after, pair);
    }
  }

  // The first `j` assets of exchange `i` and all assets of earlier exchanges are caught up,
  // unless they raised.
  ghost predicate DoneUpTo(p: Protocol, db: Database, exchanges: seq<string>, assets: seq<string>, errors: seq<Pair>,
                           end: int, i: nat, j: nat) {
    forall k, m | 0 <= k < |exchanges| && 0 <= m < |assets| && (k < i || (k == i && m < j)) ::
      Pair(exchanges[k], assets[m]) in errors || CaughtUp(p, db, Pair(exchanges[k], assets[m]), end)
  }

  lemma DoneOneMore(p: Protocol, before: Database, after: Database, exchanges: seq<string>, assets: seq<string>,
                    errors: seq<Pair>, end: int, i: nat, j: nat, ok: bool)
    requires i < |exchanges| && j < |assets| && KeepsCandles(before, after) && CandlesOk(p, after)
    requires DoneUpTo(p, before, exchanges, assets, errors, end, i, j)
    requires ok ==> CaughtUp(p, after, Pair(exchanges[i], assets[j]), end)
    ensures DoneUpTo(p, after, exchanges, assets, if ok then errors else errors + [Pair(exchanges[i], assets[j])], end,
                     i, j + 1)
  {
    hide CaughtUp, CandlesOk;
    var later := if ok then errors else errors + [Pair(exchanges[i], assets[j])];
    forall k, m | 0 <= k < |exchanges| && 0 <= m < |assets| && (k < i || (k == i && m < j + 1))
      && Pair(exchanges[k], assets[m]) !in later
      ensures CaughtUp(p, after, Pair(exchanges[k], assets[m]), end)
    {
      if k < i || m < j {
        CaughtUpStays(p, before, after, Pair(exchanges[k], assets[m]), end);
      }
    }
  }

  lemma DoneNextExchange(p: Protocol, db: Database, exchanges: seq<string>, assets: seq<string>, errors: seq<Pair>,
                         end: int, i: nat)
    requires DoneUpTo(p, db, exchanges, assets, errors, end, i, |assets|)
    ensures DoneUpTo(p, db, exchanges, assets, errors, end, i + 1, 0)
  {
  }

  lemma RecoveredRows(p: Protocol, s: System, steps: seq<Step>, db: Database, n: nat)
    requires RecoveredTo(p, s, steps, db, n)
    ensures CandlesOk(p, db)
  {
  }

  // How far a recovery has got: its steps, their totals, and the pairs that are caught up.
  ghost predicate RecoveredSoFar(p: Protocol, s: System, db: Database, exchanges: seq<string>, assets: seq<string>,
                                 fetch: (Pair, int, int) -> Option<seq<Candle>>, now: int, end: int, i: nat, j: nat,
                                 recovered: nat, byExchange: map<string, nat>, errors: seq<Pair>, steps: seq<Step>) {
    && RecoveredTo(p, s, steps, db, recovered) && Fetched(steps, fetch, now)
    && |steps| == recovered && Tallied(byExchange, exchanges, steps)
    && DoneUpTo(p, db, exchanges, assets, errors, end, i, j)
  }

  // One pair more.
  method RecoverNext(p: Protocol, repository: ShadowRepository, exchanges: seq<string>, assets: seq<string>,
                     fetch: (Pair, int, int) -> Option<seq<Candle>>, through: int, now: int, ghost s: System, i: nat,
                     j: nat, recovered: nat, byExchange: map<string, nat>, errors: seq<Pair>, ghost steps: seq<Step>)
    returns (recovered': nat, byExchange': map<string, nat>, errors': seq<Pair>, ghost steps': seq<Step>)
    requires i < |exchanges| && j < |assets| && Pair(exchanges[i], assets[j]) in p.warmups
    requires FloorHour(through) <= now && Recovering(s)
    requires forall q, x, y :: fetch(q, x, y).Some? ==> Provides(fetch(q, x, y).value, x, y)
    requires RecoveredSoFar(p, s, repository.View(), exchanges, assets, fetch, now, FloorHour(through), i, j,
                            recovered, byExchange, errors, steps)
    modifies repository
    ensures RecoveredSoFar(p, s, repository.View(), exchanges, assets, fetch, now, FloorHour(through), i, j + 1,
                           recovered', byExchange', errors', steps')
  {
    hide CaughtUp, RecoveredTo, Inv, Provides, KeepsCandles, Fetched, CountFor, Tallied, DoneUpTo, FloorHour;
    var pair := Pair(exchanges[i], assets[j]);
    ghost var db := repository.View();
    var ok, added;
    ok, added, steps' := RecoverPair(p, repository, pair, fetch, through, now, s, steps, recovered);
    recovered' := recovered + added;
    TallyGoesOn(byExchange, exchanges, steps, steps', pair.exchange, added);
    byExchange' := byExchange[pair.exchange := byExchange[pair.exchange] + added];
    RecoveredRows(p, s, steps', repository.View(), recovered');
    DoneOneMore(p, db, repository.View(), exchanges, assets, errors, FloorHour(through), i, j, ok);
    errors' := if ok then errors else errors + [pair];
  }

  // All exchanges and assets. The whole call is a run of recovery steps, `recovered` and
  // `byExchange` count them, and a pair that raised nothing is caught up with the last closed hour.
  method RecoverAfterDowntime(p: Protocol, repository: ShadowRepository, exchanges: seq<string>, assets: seq<string>,
                              fetch: (Pair, int, int) -> Option<seq<Candle>>, through: int, now: int, ghost s: System)
    returns (recovered: nat, byExchange: map<string, nat>, errors: seq<Pair>, ghost steps: seq<Step>)
    requires forall x, a :: x in exchanges && a in assets ==> Pair(x, a) in p.warmups
    requires FloorHour(through) <= now
    requires forall q, x, y :: fetch(q, x, y).Some? ==> Provides(fetch(q, x, y).value, x, y)
    requires Recovering(s) && s.db == repository.View() && Inv(p, s)
    modifies repository
    ensures RecoveredTo(p, s, steps, repository.View(), recovered) && Fetched(steps, fetch, now)
    ensures |steps| == recovered && Tallied(byExchange, exchanges, steps)
    ensures DoneUpTo(p, repository.View(), exchanges, assets, errors, FloorHour(through), |exchanges|, 0)
  {
    recovered, errors, steps := 0, [], [];
    byExchange := map x | x in exchanges :: 0;
    NothingRecovered(p, s);
    ghost var end := FloorHour(through);
    assert RecoveredSoFar(p, s, repository.View(), exchanges, assets, fetch, now, end, 0, 0, recovered, byExchange,
                          errors, steps) by {
      hide CaughtUp, RecoveredTo, Inv, Provides;
    }
    hide RecoveredSoFar, Inv, Provides, FloorHour;
    for i := 0 to |exchanges|
      invariant RecoveredSoFar(p, s, repository.View(), exchanges, assets, fetch, now, end, i, 0, recovered,
                               byExchange, errors, steps)
    {
      for j := 0 to |assets|
        invariant RecoveredSoFar(p, s, repository.View(), exchanges, assets, fetch, now, end, i, j, recovered,
                                 byExchange, errors, steps)
      {
        recovered, byExchange, errors, steps :=
          RecoverNext(p, repository, exchanges, assets, fetch, through, now, s, i, j,
                      recovered, byExchange, errors, steps);
      }
      NextExchange(p, s, repository.View(), exchanges, assets, fetch, now, end, i, recovered, byExchange, errors,
                   steps);
    }
    WholeRecovery(p, s, repository.View(), exchanges, assets, fetch, now, end, recovered, byExchange, errors, steps);
  }

  lemma NextExchange(p: Protocol, s: System, db: Database, exchanges: seq<string>, assets: seq<string>,
                     fetch: (Pair, int, int) -> Option<seq<Candle>>, now: int, end: int, i: nat,
                     recovered: nat, byExchange: map<string, nat>, errors: seq<Pair>, steps: seq<Step>)
    requires RecoveredSoFar(p, s, db, exchanges, assets, fetch, now, end, i, |assets|, recovered, byExchange, errors,
                            steps)
    ensures RecoveredSoFar(p, s, db, exchanges, assets, fetch, now, end, i + 1, 0, recovered, byExchange, errors, steps)
  {
    hide CaughtUp, RecoveredTo, Fetched, Tallied;
    DoneNextExchange(p, db, exchanges, assets, errors, end, i);
  }

  lemma WholeRecovery(p: Protocol, s: System, db: Database, exchanges: seq<string>, assets: seq<string>,
                      fetch: (Pair, int, int) -> Option<seq<Candle>>, now: int, end: int,
                      recovered: nat, byExchange: map<string, nat>, errors: seq<Pair>, steps: seq<Step>)
    requires RecoveredSoFar(p, s, db, exchanges, assets, fetch, now, end, |exchanges|, 0, recovered, byExchange,
                            errors, steps)
    ensures RecoveredTo(p, s, steps, db, recovered) && Fetched(steps, fetch, now)
    ensures |steps| == recovered && Tallied(byExchange, exchanges, steps)
    ensures DoneUpTo(p, db, exchanges, assets, errors, end, |exchanges|, 0)
  {
    hide RecoveredTo, Fetched, Tallied, DoneUpTo;
  }

  lemma NothingRecovered(p: Protocol, s: System)
    requires Inv(p, s)
    ensures RecoveredTo(p, s, [], s.db, 0)
  {
  }
}
