// The collector protocol over the ledger: live candles, decisions, position tracking, downtime
// recovery, orphan repair and restarts, with crashes at every commit point.
module Collector {
  import opened Common
  import opened Ledger

  // What a deployment fixes: warm-up candles per pair and the lock instant.
  datatype Protocol = Protocol(warmups: map<Pair, seq<Candle>>, lockedAt: int)

  function FloorHour(at: int): int {
    at - at % HOUR
  }

  // Down, repaired and recovering, inside a cycle, or between cycles (having recovered or not).
  datatype Phase = Down | Starting | Cycling | Maintaining(recovered: bool)

  // `pending` maps an exchange to the candle it committed but has not decided yet.
  datatype System = System(db: Database, phase: Phase, histories: map<Pair, seq<Candle>>, pending: map<string, Key>)

  datatype Step =
    | Repair
    | Recover(pair: Pair, candle: Candle, at: int)
    | Build
    | Quote(pair: Pair, receivedAt: int)
    | Commit(pair: Pair, candle: Candle, exchangeTimestamp: int, receivedAt: int)
    | Decide(exchange: string, decision: DecisionRow, trade: Option<TradeRow>)
    | Abandon(exchange: string)
    | CloseOut(key: Key, at: int, pnl: real)
    | EndCycle
    | NextCycle
    | Crash

  const START: System := System(EMPTY, Down, map[], map[])

  // ---------------------------------------------------------------- one step

  // The open time the next persisted candle of a pair must have.
  ghost function NextOpen(p: Protocol, db: Database, pair: Pair): int {
    if OpensOf(db, pair) == {} then FloorHour(p.lockedAt) else Largest(OpensOf(db, pair)) + HOUR
  }

  // Decisions the engine writes: a trade comes exactly with an allowed signal.
  predicate WellDecided(decision: DecisionRow, trade: Option<TradeRow>) {
    && decision.origin == Live
    && (decision.choice == Wait <==> decision.risk == NotApplicable)
    && (trade.Some? <==> decision.risk == Allow)
    && (trade.Some? ==> trade.value.status == Open && trade.value.side == decision.choice)
  }

  ghost predicate Enabled(p: Protocol, s: System, step: Step) {
    match step
    case Repair => s.phase == Down
    case Recover(pair, candle, at) =>
      && (s.phase == Starting || s.phase.Maintaining?)
      && pair in p.warmups && candle.timestamp == NextOpen(p, s.db, pair) && candle.timestamp + HOUR <= at
    case Build => s.phase == Starting
    case Quote(_, _) => s.phase == Cycling
    case Commit(pair, candle, exchangeTimestamp, _) =>
      && s.phase == Cycling && pair in p.warmups && pair.exchange !in s.pending
      && candle.timestamp == NextOpen(p, s.db, pair) && candle.timestamp + HOUR <= exchangeTimestamp
    case Decide(exchange, decision, trade) =>
      && s.phase == Cycling && exchange in s.pending && WellDecided(decision, trade)
      && (trade.Some? ==> !HasOpenTrade(s.db, s.pending[exchange].pair))
    case Abandon(exchange) => s.phase == Cycling && exchange in s.pending
    case CloseOut(key, _, _) => s.phase == Cycling && key in s.db.trades && s.db.trades[key].status == Open
    case EndCycle => s.phase == Cycling && s.pending == map[]
    case NextCycle => s.phase.Maintaining?
    case Crash => true
  }

  ghost function Histories(p: Protocol, db: Database): (h: map<Pair, seq<Candle>>)
    ensures h.Keys == p.warmups.Keys
  {
    map pair | pair in p.warmups :: p.warmups[pair] + Persisted(db, pair)
  }

  function OkOr(r: Result<Database, DbError>, db: Database): Database {
    match r case Ok(next) => next case Err(_) => db
  }

  ghost function Apply(p: Protocol, s: System, step: Step): System
    requires Enabled(p, s, step)
  {
    match step
    case Repair => s.(db := Repaired(s.db), phase := Starting)
    case Recover(pair, candle, at) =>
      s.(db := OkOr(WithRecovered(s.db, Key(pair, candle.timestamp), RecoveredRow(candle, at)), s.db),
         phase := if s.phase.Maintaining? then Maintaining(true) else s.phase)
    case Build => s.(phase := Cycling, histories := Histories(p, s.db))
    case Quote(pair, receivedAt) => s.(db := WithQuote(s.db, pair, receivedAt))
    case Commit(pair, candle, exchangeTimestamp, receivedAt) =>
      var key := Key(pair, candle.timestamp);
      s.(db := WithCandle(s.db, key, LiveRow(candle, exchangeTimestamp, receivedAt)),
         histories := s.histories[pair := (if pair in s.histories then s.histories[pair] else []) + [candle]],
         pending := s.pending[pair.exchange := key])
    case Decide(exchange, decision, trade) =>
      s.(db := OkOr(WithDecision(s.db, s.pending[exchange], decision, trade), s.db), pending := s.pending - {exchange})
    case Abandon(exchange) => s.(pending := s.pending - {exchange})
    case CloseOut(key, at, pnl) => s.(db := OkOr(WithClosed(s.db, key, at, pnl), s.db))
    case EndCycle => s.(phase := Maintaining(false))
    case NextCycle => s.(phase := Cycling, histories := if s.phase.recovered then Histories(p, s.db) else s.histories)
    case Crash => s.(phase := Down, histories := map[], pending := map[])
  }

  // ---------------------------------------------------------------- runs

  ghost predicate Possible(p: Protocol, s: System, steps: seq<Step>)
    decreases |steps|
  {
    steps == [] || (Enabled(p, s, steps[0]) && Possible(p, Apply(p, s, steps[0]), steps[1..]))
  }

  ghost function Reached(p: Protocol, s: System, steps: seq<Step>): System
    requires Possible(p, s, steps)
    decreases |steps|
  {
    if steps == [] then s else Reached(p, Apply(p, s, steps[0]), steps[1..])
  }

  lemma {:induction false} RunsCompose(p: Protocol, s: System, a: seq<Step>, b: seq<Step>)
    requires Possible(p, s, a) && Possible(p, Reached(p, s, a), b)
    ensures Possible(p, s, a + b) && Reached(p, s, a + b) == Reached(p, Reached(p, s, a), b)
    decreases |a|
  {
    if a == [] {
      assert a + b == b;
    } else {
      assert (a + b)[1..] == a[1..] + b;
      RunsCompose(p, Apply(p, s, a[0]), a[1..], b);
    }
  }

  // ---------------------------------------------------------------- the invariant

  // Tables: decisions only for candles; trades only for allowed live signals; recovered candles
  // carry their suppressed decision; at most one open trade per pair.
  ghost predicate TablesOk(db: Database) {
    && db.trades.Keys <= db.decisions.Keys <= db.candles.Keys
    && (forall key :: key in db.trades ==> Tradable(db.decisions[key], db.trades[key]))
    && (forall key :: key in db.candles && db.candles[key].recovered ==>
          key in db.decisions && db.decisions[key] == SUPPRESSED)
    && OneOpenPerPair(db)
  }

  ghost predicate OneOpenPerPair(db: Database) {
    forall a, b | a in db.trades && b in db.trades && a.pair == b.pair ::
      db.trades[a].status == Open && db.trades[b].status == Open ==> a == b
  }

  predicate Tradable(decision: DecisionRow, trade: TradeRow) {
    decision.choice != Wait && decision.risk == Allow && decision.origin == Live && trade.side == decision.choice
  }

  // Exactly one first-trade event once any trade exists, and one close event per closed trade.
  ghost predicate EventsOk(db: Database) {
    && CountFirst(db.events) == (if db.trades == map[] then 0 else 1)
    && (forall key :: CountClosed(db.events, key) ==
          if key in db.trades && db.trades[key].status == Closed then 1 else 0)
  }

  function CountFirst(events: seq<Event>): nat {
    if events == [] then 0
    else CountFirst(events[..|events| - 1]) + if events[|events| - 1].FirstTrade? then 1 else 0
  }

  function CountClosed(events: seq<Event>, key: Key): nat {
    if events == [] then 0
    else CountClosed(events[..|events| - 1], key) + if events[|events| - 1] == PositionClosed(key) then 1 else 0
  }

  // A whole number of hours after the first one.
  predicate OnGrid(first: int, open: int) {
    open >= first && (open - first) % HOUR == 0
  }

  // Candle rows: keyed by their open time, closed when observed, and every later candle of a
  // pair has its predecessor, back to the lock hour.
  ghost predicate CandlesOk(p: Protocol, db: Database) {
    forall key :: key in db.candles ==> RowOk(p, db, key)
  }

  ghost predicate RowOk(p: Protocol, db: Database, key: Key)
    requires key in db.candles
  {
    var row, first := db.candles[key], FloorHour(p.lockedAt);
    && key.pair in p.warmups
    && row.candle.timestamp == key.open && row.closeTime == key.open + HOUR
    && row.closeTime <= row.exchangeTimestamp && (row.recovered ==> row.closeTime <= row.receivedAt)
    && OnGrid(first, key.open)
    && (key.open > first ==> Key(key.pair, key.open - HOUR) in db.candles)
  }

  ghost predicate PendingOk(s: System) {
    && (s.phase != Cycling ==> s.pending == map[])
    && (forall x :: x in s.pending ==>
          var key := s.pending[x];
          key.pair.exchange == x && key in s.db.candles && key !in s.db.decisions && !s.db.candles[key].recovered)
  }

  ghost predicate HistoriesOk(p: Protocol, s: System) {
    s.phase == Cycling || s.phase == Maintaining(false) ==> s.histories == Histories(p, s.db)
  }

  ghost predicate Inv(p: Protocol, s: System) {
    && TablesOk(s.db) && EventsOk(s.db) && CandlesOk(p, s.db)
    && PendingOk(s) && HistoriesOk(p, s)
    && (s.phase == Starting ==> Orphans(s.db) == {})
  }

  lemma StartOk(p: Protocol)
    ensures Inv(p, START)
  {
  }

  // ---------------------------------------------------------------- steps keep it

  lemma NextOpenIsNew(p: Protocol, db: Database, pair: Pair)
    requires CandlesOk(p, db)
    ensures var next := NextOpen(p, db, pair);
      && Key(pair, next) !in db.candles
      && (forall x :: x in OpensOf(db, pair) ==> x < next)
      && OnGrid(FloorHour(p.lockedAt), next)
      && (next > FloorHour(p.lockedAt) ==> Key(pair, next - HOUR) in db.candles)
  {
    assert forall key :: key in db.candles && key.pair == pair ==> key.open in OpensOf(db, pair);
    if OpensOf(db, pair) != {} {
      var last := Largest(OpensOf(db, pair));
      assert RowOk(p, db, Key(pair, last));
      hide CandlesOk, OnGrid, FloorHour;
      NextHourOnGrid(FloorHour(p.lockedAt), last);
    }
  }

  lemma NextHourOnGrid(first: int, open: int)
    requires OnGrid(first, open)
    ensures OnGrid(first, open + HOUR)
  {
  }

  lemma NewCandleKeepsRows(p: Protocol, db: Database, pair: Pair, row: CandleRow, after: Database)
    requires CandlesOk(p, db) && pair in p.warmups
    requires row.candle.timestamp == NextOpen(p, db, pair) && row.closeTime == row.candle.timestamp + HOUR
    requires row.closeTime <= row.exchangeTimestamp && (row.recovered ==> row.closeTime <= row.receivedAt)
    requires after.candles == db.candles[Key(pair, row.candle.timestamp) := row]
    ensures CandlesOk(p, after)
  {
    hide OnGrid, FloorHour, NextOpen;
    NextOpenIsNew(p, db, pair);
    forall key | key in after.candles
      ensures RowOk(p, after, key)
    {
      if key in db.candles {
        assert RowOk(p, db, key);
      }
    }
  }

  lemma NewCandleExtendsOpens(p: Protocol, db: Database, pair: Pair, row: CandleRow, after: Database, other: Pair)
    requires CandlesOk(p, db) && row.candle.timestamp == NextOpen(p, db, pair)
    requires after.candles == db.candles[Key(pair, row.candle.timestamp) := row]
    ensures Ascending(OpensOf(after, other))
         == if other == pair then Ascending(OpensOf(db, pair)) + [row.candle.timestamp]
             else Ascending(OpensOf(db, other))
  {
    NextOpenIsNew(p, db, pair);
    var next := row.candle.timestamp;
    hide NextOpen, CandlesOk, Ascending;
    if other == pair {
      assert OpensOf(after, pair) == OpensOf(db, pair) + {next};
      AscendingAppends(OpensOf(db, pair), next);
    } else {
      assert OpensOf(after, other) == OpensOf(db, other);
    }
  }

  lemma CandlesAtKept(db: Database, after: Database, pair: Pair, opens: seq<int>)
    requires forall x :: x in opens ==> Key(pair, x) in db.candles
    requires forall key :: key in db.candles ==> key in after.candles && after.candles[key] == db.candles[key]
    ensures CandlesAt(after, pair, opens) == CandlesAt(db, pair, opens)
  {
  }

  // The persisted list of the pair grows by the new candle; the others do not change.
  lemma NewCandleExtendsPersisted(p: Protocol, db: Database, pair: Pair, row: CandleRow, after: Database, other: Pair)
    requires CandlesOk(p, db) && row.candle.timestamp == NextOpen(p, db, pair)
    requires after.candles == db.candles[Key(pair, row.candle.timestamp) := row]
    ensures Persisted(after, other)
         == if other == pair then Persisted(db, pair) + [row.candle] else Persisted(db, other)
  {
    hide NextOpen, CandlesOk, Ascending;
    NextOpenIsNew(p, db, pair);
    NewCandleExtendsOpens(p, db, pair, row, after, other);
    var opens := Ascending(OpensOf(db, other));
    hide OpensOf;
    CandlesAtKept(db, after, other, opens);
  }

  lemma SameCandlesOk(p: Protocol, a: Database, b: Database)
    requires CandlesOk(p, a) && a.candles == b.candles
    ensures CandlesOk(p, b)
  {
  }

  lemma SameCandlesSameHistories(p: Protocol, a: Database, b: Database)
    requires a.candles == b.candles
    ensures Histories(p, a) == Histories(p, b)
  {
  }

  lemma RepairKeeps(p: Protocol, s: System)
    requires Inv(p, s) && s.phase == Down
    ensures Inv(p, Apply(p, s, Repair))
  {
    hide Histories, EventsOk, CandlesOk;
    SameCandlesOk(p, s.db, Repaired(s.db));
    SameEventsOk(s.db, Repaired(s.db));
  }

  lemma SameEventsOk(a: Database, b: Database)
    requires EventsOk(a) && a.trades == b.trades && a.events == b.events
    ensures EventsOk(b)
  {
  }

  lemma RecoveredKeepsTables(db: Database, key: Key, row: CandleRow)
    requires TablesOk(db) && key !in db.candles && row.recovered
    ensures WithRecovered(db, key, row)
        == Ok(db.(candles := db.candles[key := row], decisions := db.decisions[key := SUPPRESSED]))
    ensures TablesOk(WithRecovered(db, key, row).value)
  {
  }

  lemma RecoverKeeps(p: Protocol, s: System, pair: Pair, candle: Candle, at: int)
    requires Inv(p, s) && Enabled(p, s, Recover(pair, candle, at))
    ensures Inv(p, Apply(p, s, Recover(pair, candle, at)))
  {
    hide TablesOk, EventsOk, CandlesOk, NextOpen, Histories;
    NextOpenIsNew(p, s.db, pair);
    var row := RecoveredRow(candle, at);
    var key := Key(pair, candle.timestamp);
    RecoveredKeepsTables(s.db, key, row);
    var after := WithRecovered(s.db, key, row).value;
    SameEventsOk(s.db, after);
    NewCandleKeepsRows(p, s.db, pair, row, after);
    assert Apply(p, s, Recover(pair, candle, at)).db == after;
  }

  lemma CandleKeepsTables(db: Database, key: Key, row: CandleRow)
    requires TablesOk(db) && key !in db.candles && !row.recovered
    ensures TablesOk(WithCandle(db, key, row)) && key !in db.decisions
  {
  }

  lemma CommitKeepsHistories(p: Protocol, db: Database, pair: Pair, row: CandleRow, after: Database)
    requires CandlesOk(p, db) && row.candle.timestamp == NextOpen(p, db, pair) && pair in p.warmups
    requires after.candles == db.candles[Key(pair, row.candle.timestamp) := row]
    ensures Histories(p, after) == Histories(p, db)[pair := Histories(p, db)[pair] + [row.candle]]
  {
    hide Persisted, NextOpen, CandlesOk;
    forall other | other in p.warmups
      ensures Persisted(after, other)
           == if other == pair then Persisted(db, pair) + [row.candle] else Persisted(db, other)
    {
      NewCandleExtendsPersisted(p, db, pair, row, after, other);
    }
    assert p.warmups[pair] + Persisted(db, pair) + [row.candle]
        == p.warmups[pair] + (Persisted(db, pair) + [row.candle]);
  }

  lemma CommitKeeps(p: Protocol, s: System, pair: Pair, candle: Candle, exchangeTimestamp: int, receivedAt: int)
    requires Inv(p, s) && Enabled(p, s, Commit(pair, candle, exchangeTimestamp, receivedAt))
    ensures Inv(p, Apply(p, s, Commit(pair, candle, exchangeTimestamp, receivedAt)))
  {
    hide TablesOk, EventsOk, CandlesOk, NextOpen, Histories;
    NextOpenIsNew(p, s.db, pair);
    var row := LiveRow(candle, exchangeTimestamp, receivedAt);
    var key := Key(pair, candle.timestamp);
    var after := WithCandle(s.db, key, row);
    CandleKeepsTables(s.db, key, row);
    SameEventsOk(s.db, after);
    NewCandleKeepsRows(p, s.db, pair, row, after);
    CommitKeepsHistories(p, s.db, pair, row, after);
    assert Apply(p, s, Commit(pair, candle, exchangeTimestamp, receivedAt)).db == after;
  }

  lemma DecisionKeepsEvents(db: Database, key: Key, decision: DecisionRow, trade: Option<TradeRow>)
    requires EventsOk(db) && WithDecision(db, key, decision, trade).Ok?
    requires trade.Some? ==> trade.value.status == Open
    ensures EventsOk(WithDecision(db, key, decision, trade).value)
  {
  }

  lemma DecisionKeepsTables(db: Database, key: Key, decision: DecisionRow, trade: Option<TradeRow>)
    requires TablesOk(db) && key in db.candles && key !in db.decisions && !db.candles[key].recovered
    requires WellDecided(decision, trade) && (trade.Some? ==> !HasOpenTrade(db, key.pair))
    ensures WithDecision(db, key, decision, trade).Ok? && TablesOk(WithDecision(db, key, decision, trade).value)
  {
    var after := WithDecision(db, key, decision, trade).value;
    forall k | k in after.trades
      ensures Tradable(after.decisions[k], after.trades[k])
    {
      assert k in db.trades ==> Tradable(db.decisions[k], db.trades[k]);
    }
    assert OneOpenPerPair(after);
  }

  lemma DecideKeeps(p: Protocol, s: System, exchange: string, decision: DecisionRow, trade: Option<TradeRow>)
    requires Inv(p, s) && Enabled(p, s, Decide(exchange, decision, trade))
    ensures Inv(p, Apply(p, s, Decide(exchange, decision, trade)))
  {
    hide TablesOk, EventsOk, CandlesOk, Histories, HasOpenTrade;
    var key := s.pending[exchange];
    DecisionKeepsTables(s.db, key, decision, trade);
    DecisionKeepsEvents(s.db, key, decision, trade);
    var after := WithDecision(s.db, key, decision, trade).value;
    SameCandlesSameHistories(p, s.db, after);
    SameCandlesOk(p, s.db, after);
    assert Apply(p, s, Decide(exchange, decision, trade)).db == after;
  }

  lemma CloseKeepsEvents(db: Database, key: Key, at: int, pnl: real)
    requires EventsOk(db) && WithClosed(db, key, at, pnl).Ok?
    ensures EventsOk(WithClosed(db, key, at, pnl).value)
  {
  }

  lemma CloseKeepsTables(db: Database, key: Key, at: int, pnl: real)
    requires TablesOk(db) && WithClosed(db, key, at, pnl).Ok?
    ensures TablesOk(WithClosed(db, key, at, pnl).value)
  {
    var after := WithClosed(db, key, at, pnl).value;
    forall k | k in after.trades
      ensures Tradable(after.decisions[k], after.trades[k])
    {
      assert Tradable(db.decisions[k], db.trades[k]);
    }
    assert OneOpenPerPair(after);
  }

  lemma CloseOutKeeps(p: Protocol, s: System, key: Key, at: int, pnl: real)
    requires Inv(p, s) && Enabled(p, s, CloseOut(key, at, pnl))
    ensures Inv(p, Apply(p, s, CloseOut(key, at, pnl)))
  {
    hide TablesOk, EventsOk, CandlesOk, Histories;
    CloseKeepsTables(s.db, key, at, pnl);
    CloseKeepsEvents(s.db, key, at, pnl);
    var after := WithClosed(s.db, key, at, pnl).value;
    SameCandlesSameHistories(p, s.db, after);
    SameCandlesOk(p, s.db, after);
  }

  lemma QuoteKeeps(p: Protocol, s: System, pair: Pair, receivedAt: int)
    requires Inv(p, s) && s.phase == Cycling
    ensures Inv(p, Apply(p, s, Quote(pair, receivedAt)))
  {
    hide TablesOk, EventsOk, CandlesOk, Histories;
    var after := WithQuote(s.db, pair, receivedAt);
    SameCandlesSameHistories(p, s.db, after);
    SameCandlesOk(p, s.db, after);
    SameEventsOk(s.db, after);
    SameTablesOk(s.db, after);
  }

  lemma SameTablesOk(a: Database, b: Database)
    requires TablesOk(a) && b == a.(quotes := b.quotes)
    ensures TablesOk(b)
  {
  }

  // Steps that change no table.
  lemma QuietStepKeeps(p: Protocol, s: System, step: Step)
    requires Inv(p, s) && Enabled(p, s, step)
    requires step.Build? || step.Abandon? || step.EndCycle? || step.NextCycle? || step.Crash?
    ensures Inv(p, Apply(p, s, step))
  {
    hide TablesOk, EventsOk, CandlesOk, Histories;
  }

  lemma StepKeeps(p: Protocol, s: System, step: Step)
    requires Inv(p, s) && Enabled(p, s, step)
    ensures Inv(p, Apply(p, s, step))
  {
    hide Inv, Apply;
    match step {
      case Repair => RepairKeeps(p, s);
      case Recover(pair, candle, at) => RecoverKeeps(p, s, pair, candle, at);
      case Quote(pair, receivedAt) => QuoteKeeps(p, s, pair, receivedAt);
      case Commit(pair, candle, exchangeTimestamp, receivedAt) =>
        CommitKeeps(p, s, pair, candle, exchangeTimestamp, receivedAt);
      case Decide(exchange, decision, trade) => DecideKeeps(p, s, exchange, decision, trade);
      case CloseOut(key, at, pnl) => CloseOutKeeps(p, s, key, at, pnl);
      case _ => QuietStepKeeps(p, s, step);
    }
  }

  // The invariant holds throughout every run, wherever it crashes and restarts.
  lemma {:induction false} RunsKeep(p: Protocol, s: System, steps: seq<Step>)
    requires Inv(p, s) && Possible(p, s, steps)
    ensures Inv(p, Reached(p, s, steps))
    decreases |steps|
  {
    if steps != [] {
      StepKeeps(p, s, steps[0]);
      hide Inv, Apply, Enabled;
      RunsKeep(p, Apply(p, s, steps[0]), steps[1..]);
    }
  }

  // ---------------------------------------------------------------- what a ledger never loses

  // Rows are never rewritten, and a trade only ever goes from open to closed.
  ghost predicate Extends(before: Database, after: Database) {
    && (forall key :: key in before.candles ==> key in after.candles && after.candles[key] == before.candles[key])
    && (forall key :: key in before.decisions ==>
          key in after.decisions && after.decisions[key] == before.decisions[key])
    && (forall key :: key in before.trades ==>
          key in after.trades && TradeAdvances(before.trades[key], after.trades[key]))
    && before.events <= after.events
  }

  predicate TradeAdvances(before: TradeRow, after: TradeRow) {
    after == before || (before.status == Open && after.status == Closed && after.side == before.side
                        && after.openedAt == before.openedAt)
  }

  lemma SameExtends(db: Database)
    ensures Extends(db, db)
  {
  }

  lemma DecisionExtends(db: Database, key: Key, decision: DecisionRow, trade: Option<TradeRow>)
    requires db.trades.Keys <= db.decisions.Keys
    ensures Extends(db, OkOr(WithDecision(db, key, decision, trade), db))
  {
  }

  lemma CandleExtends(db: Database, key: Key, row: CandleRow)
    ensures Extends(db, WithCandle(db, key, row)) && Extends(db, OkOr(WithRecovered(db, key, row), db))
  {
  }

  lemma RepairExtends(db: Database)
    ensures Extends(db, Repaired(db))
  {
  }

  lemma ClosingExtends(db: Database, key: Key, at: int, pnl: real)
    ensures Extends(db, OkOr(WithClosed(db, key, at, pnl), db))
  {
  }

  lemma StepExtends(p: Protocol, s: System, step: Step)
    requires Inv(p, s) && Enabled(p, s, step)
    ensures Extends(s.db, Apply(p, s, step).db)
  {
    hide EventsOk, Histories, CandlesOk, NextOpen, HistoriesOk, OneOpenPerPair, PendingOk, HasOpenTrade;
    assert TablesOk(s.db);
    hide Extends, OkOr, WithCandle, WithRecovered, WithDecision, WithClosed, Repaired, Enabled;
    match step {
      case Repair => RepairExtends(s.db);
      case Recover(pair, candle, at) => CandleExtends(s.db, Key(pair, candle.timestamp), RecoveredRow(candle, at));
      case Commit(pair, candle, exchangeTimestamp, receivedAt) =>
        CandleExtends(s.db, Key(pair, candle.timestamp), LiveRow(candle, exchangeTimestamp, receivedAt));
      case Decide(exchange, decision, trade) => DecisionExtends(s.db, s.pending[exchange], decision, trade);
      case CloseOut(key, at, pnl) => ClosingExtends(s.db, key, at, pnl);
      case Quote(pair, receivedAt) => QuoteExtends(s.db, pair, receivedAt);
      case _ => SameExtends(s.db);
    }
  }

  lemma QuoteExtends(db: Database, pair: Pair, receivedAt: int)
    ensures Extends(db, WithQuote(db, pair, receivedAt))
  {
  }

  lemma ExtendsTransitive(a: Database, b: Database, c: Database)
    requires Extends(a, b) && Extends(b, c)
    ensures Extends(a, c)
  {
  }

  lemma {:induction false} RunsExtend(p: Protocol, s: System, steps: seq<Step>)
    requires Inv(p, s) && Possible(p, s, steps)
    ensures Extends(s.db, Reached(p, s, steps).db)
    decreases |steps|
  {
    if steps != [] {
      StepKeeps(p, s, steps[0]);
      StepExtends(p, s, steps[0]);
      hide Inv, Apply, Enabled, Extends;
      RunsExtend(p, Apply(p, s, steps[0]), steps[1..]);
      ExtendsTransitive(s.db, Apply(p, s, steps[0]).db, Reached(p, s, steps).db);
    } else {
      SameExtends(s.db);
    }
  }

  // ---------------------------------------------------------------- no retroactive trades

  // A candle that is on record without a trade and is not being decided right now.
  ghost predicate Passed(s: System, key: Key) {
    key in s.db.candles && key !in s.db.trades && key !in s.pending.Values
  }

  lemma StepKeepsPassed(p: Protocol, s: System, step: Step, key: Key)
    requires Inv(p, s) && Enabled(p, s, step) && Passed(s, key)
    ensures Passed(Apply(p, s, step), key)
  {
    hide EventsOk, Histories;
    if step.Recover? || step.Commit? {
      NextOpenIsNew(p, s.db, step.pair);
    }
  }

  // Recovered, orphaned and already decided candles never gain a trade later.
  lemma {:induction false} PassedCandlesNeverTrade(p: Protocol, s: System, steps: seq<Step>, key: Key)
    requires Inv(p, s) && Possible(p, s, steps) && Passed(s, key)
    ensures Passed(Reached(p, s, steps), key)
    decreases |steps|
  {
    if steps != [] {
      StepKeeps(p, s, steps[0]);
      StepKeepsPassed(p, s, steps[0], key);
      hide Inv, Apply, Enabled, Passed;
      PassedCandlesNeverTrade(p, Apply(p, s, steps[0]), steps[1..], key);
    }
  }

  // ---------------------------------------------------------------- the ledger theorem

  // Over every run from the empty ledger, crashes included: trades belong to allowed live
  // signals, at most one is open per pair, the first trade is announced exactly once, each
  // closed trade exactly once, and recovered candles never have a trade.
  lemma LedgerOverEveryRun(p: Protocol, steps: seq<Step>)
    requires Possible(p, START, steps)
    ensures var db := Reached(p, START, steps).db;
      && db.decisions.Keys <= db.candles.Keys
      && (forall key :: key in db.trades ==>
            key in db.decisions && Tradable(db.decisions[key], db.trades[key]) && !db.candles[key].recovered)
      && OneOpenPerPair(db)
      && CountFirst(db.events) == (if db.trades == map[] then 0 else 1)
      && (forall key :: key in db.trades ==>
            CountClosed(db.events, key) == if db.trades[key].status == Closed then 1 else 0)
  {
    StartOk(p);
    RunsKeep(p, START, steps);
  }

  // After a repair every candle has its decision, and old decisions stand.
  lemma RepairDecidesEverything(p: Protocol, steps: seq<Step>)
    requires Possible(p, START, steps) && Reached(p, START, steps).phase == Down
    ensures var s := Reached(p, START, steps);
      var r := Apply(p, s, Repair);
      && r.db.decisions.Keys == r.db.candles.Keys
      && (forall key :: key in s.db.decisions ==> r.db.decisions[key] == s.db.decisions[key])
      && (forall key :: key in Orphans(s.db) ==> r.db.decisions[key].choice == Wait && key !in r.db.trades)
  {
    StartOk(p);
    RunsKeep(p, START, steps);
    hide EventsOk, CandlesOk, HistoriesOk;
  }

  // ---------------------------------------------------------------- no gaps

  // `n` hours after the lock hour.
  function HourAt(p: Protocol, n: int): int {
    FloorHour(p.lockedAt) + n * HOUR
  }

  lemma {:induction false} EarlierCandlesExist(p: Protocol, db: Database, pair: Pair, n: nat, m: nat)
    requires CandlesOk(p, db) && m <= n && Key(pair, HourAt(p, n)) in db.candles
    ensures Key(pair, HourAt(p, m)) in db.candles
  {
    if m < n {
      assert RowOk(p, db, Key(pair, HourAt(p, n)));
      assert HourAt(p, n) - HOUR == HourAt(p, n - 1) && HourAt(p, n) > FloorHour(p.lockedAt);
      EarlierCandlesExist(p, db, pair, n - 1, m);
    }
  }

  lemma GridIsHours(p: Protocol, open: int) returns (n: nat)
    requires OnGrid(FloorHour(p.lockedAt), open)
    ensures open == HourAt(p, n)
  {
    n := (open - FloorHour(p.lockedAt)) / HOUR;
  }

  // The persisted opens of a pair are exactly the hours from the lock hour to the last one, and
  // every persisted candle had closed when it was observed.
  lemma NoGaps(p: Protocol, db: Database, pair: Pair, open: int)
    requires CandlesOk(p, db) && OpensOf(db, pair) != {}
    ensures Key(pair, open) in db.candles <==>
      OnGrid(FloorHour(p.lockedAt), open) && open <= Largest(OpensOf(db, pair))
    ensures Key(pair, open) in db.candles ==>
      db.candles[Key(pair, open)].closeTime == open + HOUR <= db.candles[Key(pair, open)].exchangeTimestamp
  {
    var last := Largest(OpensOf(db, pair));
    assert RowOk(p, db, Key(pair, last));
    if Key(pair, open) in db.candles {
      assert RowOk(p, db, Key(pair, open));
      assert open in OpensOf(db, pair);
    } else if OnGrid(FloorHour(p.lockedAt), open) && open <= last {
      hide OnGrid, FloorHour;
      var n := GridIsHours(p, last);
      var m := GridIsHours(p, open);
      EarlierCandlesExist(p, db, pair, n, m);
    }
  }

  // Whenever the engine is about to run or is running a cycle, its memory agrees with the
  // database: warm-up followed by the persisted candles, oldest first.
  lemma MemoryAgreesWithDatabase(p: Protocol, steps: seq<Step>, pair: Pair)
    requires Possible(p, START, steps) && pair in p.warmups && Reached(p, START, steps).phase == Cycling
    ensures var s := Reached(p, START, steps);
      pair in s.histories && s.histories[pair] == p.warmups[pair] + Persisted(s.db, pair)
    ensures CandlesOk(p, Reached(p, START, steps).db)
  {
    StartOk(p);
    RunsKeep(p, START, steps);
    hide TablesOk, EventsOk, CandlesOk, Persisted;
  }
}
