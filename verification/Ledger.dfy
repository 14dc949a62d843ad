// The durable ledger of the prospective collector: candles, decisions, trades and events. Each
// repository method is one atomic transaction over tables with unique keys.
module Ledger {
  import opened Common

  // Microseconds.
  const HOUR: int := 3600000000

  datatype Pair = Pair(exchange: string, symbol: string)

  // Identifies a candle; the decision id and the trade id are injective hashes of it.
  datatype Key = Key(pair: Pair, open: int)

  datatype Candle = Candle(timestamp: int, open: real, high: real, low: real, close: real, volume: real)

  datatype CandleRow = CandleRow(candle: Candle, closeTime: int, exchangeTimestamp: int, receivedAt: int,
                                 recovered: bool)

  datatype Choice = Wait | Long | Short

  datatype RiskStatus = NotApplicable | Reject | Allow

  // Which path wrote a decision; the source keeps this in the reason and context columns.
  datatype Origin = Live | AfterDowntime | AfterInterruption

  datatype DecisionRow = DecisionRow(choice: Choice, risk: RiskStatus, origin: Origin, quoted: bool)

  datatype TradeStatus = Open | Closed

  datatype TradeRow = TradeRow(side: Choice, status: TradeStatus, openedAt: int, closedAt: Option<int>, pnl: real)

  datatype Event = FirstTrade(key: Key) | PositionClosed(key: Key)

  datatype Database = Database(
    candles: map<Key, CandleRow>,
    decisions: map<Key, DecisionRow>,
    trades: map<Key, TradeRow>,
    events: seq<Event>,
    quotes: set<(Pair, int)>)

  datatype DbError = IntegrityError | NotOpen

  const EMPTY: Database := Database(map[], map[], map[], [], {})

  // ---------------------------------------------------------------- transactions as functions

  function WithQuote(db: Database, pair: Pair, receivedAt: int): Database {
    db.(quotes := db.quotes + {(pair, receivedAt)})
  }

  function LiveRow(c: Candle, exchangeTimestamp: int, receivedAt: int): CandleRow {
    CandleRow(c, c.timestamp + HOUR, exchangeTimestamp, receivedAt, false)
  }

  function WithCandle(db: Database, key: Key, row: CandleRow): Database {
    if key in db.candles then db else db.(candles := db.candles[key := row])
  }

  // Recovered OHLCV has no contemporaneous quote: its close time stands in for the timestamp.
  function RecoveredRow(c: Candle, recoveryTime: int): CandleRow {
    CandleRow(c, c.timestamp + HOUR, c.timestamp + HOUR, recoveryTime, true)
  }

  const SUPPRESSED: DecisionRow := DecisionRow(Wait, NotApplicable, AfterDowntime, false)

  // Candle and suppressed decision in one transaction; a taken decision key rolls both back.
  function WithRecovered(db: Database, key: Key, row: CandleRow): Result<Database, DbError> {
    if key in db.candles then Ok(db)
    else if key in db.decisions then Err(IntegrityError)
    else Ok(db.(candles := db.candles[key := row], decisions := db.decisions[key := SUPPRESSED]))
  }

  function WithDecision(db: Database, key: Key, decision: DecisionRow, trade: Option<TradeRow>)
    : Result<Database, DbError>
  {
    if key in db.decisions || (trade.Some? && key in db.trades) then Err(IntegrityError)
    else
      var decided := db.(decisions := db.decisions[key := decision]);
      match trade
      case None => Ok(decided)
      case Some(row) =>
        Ok(decided.(trades := db.trades[key := row],
                    events := if db.trades == map[] then db.events + [FirstTrade(key)] else db.events))
  }

  function Orphans(db: Database): set<Key> {
    db.candles.Keys - db.decisions.Keys
  }

  // The WAIT written for a candle whose process died before deciding.
  function Interrupted(db: Database, key: Key): DecisionRow
    requires key in db.candles
  {
    DecisionRow(Wait, NotApplicable, AfterInterruption, (key.pair, db.candles[key].receivedAt) in db.quotes)
  }

  function InterruptedRows(db: Database, keys: set<Key>): (rows: map<Key, DecisionRow>)
    requires keys <= db.candles.Keys
    ensures rows.Keys == keys && forall key :: key in keys ==> rows[key] == Interrupted(db, key)
  {
    map key | key in keys :: Interrupted(db, key)
  }

  lemma RepairAdvances(db: Database, orphans: set<Key>, left: set<Key>, key: Key)
    requires orphans <= db.candles.Keys && left <= orphans && key in left
    ensures |left - {key}| == |left| - 1
    ensures InterruptedRows(db, orphans - (left - {key}))
        == InterruptedRows(db, orphans - left)[key := Interrupted(db, key)]
  {
  }

  function Repaired(db: Database): Database {
    db.(decisions := db.decisions + InterruptedRows(db, Orphans(db)))
  }

  function WithClosed(db: Database, key: Key, at: int, pnl: real): Result<Database, DbError> {
    if key !in db.trades || db.trades[key].status != Open then Err(NotOpen)
    else Ok(db.(trades := db.trades[key := db.trades[key].(status := Closed, closedAt := Some(at), pnl := pnl)],
                events := db.events + [PositionClosed(key)]))
  }

  predicate HasOpenTrade(db: Database, pair: Pair) {
    exists key :: key in db.trades && key.pair == pair && db.trades[key].status == Open
  }

  // ---------------------------------------------------------------- queries

  function OpensOf(db: Database, pair: Pair): set<int> {
    set key | key in db.candles && key.pair == pair :: key.open
  }

  lemma EmptyOrMember(s: set<int>)
    ensures s == {} || exists x :: x in s
  {
    if forall x :: x !in s {
      assert s == {};
    }
  }

  ghost predicate IsLargest(s: set<int>, m: int) {
    m in s && forall x :: x in s ==> x <= m
  }

  lemma {:induction false} LargestExists(s: set<int>)
    requires s != {}
    ensures exists m :: IsLargest(s, m)
  {
    EmptyOrMember(s);
    var first :| first in s;
    var rest := s - {first};
    if rest == {} {
      assert forall x :: x in s ==> x == first || x in rest;
      assert IsLargest(s, first);
    } else {
      LargestExists(rest);
      var other :| IsLargest(rest, other);
      assert forall x :: x in s ==> x == first || x in rest;
      assert IsLargest(s, MaxInt(first, other));
    }
  }

  ghost function Largest(s: set<int>): (m: int)
    requires s != {}
    ensures IsLargest(s, m)
  {
    LargestExists(s);
    var m :| IsLargest(s, m);
    m
  }

  // ORDER BY: the members in ascending order.
  ghost function Ascending(s: set<int>): (r: seq<int>)
    ensures forall x :: x in r <==> x in s
    ensures forall i, j :: 0 <= i < j < |r| ==> r[i] < r[j]
    decreases s
  {
    if s == {} then []
    else
      var m := Largest(s);
      Ascending(s - {m}) + [m]
  }

  lemma AscendingAppends(s: set<int>, x: int)
    requires forall y :: y in s ==> y < x
    ensures Ascending(s + {x}) == Ascending(s) + [x]
  {
  }

  // A strictly ascending list of the members is the query result.
  lemma {:induction false} AscendingIsUnique(s: set<int>, r: seq<int>)
    requires forall x :: x in r <==> x in s
    requires forall i, j :: 0 <= i < j < |r| ==> r[i] < r[j]
    ensures r == Ascending(s)
    decreases |r|
  {
    if r == [] {
      assert forall x :: x !in s;
      EmptyOrMember(s);
    } else {
      var init, last := r[..|r| - 1], r[|r| - 1];
      assert r == init + [last];
      assert last in s;
      assert Largest(s) == last;
      AscendingIsUnique(s - {last}, init);
    }
  }

  ghost function CandlesAt(db: Database, pair: Pair, opens: seq<int>): (r: seq<Candle>)
    requires forall x :: x in opens ==> Key(pair, x) in db.candles
    ensures |r| == |opens| && forall i :: 0 <= i < |r| ==> r[i] == db.candles[Key(pair, opens[i])].candle
  {
    seq(|opens|, i requires 0 <= i < |opens| => db.candles[Key(pair, opens[i])].candle)
  }

  // The persisted candles of a pair, oldest first.
  ghost function Persisted(db: Database, pair: Pair): seq<Candle> {
    CandlesAt(db, pair, Ascending(OpensOf(db, pair)))
  }

  ghost predicate IsLastOpen(db: Database, pair: Pair, last: Option<int>) {
    match last
    case None => OpensOf(db, pair) == {}
    case Some(open) => open in OpensOf(db, pair) && forall x :: x in OpensOf(db, pair) ==> x <= open
  }

  // ---------------------------------------------------------------- the repository

  class ShadowRepository {
    var candles: map<Key, CandleRow>
    var decisions: map<Key, DecisionRow>
    var trades: map<Key, TradeRow>
    var events: seq<Event>
    var quotes: set<(Pair, int)>

    function View(): Database
      reads this
    {
      Database(candles, decisions, trades, events, quotes)
    }

    constructor ()
      ensures View() == EMPTY
    {
      candles, decisions, trades, events, quotes := map[], map[], map[], [], {};
    }

    method SaveQuote(pair: Pair, receivedAt: int)
      modifies this
      ensures View() == WithQuote(old(View()), pair, receivedAt)
    {
      quotes := quotes + {(pair, receivedAt)};
    }

    method SaveCandle(pair: Pair, c: Candle, exchangeTimestamp: int, receivedAt: int) returns (saved: bool)
      modifies this
      ensures View() == WithCandle(old(View()), Key(pair, c.timestamp), LiveRow(c, exchangeTimestamp, receivedAt))
      ensures saved <==> Key(pair, c.timestamp) !in old(candles)
    {
      var key := Key(pair, c.timestamp);
      if key in candles {
        return false;
      }
      candles := candles[key := LiveRow(c, exchangeTimestamp, receivedAt)];
      saved := true;
    }

    method RecordRecoveredCandle(pair: Pair, c: Candle, recoveryTime: int) returns (saved: Result<bool, DbError>)
      modifies this
      ensures match WithRecovered(old(View()), Key(pair, c.timestamp), RecoveredRow(c, recoveryTime))
        case Ok(db) => View() == db && saved == Ok(Key(pair, c.timestamp) !in old(candles))
        case Err(error) => View() == old(View()) && saved == Err(error)
    {
      var key := Key(pair, c.timestamp);
      if key in candles {
        return Ok(false);
      }
      if key in decisions {
        return Err(IntegrityError);
      }
      candles := candles[key := RecoveredRow(c, recoveryTime)];
      decisions := decisions[key := SUPPRESSED];
      saved := Ok(true);
    }

    method RecordDecision(key: Key, decision: DecisionRow, trade: Option<TradeRow>)
      returns (outcome: Result<(), DbError>)
      modifies this
      ensures match WithDecision(old(View()), key, decision, trade)
        case Ok(db) => View() == db && outcome == Ok(())
        case Err(error) => View() == old(View()) && outcome == Err(error)
    {
      if key in decisions || (trade.Some? && key in trades) {
        return Err(IntegrityError);
      }
      decisions := decisions[key := decision];
      if trade.Some? {
        var firstTrade := trades == map[];
        trades := trades[key := trade.value];
        if firstTrade {
          events := events + [FirstTrade(key)];
        }
      }
      outcome := Ok(());
    }

    // The WAIT rows due to undecided candles, and their number.
    method InterruptedDecisions() returns (added: map<Key, DecisionRow>, repaired: nat)
      ensures added == InterruptedRows(View(), Orphans(View())) && repaired == |Orphans(View())|
    {
      hide InterruptedRows, Interrupted;
      var db := View();
      var orphans := Orphans(db);
      assert orphans <= db.candles.Keys;
      hide Orphans;
      var left := orphans;
      added, repaired := map[], 0;
      while left != {}
        invariant left <= orphans && repaired + |left| == |orphans|
        invariant added == InterruptedRows(db, orphans - left)
        decreases left
      {
        var key :| key in left;
        RepairAdvances(db, orphans, left, key);
        added := added[key := Interrupted(db, key)];
        left := left - {key};
        repaired := repaired + 1;
      }
      assert orphans - left == orphans;
    }

    // Gives every undecided candle its WAIT.
    method RepairOrphanDecisions() returns (repaired: nat)
      modifies this
      ensures View() == Repaired(old(View())) && repaired == |Orphans(old(View()))|
    {
      var added;
      added, repaired := InterruptedDecisions();
      decisions := decisions + added;
    }

    method CloseTrade(key: Key, at: int, pnl: real) returns (outcome: Result<(), DbError>)
      modifies this
      ensures match WithClosed(old(View()), key, at, pnl)
        case Ok(db) => View() == db && outcome == Ok(())
        case Err(error) => View() == old(View()) && outcome == Err(error)
    {
      if key !in trades || trades[key].status != Open {
        return Err(NotOpen);
      }
      trades := trades[key := trades[key].(status := Closed, closedAt := Some(at), pnl := pnl)];
      events := events + [PositionClosed(key)];
      outcome := Ok(());
    }

    method OpenTrade(pair: Pair) returns (key: Option<Key>)
      ensures key.Some? <==> HasOpenTrade(View(), pair)
      ensures key.Some? ==> key.value in trades && key.value.pair == pair && trades[key.value].status == Open
    {
      var left := trades.Keys;
      while left != {}
        invariant left <= trades.Keys
        invariant forall k :: k in trades && k !in left ==> !(k.pair == pair && trades[k].status == Open)
        decreases left
      {
        var k :| k in left;
        if k.pair == pair && trades[k].status == Open {
          return Some(k);
        }
        left := left - {k};
      }
      key := None;
    }

    method LastCandleOpen(pair: Pair) returns (last: Option<int>)
      ensures IsLastOpen(View(), pair, last)
    {
      last := None;
      var left := candles.Keys;
      while left != {}
        invariant left <= candles.Keys
        invariant last.Some? ==> Key(pair, last.value) in candles
        invariant forall k :: k in candles && k !in left && k.pair == pair ==> last.Some? && k.open <= last.value
        decreases left
      {
        var k :| k in left;
        if k.pair == pair && (last.None? || last.value < k.open) {
          last := Some(k.open);
        }
        left := left - {k};
      }
    }

    // The rows of a pair in ascending order of open time.
    method ProspectiveCandles(pair: Pair) returns (rows: seq<Candle>)
      ensures rows == Persisted(View(), pair)
    {
      rows := [];
      var opens: seq<int> := [];
      ghost var db := View();
      var left := set key | key in candles && key.pair == pair :: key.open;
      assert left == OpensOf(db, pair);
      while left != {}
        invariant left <= OpensOf(db, pair)
        invariant forall x :: x in opens <==> x in OpensOf(db, pair) && x !in left
        invariant forall i, j :: 0 <= i < j < |opens| ==> opens[i] < opens[j]
        invariant forall i, y :: 0 <= i < |opens| && y in left ==> opens[i] < y
        invariant rows == CandlesAt(db, pair, opens)
        decreases left
      {
        var open := Smallest(left);
        assert Key(pair, open) in candles;
        rows := rows + [candles[Key(pair, open)].candle];
        opens := opens + [open];
        left := left - {open};
      }
      AscendingIsUnique(OpensOf(db, pair), opens);
    }
  }

  method Smallest(s: set<int>) returns (m: int)
    requires s != {}
    ensures m in s && forall x :: x in s ==> m <= x
  {
    EmptyOrMember(s);
    m :| m in s;
    var left := s - {m};
    while left != {}
      invariant m in s && left <= s
      invariant forall x :: x in s && x !in left ==> m <= x
      decreases left
    {
      EmptyOrMember(left);
      var x :| x in left;
      if x < m {
        m := x;
      }
      left := left - {x};
    }
  }
}
