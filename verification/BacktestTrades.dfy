// The life of one trade: when an action opens it and how large, how its protection moves from
// candle to candle, and when and why it ends.
module BacktestTrades {
  import opened Common
  import opened RiskApproval
  import opened HistoryView
  import opened Backtest
  import opened BacktestRuns

  // ---------------------------------------------------------------- opening

  // What a size must respect at the actual fill.
  predicate FitsAtFill(cfg: Config, d: RiskDecision, balance: real, fill: real, unitRisk: real, q: real)
    requires d.Approved?
  {
    && q <= d.quantity
    && unitRisk * q <= d.riskAmount
    && fill * q <= cfg.profile.maxNotional
    && fill * q <= BuyingPower(balance, cfg.leverage)
  }

  lemma CapsAtFill(cfg: Config, d: RiskDecision, balance: real, fill: real, unitRisk: real, q: real)
    requires d.Approved? && fill > 0.0 && unitRisk > 0.0
    ensures FitsAtFill(cfg, d, balance, fill, unitRisk, q)
       <==> q <= Min(Min(d.quantity, d.riskAmount / unitRisk),
                     Min(cfg.profile.maxNotional / fill, BuyingPower(balance, cfg.leverage) / fill))
  {
    hide BuyingPower;
    QuotientCap(d.riskAmount, unitRisk, q);
    QuotientCap(cfg.profile.maxNotional, fill, q);
    QuotientCap(BuyingPower(balance, cfg.leverage), fill, q);
  }

  lemma NegativeQuotient(a: real, b: real)
    requires a > 0.0 && b < 0.0
    ensures a / b < 0.0
  {
    assert (a / b) * b == a;
  }

  // An action opens a trade exactly when it is approved, fills at a positive price away from its
  // stop, and one millionth still fits there; the size opened is the largest that fits.
  lemma OpensExactly(e: Engine, cfg: Config, s: Standing, a: Action, c: Candle, at: Instant)
    requires e.Valid() && cfg.leverage > 0.0 && s.balance > 0.0
    ensures var d := Approve(IntentFor(cfg, s, a, c, at), cfg.profile);
      var fill := FillFor(e, a, c.close);
      var unitRisk := Abs(fill - a.stop);
      var r := EntryFor(e, cfg, s, a, c, at);
      && (r.Ok? && r.value.Some? <==>
            d.Approved? && fill > 0.0 && unitRisk > 0.0 && FitsAtFill(cfg, d, s.balance, fill, unitRisk, 0.000001))
      && (r.Ok? && r.value.Some? ==>
            var q := r.value.value.quantity;
            FitsAtFill(cfg, d, s.balance, fill, unitRisk, q)
                && !FitsAtFill(cfg, d, s.balance, fill, unitRisk, q + 0.000001))
      && (r.Err? <==> d.Approved? && (fill == 0.0 || unitRisk == 0.0))
  {
    hide Approve, FillFor, QuantizeDown, FitsAtFill, IntentFor, BuyingPower;
    var d := Approve(IntentFor(cfg, s, a, c, at), cfg.profile);
    var fill := FillFor(e, a, c.close);
    var unitRisk := Abs(fill - a.stop);
    if d.Approved? && fill != 0.0 && unitRisk > 0.0 {
      LargestAtFill(cfg, d, s.balance, fill, unitRisk);
    }
  }

  lemma LargestAtFill(cfg: Config, d: RiskDecision, balance: real, fill: real, unitRisk: real)
    requires d.Approved? && fill != 0.0 && unitRisk > 0.0 && balance > 0.0 && cfg.leverage > 0.0
    ensures var q := SizeAtFill(d, cfg.profile.maxNotional, BuyingPower(balance, cfg.leverage), fill, unitRisk);
      && (q > 0.0 <==> fill > 0.0 && FitsAtFill(cfg, d, balance, fill, unitRisk, 0.000001))
      && (q > 0.0 ==>
            && FitsAtFill(cfg, d, balance, fill, unitRisk, q)
            && !FitsAtFill(cfg, d, balance, fill, unitRisk, q + 0.000001))
  {
    hide FitsAtFill, QuantizeDown;
    PositiveProduct(balance, cfg.leverage);
    var buying := BuyingPower(balance, cfg.leverage);
    hide BuyingPower;
    var smallest := Min(Min(d.quantity, d.riskAmount / unitRisk), Min(cfg.profile.maxNotional / fill, buying / fill));
    SmallestSize(smallest);
    if fill < 0.0 {
      NegativeQuotient(buying, fill);
    } else {
      var q := SizeAtFill(d, cfg.profile.maxNotional, buying, fill, unitRisk);
      TruncationBounds(smallest);
      CapsAtFill(cfg, d, balance, fill, unitRisk, 0.000001);
      CapsAtFill(cfg, d, balance, fill, unitRisk, q);
      CapsAtFill(cfg, d, balance, fill, unitRisk, q + 0.000001);
    }
  }

  lemma TruncationBounds(x: real)
    ensures QuantizeDown(x, QUANTITY_SCALE) > 0.0 ==>
      QuantizeDown(x, QUANTITY_SCALE) <= x < QuantizeDown(x, QUANTITY_SCALE) + 0.000001
  {
  }

  // ---------------------------------------------------------------- protection

  // The protection of a trade held through `candles` since it was opened.
  function Protected(entry: Entry, candles: seq<Candle>): Position {
    if candles == [] then Opened(entry)
        else Advanced(Protected(entry, candles[..|candles| - 1]), candles[|candles| - 1])
  }

  function HighSince(entry: Entry, candles: seq<Candle>): real {
    if candles == [] then entry.fill else Max(HighSince(entry, candles[..|candles| - 1]), candles[|candles| - 1].high)
  }

  function LowSince(entry: Entry, candles: seq<Candle>): real {
    if candles == [] then entry.fill else Min(LowSince(entry, candles[..|candles| - 1]), candles[|candles| - 1].low)
  }

  // The best price the trade has seen, for its side.
  function BestSince(entry: Entry, candles: seq<Candle>): real {
    if entry.side.Long? then HighSince(entry, candles) else LowSince(entry, candles)
  }

  // The stop in closed form: the tightest of the initial stop, the fill once the best price has
  // gained one unit of risk, and the trailing distance behind the best price.
  function StopAt(entry: Entry, best: real): real {
    var even := if entry.breakEven && Beyond(entry.side, best, entry.fill) >= entry.unitRisk
                then Tighter(entry.side, entry.stop, entry.fill) else entry.stop;
    if entry.trailing.Some?
    then Tighter(entry.side, even,
                 if entry.side.Long? then best - entry.trailing.value else best + entry.trailing.value)
    else even
  }

  lemma {:induction false} Watermarks(entry: Entry, candles: seq<Candle>)
    ensures var p := Protected(entry, candles);
      p.entry == entry && p.high == HighSince(entry, candles) && p.low == LowSince(entry, candles)
  {
    if candles != [] {
      Watermarks(entry, candles[..|candles| - 1]);
    }
  }

  // Moving a stop that already has the closed form, or is the initial one, to a better best price.
  lemma StopMovesOn(p: Position, c: Candle, best: real, better: real)
    requires p.stop == p.entry.stop || p.stop == StopAt(p.entry, best)
    requires Beyond(p.entry.side, better, best) >= 0.0
    requires better == if p.entry.side.Long? then Max(p.high, c.high) else Min(p.low, c.low)
    ensures Advanced(p, c).stop == StopAt(p.entry, better)
  {
  }

  // However the candles came, moving the stop candle by candle leads to the closed form.
  lemma {:induction false} ProtectionInClosedForm(entry: Entry, candles: seq<Candle>)
    requires candles != []
    ensures Protected(entry, candles).stop == StopAt(entry, BestSince(entry, candles))
  {
    hide StopAt, Advanced;
    var before, c := candles[..|candles| - 1], candles[|candles| - 1];
    if before != [] {
      ProtectionInClosedForm(entry, before);
    }
    Watermarks(entry, before);
    StopMovesOn(Protected(entry, before), c, BestSince(entry, before), BestSince(entry, candles));
  }

  // The trade was opened at the close of candle `m` and has been held through the later ones.
  ghost predicate HeldSince(cfg: Config, p: Position, candles: seq<Candle>, m: int, n: nat) {
    0 <= m < n <= |candles| && p.entry.openedAt == EventTime(candles[m], cfg.bar)
        && p == Protected(p.entry, candles[m + 1..n])
  }

  // In every run, an open trade is protected by exactly the candles since it was opened.
  lemma {:induction false} OpenTradeIsHeldSince(e: Engine, cfg: Config, strategy: Strategy, candles: seq<Candle>,
                                                n: nat)
    requires e.Valid() && n <= |candles| && After(e, cfg, strategy, candles, n).Ok?
    requires After(e, cfg, strategy, candles, n).value.open.Some?
    ensures exists m :: HeldSince(cfg, After(e, cfg, strategy, candles, n).value.open.value, candles, m, n)
  {
    var s := After(e, cfg, strategy, candles, n - 1).value;
    var c := candles[n - 1];
    var at := EventTime(c, cfg.bar);
    var p := After(e, cfg, strategy, candles, n).value.open.value;
    OpenAfterStep(e, cfg, s, c, at, strategy(View(candles, n)));
    hide Step, HeldSince;
    if s.open.Some? && p == Advanced(s.open.value, c) {
      OpenTradeIsHeldSince(e, cfg, strategy, candles, n - 1);
      var m :| HeldSince(cfg, s.open.value, candles, m, n - 1);
      HeldOneMore(cfg, s.open.value, candles, m, n);
    } else {
      HeldFromHere(cfg, p, candles, n);
    }
  }

  lemma OpenAfterStep(e: Engine, cfg: Config, s: RunState, c: Candle, at: Instant, action: Option<Action>)
    requires e.Valid() && Step(e, cfg, s, c, at, action).Ok?
    ensures var r := Step(e, cfg, s, c, at, action).value;
      r.open.Some? ==>
        || (s.open.Some? && r.open.value == Advanced(s.open.value, c))
        || (r.open.value == Opened(r.open.value.entry) && r.open.value.entry.openedAt == at)
  {
    hide Close, Unrealized, Approve, FillFor, SizeAtFill, ResolveCandleExit, Advanced, IntentFor;
  }

  lemma HeldOneMore(cfg: Config, before: Position, candles: seq<Candle>, m: int, n: nat)
    requires 0 < n <= |candles| && HeldSince(cfg, before, candles, m, n - 1)
    ensures HeldSince(cfg, Advanced(before, candles[n - 1]), candles, m, n)
  {
    hide Advanced;
    AdvanceKeepsEntry(before, candles[n - 1]);
    assert candles[m + 1..n][..n - m - 2] == candles[m + 1..n - 1];
  }

  lemma AdvanceKeepsEntry(p: Position, c: Candle)
    ensures Advanced(p, c).entry == p.entry
  {
  }

  lemma HeldFromHere(cfg: Config, p: Position, candles: seq<Candle>, n: nat)
    requires 0 < n <= |candles| && p == Opened(p.entry) && p.entry.openedAt == EventTime(candles[n - 1], cfg.bar)
    ensures HeldSince(cfg, p, candles, n - 1, n)
  {
    assert candles[n..n] == [];
  }

  // ---------------------------------------------------------------- closing

  // The candle trades at or beyond a level on the losing side, or on the winning side.
  ghost predicate ReachesStop(p: Position, c: Candle) {
    exists price :: c.low <= price <= c.high && Beyond(p.entry.side, price, p.stop) <= 0.0
  }

  ghost predicate ReachesTarget(p: Position, c: Candle) {
    exists price :: c.low <= price <= c.high && Beyond(p.entry.side, price, p.entry.target) >= 0.0
  }

  lemma ReachesMeansTouches(p: Position, c: Candle)
    requires SoundCandle(c)
    ensures ReachesStop(p, c) <==> if p.entry.side.Long? then c.low <= p.stop else c.high >= p.stop
    ensures ReachesTarget(p, c) <==> if p.entry.side.Long? then c.high >= p.entry.target else c.low <= p.entry.target
  {
    var worst, best := if p.entry.side.Long? then c.low else c.high, if p.entry.side.Long? then c.high else c.low;
    assert c.low <= worst <= c.high && c.low <= best <= c.high;
    if (if p.entry.side.Long? then c.low <= p.stop else c.high >= p.stop) {
      assert Beyond(p.entry.side, worst, p.stop) <= 0.0;
    }
    if (if p.entry.side.Long? then c.high >= p.entry.target else c.low <= p.entry.target) {
      assert Beyond(p.entry.side, best, p.entry.target) >= 0.0;
    }
  }

  // A trade held into a candle is closed during it exactly when the candle reaches its stop or
  // its target, at the stop whenever that is reached; otherwise it is still held afterwards,
  // its protection moved on by that candle.
  lemma HeldUntilReached(e: Engine, cfg: Config, s: RunState, c: Candle, at: Instant, action: Option<Action>)
    requires e.Valid() && SoundCandle(c) && s.open.Some? && Step(e, cfg, s, c, at, action).Ok?
    ensures var p := s.open.value;
      var r := Step(e, cfg, s, c, at, action).value;
      && (ReachesStop(p, c) ==> r.closed == s.closed + [Closed(p, p.stop, Close(e, p.entry, p.stop, at, StopLoss))])
      && (!ReachesStop(p, c) && ReachesTarget(p, c) ==>
            r.closed == s.closed + [Closed(p, p.entry.target, Close(e, p.entry, p.entry.target, at, TakeProfit))])
      && (!ReachesStop(p, c) && !ReachesTarget(p, c) ==> r.closed == s.closed && r.open == Some(Advanced(p, c)))
  {
    hide Close, EntryFor, Unrealized, Advanced, SoundCandle, ReachesStop, ReachesTarget;
    ReachesMeansTouches(s.open.value, c);
  }

  // Marking a trade at a price values it at what closing there would pay, before the costs of
  // leaving.
  lemma MarkIsCloseBeforeExitCosts(e: Engine, p: Position, price: real, at: Instant, reason: ExitReason)
    requires e.Valid()
    ensures var t := Close(e, p.entry, price, at, reason);
      Unrealized(e, Some(p), price, at)
        == t.pnl + price * p.entry.quantity * e.Adverse() + t.exit * p.entry.quantity * e.feeRate
  {
    hide FundingCost;
    var q, v := p.entry.quantity, e.Adverse();
    assert (price * (1.0 - v) - p.entry.fill) * q == (price - p.entry.fill) * q - price * q * v;
    assert (price * (1.0 + v) - p.entry.fill) * q == (price - p.entry.fill) * q + price * q * v;
  }
}
