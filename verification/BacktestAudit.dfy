// The independent arithmetic control, and what it shows about every trade the engine reports.
module BacktestAudit {
  import opened Common
  import opened RiskApproval
  import opened HistoryView
  import opened Backtest
  import opened BacktestRuns

  datatype ReferenceFill = ReferenceFill(
    entry: real,
    exit: real,
    gross: real,
    fees: real,
    slippage: real,
    spread: real,
    funding: real,
    net: real)

  // A price moved up or down by a rate.
  function Moved(price: real, rate: real, up: bool): real {
    price * (if up then 1.0 + rate else 1.0 - rate)
  }

  // One market round trip computed without any engine internals.
  function ReferenceMarketTrade(side: Side, entryReference: real, exitReference: real, quantity: real,
                                feeRate: real, slippage: real, spread: real, funding: real): ReferenceFill {
    var adverse := slippage + spread / 2.0;
    var entry := Moved(entryReference, adverse, side.Long?);
    var exit := Moved(exitReference, adverse, side.Short?);
    var gross := (if side.Long? then exit - entry else entry - exit) * quantity;
    var fees := (entry + exit) * quantity * feeRate;
    ReferenceFill(entry, exit, gross, fees,
                  (entryReference + exitReference) * quantity * slippage,
                  (entryReference + exitReference) * quantity * spread / 2.0,
                  funding, gross - fees - funding)
  }

  function PnlBeforeCosts(t: Trade): real {
    t.pnl + t.fees + t.slippageCost + t.funding + t.spreadCost
  }

  function Direction(side: Side): real {
    if side.Long? then 1.0 else -1.0
  }

  // An entry at market, with its share of slippage and spread.
  predicate AtMarket(e: Engine, p: Entry) {
    && p.fill == EntryFill(e, p.reference, p.side) && p.feeRate == e.feeRate
    && p.slippageCost == p.reference * p.quantity * e.slippage
    && p.spreadCost == p.reference * p.quantity * e.spread / 2.0
  }

  function Reference(e: Engine, p: Entry, requested: real, funding: real): ReferenceFill {
    ReferenceMarketTrade(p.side, p.reference, requested, p.quantity, e.feeRate, e.slippage, e.spread, funding)
  }

  // A market settlement is the reference trade, and before costs it earns exactly the move of
  // the reference prices.
  lemma CloseMatchesReference(e: Engine, p: Entry, requested: real, at: Instant, reason: ExitReason)
    requires e.Valid() && AtMarket(e, p)
    ensures var t := Close(e, p, requested, at, reason);
      var r := Reference(e, p, requested, t.funding);
      && t.entry == r.entry && t.exit == r.exit && t.pnl == r.net && t.fees == r.fees
      && t.slippageCost == r.slippage && t.spreadCost == r.spread
      && PnlBeforeCosts(t) == (requested - p.reference) * p.quantity * Direction(p.side)
  {
    CostsAddBack(e, p, requested, at, reason);
    ReferenceFills(e, p, requested, FundingCost(e, p, at));
    CostsMatch(e, p, requested, at, reason);
    hide FundingCost, EntryFill, ExitFill, ReferenceMarketTrade, PnlBeforeCosts;
    FeesAdd(p.fill, ExitFill(e, requested, p.side), p.quantity, e.feeRate);
    Reversed(p.fill, ExitFill(e, requested, p.side), p.quantity);
  }

  lemma ReferenceFills(e: Engine, p: Entry, requested: real, funding: real)
    requires AtMarket(e, p)
    ensures var r := Reference(e, p, requested, funding);
      && r.entry == p.fill && r.exit == ExitFill(e, requested, p.side) && r.funding == funding
      && r.gross == (if p.side.Long? then r.exit - r.entry else r.entry - r.exit) * p.quantity
      && r.fees == (r.entry + r.exit) * p.quantity * e.feeRate
      && r.slippage == (p.reference + requested) * p.quantity * e.slippage
      && r.spread == (p.reference + requested) * p.quantity * e.spread / 2.0
      && r.net == r.gross - r.fees - r.funding
  {
    FillsAreMoved(e, p.reference, requested, p.side);
    hide EntryFill, ExitFill, Moved;
  }

  lemma FillsAreMoved(e: Engine, entry: real, exit: real, side: Side)
    ensures EntryFill(e, entry, side) == Moved(entry, e.slippage + e.spread / 2.0, side.Long?)
    ensures ExitFill(e, exit, side) == Moved(exit, e.slippage + e.spread / 2.0, side.Short?)
  {
  }

  lemma CloseCosts(e: Engine, p: Entry, requested: real, at: Instant, reason: ExitReason)
    requires e.Valid()
    ensures var t := Close(e, p, requested, at, reason);
      && t.slippageCost == p.slippageCost + requested * p.quantity * e.slippage
      && t.spreadCost == p.spreadCost + requested * p.quantity * e.spread / 2.0
      && t.funding == FundingCost(e, p, at)
  {
    hide FundingCost, ExitFill;
  }

  lemma CostsMatch(e: Engine, p: Entry, requested: real, at: Instant, reason: ExitReason)
    requires e.Valid() && AtMarket(e, p)
    ensures var t := Close(e, p, requested, at, reason);
      var r := Reference(e, p, requested, t.funding);
      t.slippageCost == r.slippage && t.spreadCost == r.spread
  {
    ReferenceFills(e, p, requested, FundingCost(e, p, at));
    CloseCosts(e, p, requested, at, reason);
    hide Close, ReferenceMarketTrade, FundingCost, EntryFill, ExitFill;
    FeesAdd(p.reference, requested, p.quantity, e.slippage);
    FeesAdd(p.reference, requested, p.quantity, e.spread);
  }

  lemma FeesAdd(x: real, y: real, q: real, rate: real)
    ensures x * q * rate + y * q * rate == (x + y) * q * rate
  {
  }

  lemma Reversed(x: real, y: real, q: real)
    ensures (y - x) * q * 1.0 == (y - x) * q && (y - x) * q * -1.0 == (x - y) * q
  {
  }

  lemma CostsAddBack(e: Engine, p: Entry, requested: real, at: Instant, reason: ExitReason)
    requires e.Valid() && AtMarket(e, p)
    ensures PnlBeforeCosts(Close(e, p, requested, at, reason))
        == (requested - p.reference) * p.quantity * Direction(p.side)
  {
    hide FundingCost;
    CostsCancel(p.reference, requested, p.quantity, e.slippage, e.spread / 2.0);
    Reversed(p.fill, ExitFill(e, requested, p.side), p.quantity);
    Reversed(p.reference, requested, p.quantity);
  }

  lemma CostsCancel(a: real, b: real, q: real, slippage: real, half: real)
    ensures var v := slippage + half;
      var costs := a * q * slippage + b * q * slippage + a * q * half + b * q * half;
      && (b * (1.0 - v) - a * (1.0 + v)) * q + costs == (b - a) * q
      && (a * (1.0 - v) - b * (1.0 + v)) * q + costs == (a - b) * q
  {
  }

  // ---------------------------------------------------------------- funding

  // The k-th funding instant falls in (start, at].
  predicate SettlesIn(e: Engine, k: int, start: Instant, at: Instant)
    requires e.Valid()
  {
    start < k * e.FundingInterval() * SECOND <= at
  }

  function SettlementTimes(e: Engine, start: Instant, at: Instant): set<int>
    requires e.Valid()
  {
    set k: int | 0 <= k <= at && SettlesIn(e, k, start, at)
  }

  predicate Between(k: int, a: nat, b: nat) {
    a < k <= b
  }

  function Range(a: nat, b: nat): set<int> {
    set k: int | 0 <= k <= b && Between(k, a, b)
  }

  lemma {:induction false} RangeSize(a: nat, b: nat)
    requires a <= b
    ensures |Range(a, b)| == b - a
  {
    if a < b {
      RangeSize(a, b - 1);
      assert Range(a, b) == Range(a, b - 1) + {b};
    }
  }

  // Multiples of `interval` seconds in a span of microseconds, counted through whole seconds.
  lemma MultipleInside(k: int, interval: int, at: Instant)
    requires interval > 0
    ensures k * interval * SECOND <= at <==> k <= at / SECOND / interval
  {
    var seconds := at / SECOND;
    assert k * interval * SECOND <= at <==> k * interval <= seconds;
    DivisionOrder(k, interval, seconds);
  }

  lemma DivisionOrder(k: int, d: int, n: int)
    requires d > 0
    ensures k * d <= n <==> k <= n / d
  {
    var q, r := n / d, n % d;
    assert n == q * d + r && 0 <= r < d;
    if k <= q {
      ProductOrder(k, q, d);
    } else {
      ProductOrder(q + 1, k, d);
      assert (q + 1) * d == q * d + d;
    }
  }

  lemma ProductOrder(a: int, b: int, d: int)
    requires a <= b && d >= 0
    ensures a * d <= b * d
  {
  }

  // Whole funding intervals elapsed by `at`.
  function Period(e: Engine, at: Instant): nat
    requires e.Valid()
  {
    at / SECOND / e.FundingInterval()
  }

  lemma SettlesBetween(e: Engine, k: int, start: Instant, at: Instant)
    requires e.Valid()
    ensures k in SettlementTimes(e, start, at) <==> k in Range(Period(e, start), Period(e, at))
  {
    var d := e.FundingInterval();
    MultipleInside(k, d, start);
    MultipleInside(k, d, at);
    if k > 0 {
      ProductOrder(1, d * SECOND, k);
      assert k * d * SECOND == d * SECOND * k;
    }
  }

  lemma PeriodsGrow(e: Engine, start: Instant, at: Instant)
    requires e.Valid() && start <= at
    ensures Period(e, start) <= Period(e, at)
  {
    DivisionOrder(Period(e, start), e.FundingInterval(), start / SECOND);
    DivisionOrder(Period(e, start), e.FundingInterval(), at / SECOND);
  }

  // The boundaries of (start, at] number the difference of two floor divisions.
  lemma SettlementCount(e: Engine, start: Instant, at: Instant)
    requires e.Valid() && start <= at
    ensures |SettlementTimes(e, start, at)| == Period(e, at) - Period(e, start)
  {
    hide Period, SettlementTimes, Range;
    PeriodsGrow(e, start, at);
    forall k: int
      ensures k in SettlementTimes(e, start, at) <==> k in Range(Period(e, start), Period(e, at))
    {
      SettlesBetween(e, k, start, at);
    }
    assert SettlementTimes(e, start, at) == Range(Period(e, start), Period(e, at));
    RangeSize(Period(e, start), Period(e, at));
  }

  // Funding is charged once per interval multiple in (opened, exit]: a long pays a positive
  // rate, a short receives it.
  lemma FundingCountsSettlements(e: Engine, p: Entry, at: Instant)
    requires e.Valid() && p.openedAt <= at
    ensures FundingCost(e, p, at)
         == p.fill * p.quantity * e.fundingRate * |SettlementTimes(e, p.openedAt, at)| as real * Direction(p.side)
  {
    hide SettlementTimes;
    SettlementCount(e, p.openedAt, at);
  }

  // ---------------------------------------------------------------- worst case

  // What a trade can lose at most: its risk, the execution costs of leaving at the initial
  // stop, the entry fee and the funding.
  function WorstLoss(e: Engine, p: Entry, funding: real): real {
    p.risk + StopExitCost(e, p) + p.fill * p.quantity * p.feeRate + funding
  }

  function StopExitCost(e: Engine, p: Entry): real {
    ExitCost(p.side, p.stop, p.quantity, e.Adverse(), e.feeRate)
  }

  // Execution and fee of leaving at `level`, over leaving there for nothing.
  function ExitCost(side: Side, level: real, q: real, adverse: real, fee: real): real {
    if side.Long? then level * q * (1.0 - (1.0 - adverse) * (1.0 - fee))
    else level * q * ((1.0 + adverse) * (1.0 + fee) - 1.0)
  }

  // The move from fill to exit less the exit fee.
  function NetMove(side: Side, fill: real, requested: real, q: real, adverse: real, fee: real): real {
    if side.Long? then (requested * (1.0 - adverse) - fill) * q - requested * (1.0 - adverse) * q * fee
    else (fill - requested * (1.0 + adverse)) * q - requested * (1.0 + adverse) * q * fee
  }

  lemma ClosePnl(e: Engine, p: Entry, requested: real, at: Instant, reason: ExitReason)
    requires e.Valid()
    ensures var t := Close(e, p, requested, at, reason);
      t.pnl == NetMove(p.side, p.fill, requested, p.quantity, e.Adverse(), e.feeRate) - p.fill * p.quantity * p.feeRate
          - t.funding
  {
    hide FundingCost;
    var exit := ExitFill(e, requested, p.side);
    assert (exit - p.fill) * p.quantity * -1.0 == (p.fill - exit) * p.quantity;
  }

  lemma LossFloor(side: Side, fill: real, stop: real, requested: real, q: real, adverse: real, fee: real)
    requires q > 0.0 && adverse >= 0.0 && fee >= 0.0 && Beyond(side, requested, stop) >= 0.0
    requires side.Long? ==> adverse <= 1.0 && fee <= 1.0
    ensures NetMove(side, fill, requested, q, adverse, fee)
         >= -(Beyond(side, fill, stop) * q + ExitCost(side, stop, q, adverse, fee))
  {
    if side.Long? {
      LongLoss(fill, stop, requested, q, adverse, fee);
    } else {
      ShortLoss(fill, stop, requested, q, adverse, fee);
    }
  }

  lemma LongLoss(fill: real, stop: real, requested: real, q: real, adverse: real, fee: real)
    requires q > 0.0 && requested >= stop && adverse <= 1.0 && fee <= 1.0
    ensures (requested * (1.0 - adverse) - fill) * q - requested * (1.0 - adverse) * q * fee
         >= -((fill - stop) * q + stop * q * (1.0 - (1.0 - adverse) * (1.0 - fee)))
  {
    var kept := (1.0 - adverse) * (1.0 - fee);
    assert kept >= 0.0;
    assert (requested - stop) * q >= 0.0;
    assert (requested - stop) * q * kept >= 0.0;
    assert (requested * (1.0 - adverse) - fill) * q - requested * (1.0 - adverse) * q * fee
        == requested * q * kept - fill * q;
    assert -((fill - stop) * q + stop * q * (1.0 - kept)) == stop * q * kept - fill * q;
    assert (requested - stop) * q * kept == requested * q * kept - stop * q * kept;
  }

  lemma ShortLoss(fill: real, stop: real, requested: real, q: real, adverse: real, fee: real)
    requires q > 0.0 && requested <= stop && adverse >= 0.0 && fee >= 0.0
    ensures (fill - requested * (1.0 + adverse)) * q - requested * (1.0 + adverse) * q * fee
         >= -((stop - fill) * q + stop * q * ((1.0 + adverse) * (1.0 + fee) - 1.0))
  {
    var paid := (1.0 + adverse) * (1.0 + fee);
    assert paid >= 0.0;
    assert (stop - requested) * q >= 0.0;
    assert (stop - requested) * q * paid >= 0.0;
    assert (fill - requested * (1.0 + adverse)) * q - requested * (1.0 + adverse) * q * fee
        == fill * q - requested * q * paid;
    assert -((stop - fill) * q + stop * q * (paid - 1.0)) == fill * q - stop * q * paid;
    assert (stop - requested) * q * paid == stop * q * paid - requested * q * paid;
  }

  // A market entry fills on the far side of its reference from the stop.
  lemma MarketFillBeyondStop(e: Engine, cfg: Config, p: Entry)
    requires e.Valid() && Placed(e, cfg, p) && p.market && SizedWithin(cfg, p)
    ensures p.unitRisk == Beyond(p.side, p.fill, p.stop) > 0.0
  {
    var cost := p.reference * e.Adverse();
    assert cost >= 0.0;
    assert p.side.Long? ==> p.fill == p.reference + cost;
    assert p.side.Short? ==> p.fill == p.reference - cost;
  }

  // A settlement at or beyond the initial stop never loses more than the worst loss.
  lemma SettlementBounded(e: Engine, p: Entry, requested: real, at: Instant, reason: ExitReason)
    requires e.Valid() && (p.side.Long? ==> e.Adverse() <= 1.0 && e.feeRate <= 1.0)
    requires p.quantity > 0.0 && Beyond(p.side, requested, p.stop) >= 0.0
    requires p.risk == Beyond(p.side, p.fill, p.stop) * p.quantity
    ensures var t := Close(e, p, requested, at, reason);
      t.pnl >= -WorstLoss(e, p, t.funding)
  {
    hide Close, NetMove, ExitCost, Beyond;
    ClosePnl(e, p, requested, at, reason);
    LossFloor(p.side, p.fill, p.stop, requested, p.quantity, e.Adverse(), e.feeRate);
  }

  // ---------------------------------------------------------------- every trade of every run

  // Each market trade of a run equals the independent reference trade at the price it was
  // closed at, with funding for exactly the settlements it was held through.
  lemma MarketTradesMatchReference(e: Engine, cfg: Config, strategy: Strategy, candles: seq<Candle>, i: nat)
    requires e.Valid() && cfg.bar == BarOf(candles) && FinalState(e, cfg, strategy, candles).Ok?
    requires var closed := FinalState(e, cfg, strategy, candles).value.closed;
      i < |closed| && closed[i].position.entry.market
    ensures var c := FinalState(e, cfg, strategy, candles).value.closed[i];
      var p, t := c.position.entry, c.trade;
      var r := Reference(e, p, c.requested, t.funding);
      && t.pnl == r.net && t.fees == r.fees && t.entry == r.entry && t.exit == r.exit
      && t.slippageCost == r.slippage && t.spreadCost == r.spread
      && PnlBeforeCosts(t) == (c.requested - p.reference) * p.quantity * Direction(p.side)
      && t.funding == p.fill * p.quantity * e.fundingRate
                      * |SettlementTimes(e, p.openedAt, t.exitTime)| as real * Direction(p.side)
  {
    hide FinalState, Close, FundingCost, SettlementTimes, SizedWithin, Spaced, ReferenceMarketTrade, PnlBeforeCosts;
    RunTradesOk(e, cfg, strategy, candles);
    var closed := FinalState(e, cfg, strategy, candles).value.closed;
    assert TradeOk(e, cfg, closed, i);
    var c := closed[i];
    CloseMatchesReference(e, c.position.entry, c.requested, c.trade.exitTime, c.trade.reason);
    CloseTimes(e, c);
    FundingCountsSettlements(e, c.position.entry, c.trade.exitTime);
  }

  // With execution rates of at most one on longs and a non-negative reward requirement, no market trade
  // of any run loses more than its worst loss; and its risk was at most the configured share of
  // the balance plus half a cent, inside both notional caps.
  lemma MarketLossesAreBounded(e: Engine, cfg: Config, strategy: Strategy, candles: seq<Candle>, i: nat)
    requires e.Valid() && cfg.bar == BarOf(candles) && FinalState(e, cfg, strategy, candles).Ok?
    requires cfg.profile.minRiskReward >= 0.0
    requires var closed := FinalState(e, cfg, strategy, candles).value.closed;
      && i < |closed| && closed[i].position.entry.market
      && (closed[i].position.entry.side.Long? ==> e.Adverse() <= 1.0 && e.feeRate <= 1.0)
    ensures var closed := FinalState(e, cfg, strategy, candles).value.closed;
      var p, t := closed[i].position.entry, closed[i].trade;
      && t.pnl >= -WorstLoss(e, p, t.funding)
      && p.balance == cfg.startingBalance + TotalPnl(Trades(closed)[..i])
      && p.risk <= p.balance * cfg.profile.riskPerTrade + 0.005
      && p.fill * p.quantity <= cfg.profile.maxNotional
      && p.fill * p.quantity <= p.balance * cfg.leverage
  {
    hide FinalState, Close, FundingCost, WorstLoss, Spaced;
    RunTradesOk(e, cfg, strategy, candles);
    var closed := FinalState(e, cfg, strategy, candles).value.closed;
    assert TradeOk(e, cfg, closed, i);
    var c := closed[i];
    MarketFillBeyondStop(e, cfg, c.position.entry);
    SettlementBounded(e, c.position.entry, c.requested, c.trade.exitTime, c.trade.reason);
  }
}
