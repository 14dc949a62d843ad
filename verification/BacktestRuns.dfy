// What every run of the candle loop keeps: the books balance, entries obey their limits and the
// cooldown, trades never overlap, exits are never worse than the initial stop, and nothing
// depends on candles that have not closed yet.
module BacktestRuns {
  import opened Common
  import opened RiskApproval
  import opened HistoryView
  import opened Backtest

  // ---------------------------------------------------------------- sums over trades

  function TotalPnl(trades: seq<Trade>): real {
    if trades == [] then 0.0 else TotalPnl(trades[..|trades| - 1]) + trades[|trades| - 1].pnl
  }

  // PnL of the trades closed at or before `at`.
  function PnlThrough(trades: seq<Trade>, at: Instant): real {
    if trades == [] then 0.0
    else
      var last := trades[|trades| - 1];
      PnlThrough(trades[..|trades| - 1], at) + if last.exitTime <= at then last.pnl else 0.0
  }

  // PnL of the trades closed on `day`.
  function DayPnl(trades: seq<Trade>, day: int): real {
    if trades == [] then 0.0
    else
      var last := trades[|trades| - 1];
      DayPnl(trades[..|trades| - 1], day) + if DayOf(last.exitTime) == day then last.pnl else 0.0
  }

  lemma AppendTrade(trades: seq<Trade>, t: Trade)
    ensures TotalPnl(trades + [t]) == TotalPnl(trades) + t.pnl
    ensures forall at: Instant ::
      PnlThrough(trades + [t], at) == PnlThrough(trades, at) + if t.exitTime <= at then t.pnl else 0.0
    ensures forall day ::
      DayPnl(trades + [t], day) == DayPnl(trades, day) + if DayOf(t.exitTime) == day then t.pnl else 0.0
  {
    assert (trades + [t])[..|trades|] == trades;
  }

  lemma {:induction false} AllThrough(trades: seq<Trade>, at: Instant)
    requires forall i :: 0 <= i < |trades| ==> trades[i].exitTime <= at
    ensures PnlThrough(trades, at) == TotalPnl(trades)
  {
    if trades != [] {
      AllThrough(trades[..|trades| - 1], at);
    }
  }

  // ---------------------------------------------------------------- what holds of each trade

  // How far `price` lies on the profitable side of `level`.
  function Beyond(side: Side, price: real, level: real): real {
    if side.Long? then price - level else level - price
  }

  // An entry respects the limits of the run, given the trades closed before it.
  ghost predicate EntryOk(e: Engine, cfg: Config, before: seq<Trade>, en: Entry) {
    && en.balance == cfg.startingBalance + TotalPnl(before)
    && SizedWithin(cfg, en)
    && Placed(e, cfg, en)
    && DayPnl(before, DayOf(en.openedAt)) > -(en.balance * cfg.profile.maxDailyLoss)
    && (before != [] ==> Spaced(cfg, before[|before| - 1], en))
  }

  // Risk, notional and leverage caps at the actual fill.
  predicate SizedWithin(cfg: Config, en: Entry) {
    && en.quantity > 0.0 && en.fill > 0.0
    && en.unitRisk == Abs(en.fill - en.stop) > 0.0
    && en.risk == en.unitRisk * en.quantity
    && en.risk <= en.balance * cfg.profile.riskPerTrade + 0.005
    && en.fill * en.quantity <= cfg.profile.maxNotional
    && en.fill * en.quantity <= en.balance * cfg.leverage
  }

  // Stop on the losing side of the reference price, target at an adequate distance beyond it.
  predicate Placed(e: Engine, cfg: Config, en: Entry) {
    var distance := Beyond(en.side, en.reference, en.stop);
    && en.reference > 0.0 && distance > 0.0
    && RewardOk(cfg.profile.minRiskReward, Beyond(en.side, en.target, en.reference), distance)
    && (en.market ==>
          && en.fill == EntryFill(e, en.reference, en.side)
          && en.feeRate == e.feeRate
          && en.slippageCost == en.reference * en.quantity * e.slippage
          && en.spreadCost == en.reference * en.quantity * e.spread / 2.0)
  }

  predicate RewardOk(minimum: real, reward: real, risk: real) {
    reward >= minimum * risk
  }

  // Trades do not overlap, and a loss imposes the cooldown.
  predicate Spaced(cfg: Config, previous: Trade, en: Entry) {
    && previous.exitTime <= en.openedAt
    && (previous.pnl < 0.0 ==> en.openedAt >= previous.exitTime + cfg.profile.cooldownMinutes * MINUTE)
  }

  // A stop only ever tightens.
  predicate Tightened(p: Position) {
    Beyond(p.entry.side, p.stop, p.entry.stop) >= 0.0
  }

  // A closed trade is the settlement of its position at the level its reason names.
  ghost predicate CloseOk(e: Engine, c: Closed)
    requires e.Valid()
  {
    && c.trade == Close(e, c.position.entry, c.requested, c.trade.exitTime, c.trade.reason)
    && Tightened(c.position)
    && (c.trade.reason.StopLoss? ==> c.requested == c.position.stop)
    && (c.trade.reason.TakeProfit? ==> c.requested == c.position.entry.target)
    && c.position.entry.openedAt <= c.trade.exitTime
    && (c.trade.exitTime == c.position.entry.openedAt ==> c.trade.reason.EndOfData?)
  }

  // Every exit price is at or beyond the initial stop.
  predicate ExitProtected(c: Closed) {
    Beyond(c.position.entry.side, c.requested, c.position.entry.stop) >= 0.0
  }

  // ---------------------------------------------------------------- the run invariant

  ghost predicate BooksOk(cfg: Config, s: RunState) {
    && s.balance == cfg.startingBalance + TotalPnl(Trades(s.closed))
    && (forall day :: DailyPnl(s.daily, day) == DayPnl(Trades(s.closed), day))
    && LossesOk(s)
  }

  // The loss clock runs exactly when the counter is positive, from the last exit.
  predicate LossesOk(s: RunState) {
    && (s.lastLoss.Some? <==> s.losses > 0)
    && (s.lastLoss.Some? <==> s.closed != [] && s.closed[|s.closed| - 1].trade.pnl < 0.0)
    && (s.lastLoss.Some? ==> s.lastLoss.value == s.closed[|s.closed| - 1].trade.exitTime)
  }

  ghost predicate TradeOk(e: Engine, cfg: Config, closed: seq<Closed>, i: nat)
    requires e.Valid() && i < |closed|
  {
    && EntryOk(e, cfg, Trades(closed)[..i], closed[i].position.entry)
    && CloseOk(e, closed[i])
    && (cfg.profile.minRiskReward >= 0.0 ==> ExitProtected(closed[i]))
  }

  ghost predicate TradesOk(e: Engine, cfg: Config, s: RunState, now: Instant)
    requires e.Valid()
  {
    && (forall i :: 0 <= i < |s.closed| ==> TradeOk(e, cfg, s.closed, i) && s.closed[i].trade.exitTime <= now)
    && (s.open.Some? ==>
          var p := s.open.value;
          EntryOk(e, cfg, Trades(s.closed), p.entry) && Tightened(p) && p.entry.openedAt <= now)
  }

  // While a trade is open, the last close lies beyond its initial stop.
  predicate MarkProtected(s: RunState, close: real) {
    s.open.Some? ==> Beyond(s.open.value.entry.side, close, s.open.value.entry.stop) > 0.0
  }

  lemma AppendedTrades(closed: seq<Closed>, c: Closed)
    ensures Trades(closed + [c]) == Trades(closed) + [c.trade]
    ensures forall i :: 0 <= i <= |closed| ==> Trades(closed + [c])[..i] == Trades(closed)[..i]
  {
  }

  lemma SettleKeepsBooks(e: Engine, cfg: Config, s: RunState, requested: real, at: Instant, reason: ExitReason)
    requires e.Valid() && s.open.Some? && BooksOk(cfg, s)
    ensures BooksOk(cfg, Settle(e, s, requested, at, reason))
  {
    var trade := Close(e, s.open.value.entry, requested, at, reason);
    AppendTrade(Trades(s.closed), trade);
    AppendedTrades(s.closed, Closed(s.open.value, requested, trade));
  }

  lemma ClosedKeepsTrades(e: Engine, cfg: Config, s: RunState, now: Instant, c: Closed, at: Instant)
    requires e.Valid() && TradesOk(e, cfg, s, now) && now <= at
    requires s.open == Some(c.position) && CloseOk(e, c) && c.trade.exitTime == at
    requires cfg.profile.minRiskReward >= 0.0 ==> ExitProtected(c)
    ensures forall i :: 0 <= i < |s.closed + [c]| ==>
      TradeOk(e, cfg, s.closed + [c], i) && (s.closed + [c])[i].trade.exitTime <= at
  {
    AppendedTrades(s.closed, c);
    forall i | 0 <= i < |s.closed + [c]|
      ensures TradeOk(e, cfg, s.closed + [c], i) && (s.closed + [c])[i].trade.exitTime <= at
    {
      if i < |s.closed| {
        assert TradeOk(e, cfg, s.closed, i);
      } else {
        assert Trades(s.closed + [c])[..i] == Trades(s.closed);
      }
    }
  }

  lemma TargetBeyondStop(e: Engine, cfg: Config, en: Entry)
    requires Placed(e, cfg, en) && cfg.profile.minRiskReward >= 0.0
    ensures Beyond(en.side, en.target, en.stop) > 0.0
  {
    assert cfg.profile.minRiskReward * Beyond(en.side, en.reference, en.stop) >= 0.0;
  }

  lemma SettleKeepsTrades(e: Engine, cfg: Config, s: RunState, c: Candle, now: Instant, at: Instant)
    requires e.Valid() && TradesOk(e, cfg, s, now) && now < at && s.open.Some?
    requires ResolveCandleExit(s.open.value, c).Some?
    ensures var exit := ResolveCandleExit(s.open.value, c).value;
      TradesOk(e, cfg, Settle(e, s, exit.0, at, exit.1), at)
  {
    var p := s.open.value;
    var exit := ResolveCandleExit(p, c).value;
    if cfg.profile.minRiskReward >= 0.0 {
      TargetBeyondStop(e, cfg, p.entry);
    }
    ClosedKeepsTrades(e, cfg, s, now, Closed(p, exit.0, Close(e, p.entry, exit.0, at, exit.1)), at);
  }

  lemma AdvanceTightens(p: Position, c: Candle)
    requires Tightened(p)
    ensures Tightened(Advanced(p, c)) && Advanced(p, c).entry == p.entry
  {
  }

  lemma ExitKeeps(e: Engine, cfg: Config, s: RunState, c: Candle, now: Instant, at: Instant)
    requires e.Valid() && BooksOk(cfg, s) && TradesOk(e, cfg, s, now) && now < at && SoundCandle(c)
    ensures var r := ExitPhase(e, s, c, at);
      BooksOk(cfg, r) && TradesOk(e, cfg, r, at) && MarkProtected(r, c.close)
  {
    if s.open.Some? {
      var p := s.open.value;
      if ResolveCandleExit(p, c).Some? {
        var exit := ResolveCandleExit(p, c).value;
        SettleKeepsBooks(e, cfg, s, exit.0, at, exit.1);
        SettleKeepsTrades(e, cfg, s, c, now, at);
      } else {
        AdvanceTightens(p, c);
      }
    }
  }

  // ---------------------------------------------------------------- entries

  lemma SizeAtFillFits(d: RiskDecision, maxNotional: real, buying: real, fill: real, unitRisk: real)
    requires d.Approved? && fill != 0.0 && unitRisk > 0.0 && buying > 0.0
    requires SizeAtFill(d, maxNotional, buying, fill, unitRisk) > 0.0
    ensures var q := SizeAtFill(d, maxNotional, buying, fill, unitRisk);
      && fill > 0.0
      && unitRisk * q <= d.riskAmount
      && fill * q <= maxNotional
      && fill * q <= buying
  {
    var q := SizeAtFill(d, maxNotional, buying, fill, unitRisk);
    assert q <= buying / fill;
    PositiveQuotient(buying, fill);
    QuotientCap(d.riskAmount, unitRisk, q);
    QuotientCap(maxNotional, fill, q);
    QuotientCap(buying, fill, q);
  }

  lemma PositiveProduct(a: real, b: real)
    requires a > 0.0 && b > 0.0
    ensures a * b > 0.0
  {
  }

  lemma PositiveQuotient(a: real, b: real)
    requires a > 0.0 && b != 0.0 && a / b > 0.0
    ensures b > 0.0
  {
    var q := a / b;
    assert q * b == a;
    if b < 0.0 {
      PositiveProduct(q, -b);
    }
  }

  lemma EntryParts(e: Engine, cfg: Config, s: Standing, a: Action, c: Candle, at: Instant)
    requires e.Valid()
    requires var r := EntryFor(e, cfg, s, a, c, at); r.Ok? && r.value.Some?
    ensures var d := Approve(IntentFor(cfg, s, a, c, at), cfg.profile);
      var fill := FillFor(e, a, c.close);
      var unitRisk := Abs(fill - a.stop);
      && d.Approved? && fill != 0.0 && unitRisk > 0.0
      && SizeAtFill(d, cfg.profile.maxNotional, BuyingPower(s.balance, cfg.leverage), fill, unitRisk) > 0.0
      && EntryFor(e, cfg, s, a, c, at).value.value
         == EntryAt(e, a, c.close, at, fill, unitRisk,
                    SizeAtFill(d, cfg.profile.maxNotional, BuyingPower(s.balance, cfg.leverage), fill, unitRisk),
                    s.balance)
  {
  }

  // Sizing facts carried over to the entry that is opened.
  lemma EntrySized(e: Engine, cfg: Config, s: Standing, a: Action, c: Candle, at: Instant)
    requires e.Valid() && cfg.leverage > 0.0
    requires var r := EntryFor(e, cfg, s, a, c, at); r.Ok? && r.value.Some?
    ensures SizedWithin(cfg, EntryFor(e, cfg, s, a, c, at).value.value)
  {
    hide Approve, EntryFor, SizeAtFill, FillFor, Fits, CapsFor, UnitRisk, UnitReward;
    EntryParts(e, cfg, s, a, c, at);
    var intent := IntentFor(cfg, s, a, c, at);
    ApprovedSize(intent, cfg.profile);
    ApprovedGates(intent, cfg.profile);
    var fill := FillFor(e, a, c.close);
    PositiveProduct(s.balance, cfg.leverage);
    SizeAtFillFits(Approve(intent, cfg.profile), cfg.profile.maxNotional, BuyingPower(s.balance, cfg.leverage), fill,
                   Abs(fill - a.stop));
  }

  lemma EntryPlaced(e: Engine, cfg: Config, s: Standing, a: Action, c: Candle, at: Instant)
    requires e.Valid()
    requires var r := EntryFor(e, cfg, s, a, c, at); r.Ok? && r.value.Some?
    ensures Placed(e, cfg, EntryFor(e, cfg, s, a, c, at).value.value)
  {
    hide Approve, EntryFor, SizeAtFill;
    EntryParts(e, cfg, s, a, c, at);
    var intent := IntentFor(cfg, s, a, c, at);
    ApprovedGates(intent, cfg.profile);
    assert UnitReward(intent) == Beyond(a.side, a.target, c.close)
        && UnitRisk(intent) == Beyond(a.side, c.close, a.stop);
  }

  lemma EntryTimed(e: Engine, cfg: Config, s: RunState, a: Action, c: Candle, at: Instant)
    requires e.Valid() && BooksOk(cfg, s)
    requires forall i :: 0 <= i < |s.closed| ==> s.closed[i].trade.exitTime <= at
    requires var r := EntryFor(e, cfg, StandingOf(s), a, c, at); r.Ok? && r.value.Some?
    ensures var en := EntryFor(e, cfg, StandingOf(s), a, c, at).value.value;
      var before := Trades(s.closed);
      && en.openedAt == at && en.balance == s.balance && en.reference == c.close
      && DayPnl(before, DayOf(at)) > -(s.balance * cfg.profile.maxDailyLoss)
      && (before != [] ==> Spaced(cfg, before[|before| - 1], en))
  {
    hide EntryFor, Approve, SizeAtFill, FillFor, TotalPnl, PnlThrough;
    EntryParts(e, cfg, StandingOf(s), a, c, at);
    ApprovedGates(IntentFor(cfg, StandingOf(s), a, c, at), cfg.profile);
  }

  lemma EntryIsOk(e: Engine, cfg: Config, s: RunState, a: Action, c: Candle, at: Instant)
    requires e.Valid() && cfg.leverage > 0.0 && BooksOk(cfg, s)
    requires forall i :: 0 <= i < |s.closed| ==> s.closed[i].trade.exitTime <= at
    requires var r := EntryFor(e, cfg, StandingOf(s), a, c, at); r.Ok? && r.value.Some?
    ensures var en := EntryFor(e, cfg, StandingOf(s), a, c, at).value.value;
      EntryOk(e, cfg, Trades(s.closed), en) && en.openedAt == at && en.reference == c.close
  {
    hide EntryFor, SizedWithin, Placed, Spaced;
    EntrySized(e, cfg, StandingOf(s), a, c, at);
    EntryPlaced(e, cfg, StandingOf(s), a, c, at);
    EntryTimed(e, cfg, s, a, c, at);
  }

  lemma EntryKeeps(e: Engine, cfg: Config, s: RunState, action: Option<Action>, c: Candle, at: Instant)
    requires e.Valid() && cfg.leverage > 0.0
    requires BooksOk(cfg, s) && TradesOk(e, cfg, s, at) && MarkProtected(s, c.close)
    requires EntryPhase(e, cfg, s, action, c, at).Ok?
    ensures var r := EntryPhase(e, cfg, s, action, c, at).value;
      BooksOk(cfg, r) && TradesOk(e, cfg, r, at) && MarkProtected(r, c.close)
  {
    if s.open.None? && action.Some? {
      var r := EntryFor(e, cfg, StandingOf(s), action.value, c, at);
      if r.value.Some? {
        EntryIsOk(e, cfg, s, action.value, c, at);
      }
    }
  }

  // ---------------------------------------------------------------- the equity curve

  function PeakOf(start: real, points: seq<EquityPoint>): real {
    if points == [] then start else Max(PeakOf(start, points[..|points| - 1]), points[|points| - 1].equity)
  }

  // A point agrees with the trades closed by its time.
  predicate PointBooks(cfg: Config, trades: seq<Trade>, p: EquityPoint) {
    && p.realized == PnlThrough(trades, p.timestamp)
    && p.balance == cfg.startingBalance + p.realized
    && p.equity == p.balance + p.unrealized
  }

  ghost predicate PointsOk(cfg: Config, s: RunState, now: Instant) {
    && s.peak == PeakOf(cfg.startingBalance, s.points)
    && (forall i :: 0 <= i < |s.points| ==>
          && PointBooks(cfg, Trades(s.closed), s.points[i])
          && s.points[i].timestamp <= now
          && s.points[i].drawdown == PeakOf(cfg.startingBalance, s.points[..i + 1]) - s.points[i].equity)
    && (forall i, j :: 0 <= i < j < |s.points| ==> s.points[i].timestamp < s.points[j].timestamp)
  }

  lemma NewTradeKeepsPoints(cfg: Config, trades: seq<Trade>, t: Trade, points: seq<EquityPoint>, now: Instant)
    requires forall i :: 0 <= i < |points| ==> PointBooks(cfg, trades, points[i]) && points[i].timestamp <= now
    requires now < t.exitTime
    ensures forall i :: 0 <= i < |points| ==> PointBooks(cfg, trades + [t], points[i])
  {
    AppendTrade(trades, t);
  }

  lemma ExitKeepsPoints(e: Engine, cfg: Config, s: RunState, c: Candle, now: Instant, at: Instant)
    requires e.Valid() && PointsOk(cfg, s, now) && now < at
    ensures PointsOk(cfg, ExitPhase(e, s, c, at), now)
  {
    if s.open.Some? {
      var p := s.open.value;
      var exit := ResolveCandleExit(p, c);
      if exit.Some? {
        var trade := Close(e, p.entry, exit.value.0, at, exit.value.1);
        NewTradeKeepsPoints(cfg, Trades(s.closed), trade, s.points, now);
        AppendedTrades(s.closed, Closed(p, exit.value.0, trade));
      }
    }
  }

  lemma EntryKeepsPoints(e: Engine, cfg: Config, s: RunState, action: Option<Action>, c: Candle, now: Instant,
                         at: Instant)
    requires e.Valid() && PointsOk(cfg, s, now) && EntryPhase(e, cfg, s, action, c, at).Ok?
    ensures PointsOk(cfg, EntryPhase(e, cfg, s, action, c, at).value, now)
  {
    hide EntryFor;
  }

  lemma MarkKeeps(e: Engine, cfg: Config, s: RunState, c: Candle, now: Instant, at: Instant)
    requires e.Valid() && BooksOk(cfg, s) && TradesOk(e, cfg, s, at) && MarkProtected(s, c.close)
    requires PointsOk(cfg, s, now) && now < at
    ensures var r := MarkPhase(e, cfg, s, c, at);
      BooksOk(cfg, r) && TradesOk(e, cfg, r, at) && MarkProtected(r, c.close) && PointsOk(cfg, r, at)
  {
    hide Unrealized, TradeOk, EntryOk, TotalPnl, PnlThrough, DayPnl;
    var r := MarkPhase(e, cfg, s, c, at);
    AllThrough(Trades(s.closed), at);
    assert r.points[..|s.points|] == s.points;
    assert r.points[..|r.points|] == r.points;
    assert forall i {:trigger s.points[i]} :: 0 <= i < |s.points| ==> r.points[..i + 1] == s.points[..i + 1];
  }

  // ---------------------------------------------------------------- whole runs

  // What `Run` has checked before the loop starts.
  ghost predicate Runnable(cfg: Config, candles: seq<Candle>) {
    && cfg.leverage > 0.0
    && cfg.bar == BarOf(candles)
    && ValidCandles(candles, WholeSeconds(cfg.bar))
  }

  ghost predicate RunOk(e: Engine, cfg: Config, s: RunState, now: Instant)
    requires e.Valid()
  {
    BooksOk(cfg, s) && TradesOk(e, cfg, s, now) && PointsOk(cfg, s, now)
  }

  lemma StepKeeps(e: Engine, cfg: Config, s: RunState, c: Candle, now: Instant, at: Instant, action: Option<Action>)
    requires e.Valid() && cfg.leverage > 0.0 && SoundCandle(c) && now < at
    requires RunOk(e, cfg, s, now) && Step(e, cfg, s, c, at, action).Ok?
    ensures var r := Step(e, cfg, s, c, at, action).value;
      RunOk(e, cfg, r, at) && MarkProtected(r, c.close)
  {
    hide ExitPhase, EntryPhase, MarkPhase, BooksOk, TradesOk, PointsOk, MarkProtected;
    ExitKeeps(e, cfg, s, c, now, at);
    ExitKeepsPoints(e, cfg, s, c, now, at);
    var exited := ExitPhase(e, s, c, at);
    EntryKeeps(e, cfg, exited, action, c, at);
    EntryKeepsPoints(e, cfg, exited, action, c, now, at);
    MarkKeeps(e, cfg, EntryPhase(e, cfg, exited, action, c, at).value, c, now, at);
  }

  lemma {:induction false} TimesIncrease(candles: seq<Candle>, i: nat, j: nat)
    requires Increasing(candles) && i < j < |candles|
    ensures candles[i].timestamp < candles[j].timestamp
  {
    if i + 1 < j {
      TimesIncrease(candles, i, j - 1);
    }
  }

  // The invariant holds after every candle of every run.
  lemma {:induction false} EveryStateOk(e: Engine, cfg: Config, strategy: Strategy, candles: seq<Candle>, n: nat)
    requires e.Valid() && Runnable(cfg, candles) && 0 < n <= |candles|
    requires After(e, cfg, strategy, candles, n).Ok?
    ensures var s := After(e, cfg, strategy, candles, n).value;
      var last := candles[n - 1];
      && RunOk(e, cfg, s, EventTime(last, cfg.bar))
      && MarkProtected(s, last.close)
      && |s.points| == n
  {
    var c := candles[n - 1];
    var at := EventTime(c, cfg.bar);
    var previous := After(e, cfg, strategy, candles, n - 1).value;
    if n == 1 {
      FirstStepOk(e, cfg, c, at, strategy(View(candles, 1)));
    } else {
      EveryStateOk(e, cfg, strategy, candles, n - 1);
      StepKeeps(e, cfg, previous, c, EventTime(candles[n - 2], cfg.bar), at, strategy(View(candles, n)));
    }
  }

  lemma FirstStepOk(e: Engine, cfg: Config, c: Candle, at: Instant, action: Option<Action>)
    requires e.Valid() && cfg.leverage > 0.0 && SoundCandle(c)
    requires Step(e, cfg, Initial(cfg), c, at, action).Ok?
    ensures var r := Step(e, cfg, Initial(cfg), c, at, action).value;
      RunOk(e, cfg, r, at) && MarkProtected(r, c.close) && |r.points| == 1
  {
    var s := Initial(cfg);
    EntryKeeps(e, cfg, s, action, c, at);
    var entered := EntryPhase(e, cfg, s, action, c, at).value;
    var r := MarkPhase(e, cfg, entered, c, at);
    assert r.points[..1] == r.points;
    assert r.points[..0] == [];
  }

  // ---------------------------------------------------------------- the finished run

  lemma FinishKeepsTrades(e: Engine, cfg: Config, s: RunState, last: Candle)
    requires e.Valid() && s.points != []
    requires TradesOk(e, cfg, s, EventTime(last, cfg.bar)) && MarkProtected(s, last.close)
    ensures TradesOk(e, cfg, Finish(e, cfg, s, last), EventTime(last, cfg.bar))
  {
    if s.open.Some? {
      var at := EventTime(last, cfg.bar);
      var p := s.open.value;
      ClosedKeepsTrades(e, cfg, s, at, Closed(p, last.close, Close(e, p.entry, last.close, at, EndOfData)), at);
    }
  }

  lemma FinishKeepsBalance(e: Engine, cfg: Config, s: RunState, last: Candle)
    requires e.Valid() && s.points != []
    requires s.balance == cfg.startingBalance + TotalPnl(Trades(s.closed))
    ensures var done := Finish(e, cfg, s, last);
      done.balance == cfg.startingBalance + TotalPnl(Trades(done.closed)) && |done.points| == |s.points|
  {
    if s.open.Some? {
      var p := s.open.value;
      var trade := Close(e, p.entry, last.close, EventTime(last, cfg.bar), EndOfData);
      AppendTrade(Trades(s.closed), trade);
      AppendedTrades(s.closed, Closed(p, last.close, trade));
    }
  }

  lemma FinishKeepsPoints(e: Engine, cfg: Config, s: RunState, last: Candle)
    requires e.Valid() && s.points != [] && s.points[|s.points| - 1].timestamp == EventTime(last, cfg.bar)
    requires s.balance == cfg.startingBalance + TotalPnl(Trades(s.closed))
    requires PointsOk(cfg, s, EventTime(last, cfg.bar))
    requires forall i :: 0 <= i < |s.closed| ==> s.closed[i].trade.exitTime <= EventTime(last, cfg.bar)
    ensures var done := Finish(e, cfg, s, last);
      forall i :: 0 <= i < |done.points| ==> PointBooks(cfg, Trades(done.closed), done.points[i])
  {
    if s.open.Some? {
      var at := EventTime(last, cfg.bar);
      var p := s.open.value;
      var trade := Close(e, p.entry, last.close, at, EndOfData);
      AppendTrade(Trades(s.closed), trade);
      AppendedTrades(s.closed, Closed(p, last.close, trade));
      AllThrough(Trades(s.closed) + [trade], at);
    }
  }

  lemma LastPointTime(e: Engine, cfg: Config, strategy: Strategy, candles: seq<Candle>, n: nat)
    requires e.Valid() && 0 < n <= |candles| && After(e, cfg, strategy, candles, n).Ok?
    ensures var s := After(e, cfg, strategy, candles, n).value;
      && |s.points| == n && s.points[n - 1].timestamp == EventTime(candles[n - 1], cfg.bar)
      && (s.open.None? ==> s.points[n - 1].equity == s.balance)
  {
    AfterPoints(e, cfg, strategy, candles, n - 1);
  }

  // Conservation: the final equity is the starting balance plus all trade PnLs; every equity
  // point's realized PnL is that of the trades closed by then, its balance and equity follow
  // from it, and the last point shows the final equity.
  lemma RunConserves(e: Engine, cfg: Config, strategy: Strategy, candles: seq<Candle>)
    requires e.Valid() && cfg.bar == BarOf(candles) && FinalState(e, cfg, strategy, candles).Ok?
    ensures var r := Report(cfg, FinalState(e, cfg, strategy, candles)).value;
      && r.finalEquity == cfg.startingBalance + TotalPnl(r.trades)
      && |r.points| == |candles|
      && r.points[|candles| - 1].equity == r.finalEquity
      && (forall i :: 0 <= i < |r.points| ==> PointBooks(cfg, r.trades, r.points[i]))
  {
    hide Close, Step, Unrealized, EntryOk, CloseOk, TradeOk;
    var n, last := |candles|, candles[|candles| - 1];
    EveryStateOk(e, cfg, strategy, candles, n);
    LastPointTime(e, cfg, strategy, candles, n);
    var s := After(e, cfg, strategy, candles, n).value;
    FinishKeepsBalance(e, cfg, s, last);
    FinishKeepsPoints(e, cfg, s, last);
  }

  // Every trade of every run is a correct settlement of an entry that obeyed its limits.
  lemma RunTradesOk(e: Engine, cfg: Config, strategy: Strategy, candles: seq<Candle>)
    requires e.Valid() && cfg.bar == BarOf(candles) && FinalState(e, cfg, strategy, candles).Ok?
    ensures var closed := FinalState(e, cfg, strategy, candles).value.closed;
      forall i :: 0 <= i < |closed| ==> TradeOk(e, cfg, closed, i)
  {
    hide Close, Step, Unrealized, EntryOk, CloseOk, TradeOk;
    EveryStateOk(e, cfg, strategy, candles, |candles|);
    FinishKeepsTrades(e, cfg, After(e, cfg, strategy, candles, |candles|).value, candles[|candles| - 1]);
  }

  // Read off the reported trades alone: no two overlap, a losing trade is followed by at least
  // the cooldown, and no entry happens on a day whose realized PnL has used up the daily loss
  // limit of the balance at that moment.
  lemma TradesAreSpaced(e: Engine, cfg: Config, strategy: Strategy, candles: seq<Candle>, i: nat)
    requires e.Valid() && cfg.bar == BarOf(candles) && FinalState(e, cfg, strategy, candles).Ok?
    requires i < |Report(cfg, FinalState(e, cfg, strategy, candles)).value.trades|
    ensures var trades := Report(cfg, FinalState(e, cfg, strategy, candles)).value.trades;
      var balance := cfg.startingBalance + TotalPnl(trades[..i]);
      && trades[i].entryTime <= trades[i].exitTime
      && DayPnl(trades[..i], DayOf(trades[i].entryTime)) > -(balance * cfg.profile.maxDailyLoss)
      && (i > 0 ==> trades[i - 1].exitTime <= trades[i].entryTime)
      && (i > 0 && trades[i - 1].pnl < 0.0 ==>
            trades[i].entryTime >= trades[i - 1].exitTime + cfg.profile.cooldownMinutes * MINUTE)
  {
    hide FinalState, SizedWithin, Placed, CloseOk;
    RunTradesOk(e, cfg, strategy, candles);
    var closed := FinalState(e, cfg, strategy, candles).value.closed;
    assert TradeOk(e, cfg, closed, i);
    CloseTimes(e, closed[i]);
    if i > 0 {
      assert Trades(closed)[..i][i - 1] == Trades(closed)[i - 1];
    }
  }

  lemma CloseTimes(e: Engine, c: Closed)
    requires e.Valid() && CloseOk(e, c)
    ensures c.trade.entryTime == c.position.entry.openedAt <= c.trade.exitTime
    ensures c.trade.funding == FundingCost(e, c.position.entry, c.trade.exitTime)
  {
  }

  // ---------------------------------------------------------------- causality

  // A strategy that reads only the closed candles of its view.
  ghost predicate Causal(strategy: Strategy) {
    forall v: View<Candle> :: v.Valid() ==> strategy(v) == strategy(v.Closed())
  }

  // Candle lists that agree on their first `k` candles and draw the same decisions from them
  // leave the engine in the same state after `k` candles.
  lemma {:induction false} SameDecisionsSameRun(e: Engine, cfg: Config, strategy: Strategy, a: seq<Candle>,
                                                b: seq<Candle>, k: nat)
    requires e.Valid()
    requires k <= |a| && k <= |b| && a[..k] == b[..k]
    requires forall n :: 0 < n <= k ==> strategy(View(a, n)) == strategy(View(b, n))
    ensures After(e, cfg, strategy, a, k) == After(e, cfg, strategy, b, k)
  {
    hide Step;
    if k > 0 {
      assert a[..k - 1] == a[..k][..k - 1] && b[..k - 1] == b[..k][..k - 1];
      SameDecisionsSameRun(e, cfg, strategy, a, b, k - 1);
      assert a[k - 1] == a[..k][k - 1] && b[k - 1] == b[..k][k - 1];
    }
  }

  // Two candle lists with the same bar duration that agree on their first `k` candles leave the
  // engine in the same state after `k` candles, whatever follows.
  lemma RunsAreCausal(e: Engine, cfg: Config, strategy: Strategy, a: seq<Candle>, b: seq<Candle>, k: nat)
    requires e.Valid() && Causal(strategy)
    requires k <= |a| && k <= |b| && a[..k] == b[..k]
    ensures After(e, cfg, strategy, a, k) == After(e, cfg, strategy, b, k)
  {
    forall n | 0 < n <= k
      ensures strategy(View(a, n)) == strategy(View(b, n))
    {
      assert a[..n] == a[..k][..n] && b[..n] == b[..k][..n];
      assert View(a, n).Closed() == View(b, n).Closed();
    }
    SameDecisionsSameRun(e, cfg, strategy, a, b, k);
  }

  // ---------------------------------------------------------------- the loss counter

  lemma SameDecision(e: Engine, cfg: Config, s: Standing, limit: int, a: Action, c: Candle, at: Instant)
    requires e.Valid() && (s.lastLoss.None? ==> s.losses == 0)
    requires cfg.profile.maxConsecutiveLosses > 0 && limit > 0
    ensures EntryFor(e, cfg.(profile := cfg.profile.(maxConsecutiveLosses := limit)), s, a, c, at)
         == EntryFor(e, cfg, s, a, c, at)
  {
    hide Approve, SizeAtFill, FillFor, EntryAt;
    var other := cfg.(profile := cfg.profile.(maxConsecutiveLosses := limit));
    assert IntentFor(other, s, a, c, at) == IntentFor(cfg, s, a, c, at);
    LossCounterMatters(IntentFor(cfg, s, a, c, at), cfg.profile, limit);
    var d, d' := Approve(IntentFor(cfg, s, a, c, at), cfg.profile),
        Approve(IntentFor(other, s, a, c, at), other.profile);
    assert d == d' || (d.Refused? && d'.Refused?);
  }

  lemma SameStep(e: Engine, cfg: Config, s: RunState, limit: int, c: Candle, at: Instant, action: Option<Action>)
    requires e.Valid() && (s.lastLoss.None? ==> s.losses == 0)
    requires cfg.profile.maxConsecutiveLosses > 0 && limit > 0
    ensures var other := cfg.(profile := cfg.profile.(maxConsecutiveLosses := limit));
      Step(e, other, s, c, at, action) == Step(e, cfg, s, c, at, action)
    ensures var r := Step(e, cfg, s, c, at, action);
      r.Ok? && r.value.lastLoss.None? ==> r.value.losses == 0
  {
    hide Close, EntryFor, Unrealized, ResolveCandleExit, Advanced;
    if action.Some? {
      SameDecision(e, cfg, StandingOf(ExitPhase(e, s, c, at)), limit, action.value, c, at);
    }
  }

  // The engine hands the risk manager a zero loss counter whenever no cooldown is active, so the
  // consecutive-loss limit never changes a run: any two positive limits give identical runs.
  lemma {:induction false} LossLimitIsInert(e: Engine, cfg: Config, strategy: Strategy, candles: seq<Candle>, n: nat,
                                            limit: int)
    requires e.Valid() && n <= |candles|
    requires cfg.profile.maxConsecutiveLosses > 0 && limit > 0
    ensures var other := cfg.(profile := cfg.profile.(maxConsecutiveLosses := limit));
      After(e, other, strategy, candles, n) == After(e, cfg, strategy, candles, n)
    ensures var r := After(e, cfg, strategy, candles, n);
      r.Ok? && r.value.lastLoss.None? ==> r.value.losses == 0
  {
    hide Step;
    if n > 0 {
      LossLimitIsInert(e, cfg, strategy, candles, n - 1, limit);
      var previous := After(e, cfg, strategy, candles, n - 1);
      if previous.Ok? {
        var c := candles[n - 1];
        SameStep(e, cfg, previous.value, limit, c, EventTime(c, cfg.bar), strategy(View(candles, n)));
      }
    }
  }
}
