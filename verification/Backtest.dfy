// The candle execution engine: one open trade, a moving stop, a cooldown, per-day PnL and an
// equity curve. `After` is the state specification; `Run` is the candle loop proved against it.
module Backtest {
  import opened Common
  import opened RiskApproval
  import opened HistoryView

  // Microseconds since the Unix epoch.
  type Instant = nat

  const SECOND: nat := 1000000
  const MINUTE: nat := 60 * SECOND
  const DAY: nat := 86400 * SECOND

  datatype Candle = Candle(timestamp: Instant, open: real, high: real, low: real, close: real, volume: real)

  datatype Action = Action(
    side: Side,
    stop: real,
    target: real,
    score: int,
    volatility: real,
    spread: real,
    breakEven: bool,
    trailing: Option<real>,
    entryOverride: Option<real>,
    entryFeeRate: Option<real>)

  // A strategy is a function of the history view it receives.
  type Strategy = View<Candle> -> Option<Action>

  datatype Engine = Engine(
    feeRate: real,
    slippage: real,
    fundingRate: real,
    spread: real,
    spot: bool,
    fundingHours: int)
  {
    // What the constructor accepts.
    predicate Valid() {
      && feeRate >= 0.0 && slippage >= 0.0 && spread >= 0.0
      && (spot ==> fundingRate == 0.0)
      && fundingHours > 0
    }

    function Adverse(): real {
      slippage + spread / 2.0
    }

    function FundingInterval(): int {
      fundingHours * 3600
    }
  }

  datatype Config = Config(startingBalance: real, profile: RiskProfile, leverage: real, bar: int)

  // What an opened trade fixes for good. `balance` and `market` are kept for the record only.
  datatype Entry = Entry(
    side: Side,
    fill: real,
    reference: real,
    quantity: real,
    stop: real,
    target: real,
    openedAt: Instant,
    score: int,
    risk: real,
    unitRisk: real,
    breakEven: bool,
    trailing: Option<real>,
    feeRate: real,
    slippageCost: real,
    spreadCost: real,
    balance: real,
    market: bool)

  datatype Position = Position(entry: Entry, stop: real, high: real, low: real)

  datatype ExitReason = StopLoss | TakeProfit | EndOfData

  datatype Trade = Trade(
    side: Side,
    entryTime: Instant,
    exitTime: Instant,
    entry: real,
    exit: real,
    quantity: real,
    pnl: real,
    fees: real,
    reason: ExitReason,
    score: int,
    riskAmount: real,
    slippageCost: real,
    funding: real,
    spreadCost: real)

  datatype EquityPoint = EquityPoint(
    timestamp: Instant,
    balance: real,
    equity: real,
    drawdown: real,
    realized: real,
    unrealized: real)

  // ---------------------------------------------------------------- prices, costs and exits

  function EntryFill(e: Engine, price: real, side: Side): real {
    price * (if side.Long? then 1.0 + e.Adverse() else 1.0 - e.Adverse())
  }

  function ExitFill(e: Engine, requested: real, side: Side): real {
    requested * (if side.Long? then 1.0 - e.Adverse() else 1.0 + e.Adverse())
  }

  function FundingCost(e: Engine, p: Entry, at: Instant): real
    requires e.Valid()
  {
    if e.fundingRate == 0.0 || at <= p.openedAt then 0.0
    else
      var interval := e.FundingInterval();
      var openedEpoch := p.openedAt / SECOND;
      var exitEpoch := at / SECOND;
      var crossed := exitEpoch / interval - openedEpoch / interval;
      var settlements := if openedEpoch % interval == 0 then MaxInt(0, crossed) else crossed;
      if settlements <= 0 then 0.0
      else p.fill * p.quantity * e.fundingRate * settlements as real * (if p.side.Long? then 1.0 else -1.0)
  }

  // A candle that touches both levels is resolved as a stop.
  function ResolveCandleExit(p: Position, c: Candle): Option<(real, ExitReason)> {
    var stopHit := if p.entry.side.Long? then c.low <= p.stop else c.high >= p.stop;
    var targetHit := if p.entry.side.Long? then c.high >= p.entry.target else c.low <= p.entry.target;
    if stopHit then Some((p.stop, StopLoss))
    else if targetHit then Some((p.entry.target, TakeProfit))
    else None
  }

  function Close(e: Engine, p: Entry, requested: real, at: Instant, reason: ExitReason): Trade
    requires e.Valid()
  {
    var exit := ExitFill(e, requested, p.side);
    var gross := (exit - p.fill) * p.quantity * (if p.side.Long? then 1.0 else -1.0);
    var fees := p.fill * p.quantity * p.feeRate + exit * p.quantity * e.feeRate;
    var funding := FundingCost(e, p, at);
    Trade(p.side, p.openedAt, at, p.fill, exit, p.quantity, gross - fees - funding, fees, reason, p.score, p.risk,
          p.slippageCost + requested * p.quantity * e.slippage, funding,
          p.spreadCost + requested * p.quantity * e.spread / 2.0)
  }

  function Unrealized(e: Engine, open: Option<Position>, price: real, at: Instant): real
    requires e.Valid()
  {
    match open
    case None => 0.0
    case Some(p) =>
      var pnl := (price - p.entry.fill) * p.entry.quantity;
      var gross := if p.entry.side.Long? then pnl else -pnl;
      gross - p.entry.fill * p.entry.quantity * p.entry.feeRate - FundingCost(e, p.entry, at)
  }

  function BreakEvenReached(p: Position): bool {
    if p.entry.side.Long? then p.high >= p.entry.fill + p.entry.unitRisk else p.low <= p.entry.fill - p.entry.unitRisk
  }

  function Tighter(side: Side, stop: real, candidate: real): real {
    if side.Long? then Max(stop, candidate) else Min(stop, candidate)
  }

  // Protection for the next candle: watermarks, then break-even, then the trailing stop.
  function Advanced(p: Position, c: Candle): Position {
    var marked := p.(high := Max(p.high, c.high), low := Min(p.low, c.low));
    var even :=
      if p.entry.breakEven && BreakEvenReached(marked) then Tighter(p.entry.side, p.stop, p.entry.fill) else p.stop;
    var stop :=
      match p.entry.trailing
      case None => even
      case Some(d) => Tighter(p.entry.side, even, if p.entry.side.Long? then marked.high - d else marked.low + d);
    marked.(stop := stop)
  }

  // The open trade the engine updates in place.
  class LivePosition {
    const entry: Entry
    var stop: real
    var high: real
    var low: real

    constructor (entry: Entry)
      ensures View() == Opened(entry)
    {
      this.entry := entry;
      stop, high, low := entry.stop, entry.fill, entry.fill;
    }

    function View(): Position
      reads this
    {
      Position(entry, stop, high, low)
    }

    method AdvanceProtection(c: Candle)
      modifies this
      ensures View() == Advanced(old(View()), c)
    {
      high := Max(high, c.high);
      low := Min(low, c.low);
      if entry.breakEven {
        var reached :=
          if entry.side.Long? then high >= entry.fill + entry.unitRisk else low <= entry.fill - entry.unitRisk;
        if reached {
          stop := if entry.side.Long? then Max(stop, entry.fill) else Min(stop, entry.fill);
        }
      }
      if entry.trailing.Some? {
        var candidate := if entry.side.Long? then high - entry.trailing.value else low + entry.trailing.value;
        stop := if entry.side.Long? then Max(stop, candidate) else Min(stop, candidate);
      }
    }
  }

  function Opened(entry: Entry): Position {
    Position(entry, entry.stop, entry.fill, entry.fill)
  }

  // ---------------------------------------------------------------- run state and its updates

  // A closed trade together with the position and the price it was closed at.
  datatype Closed = Closed(position: Position, requested: real, trade: Trade)

  datatype RunState = RunState(
    balance: real,
    open: Option<Position>,
    closed: seq<Closed>,
    points: seq<EquityPoint>,
    peak: real,
    daily: map<int, real>,
    losses: nat,
    lastLoss: Option<Instant>)

  datatype RunError = NoCandles | InvalidCandles | LeverageNotPositive | ArithmeticError

  function Initial(cfg: Config): RunState {
    RunState(cfg.startingBalance, None, [], [], cfg.startingBalance, map[], 0, None)
  }

  function DayOf(at: Instant): int {
    at / DAY
  }

  function DailyPnl(daily: map<int, real>, day: int): real {
    if day in daily then daily[day] else 0.0
  }

  // The trade closes at `requested` and joins the books of its day.
  function Settle(e: Engine, s: RunState, requested: real, at: Instant, reason: ExitReason): RunState
    requires e.Valid() && s.open.Some?
  {
    var trade := Close(e, s.open.value.entry, requested, at, reason);
    var day := DayOf(at);
    s.(balance := s.balance + trade.pnl,
       open := None,
       closed := s.closed + [Closed(s.open.value, requested, trade)],
       daily := s.daily[day := DailyPnl(s.daily, day) + trade.pnl],
       losses := if trade.pnl < 0.0 then s.losses + 1 else 0,
       lastLoss := if trade.pnl < 0.0 then Some(at) else None)
  }

  function ExitPhase(e: Engine, s: RunState, c: Candle, at: Instant): RunState
    requires e.Valid()
  {
    match s.open
    case None => s
    case Some(p) =>
      match ResolveCandleExit(p, c)
      case Some(exit) => Settle(e, s, exit.0, at, exit.1)
      case None => s.(open := Some(Advanced(p, c)))
  }

  // What sizing and authorization read from the run.
  datatype Standing = Standing(balance: real, daily: map<int, real>, losses: nat, lastLoss: Option<Instant>)

  function StandingOf(s: RunState): Standing {
    Standing(s.balance, s.daily, s.losses, s.lastLoss)
  }

  function InCooldown(cfg: Config, s: Standing, at: Instant): bool {
    s.lastLoss.Some? && at < s.lastLoss.value + cfg.profile.cooldownMinutes * MINUTE
  }

  function IntentFor(cfg: Config, s: Standing, a: Action, c: Candle, at: Instant): TradeIntent {
    var cooldown := InCooldown(cfg, s, at);
    TradeIntent(a.side, c.close, a.stop, a.target, s.balance, DailyPnl(s.daily, DayOf(at)), 0,
                if s.lastLoss.Some? && !cooldown then 0 else s.losses,
                cfg.leverage, Some(s.balance), a.volatility, a.spread, cooldown)
  }

  // A zero override is falsy in the source, so it falls back to the market fill.
  function FillFor(e: Engine, a: Action, price: real): real {
    if a.entryOverride.Some? && a.entryOverride.value != 0.0 then a.entryOverride.value
    else EntryFill(e, price, a.side)
  }

  function BuyingPower(balance: real, leverage: real): real {
    balance * leverage
  }

  // The final size: the approved size re-capped at the actual fill, truncated to millionths.
  function SizeAtFill(d: RiskDecision, maxNotional: real, buying: real, fill: real, unitRisk: real): real
    requires d.Approved? && fill != 0.0 && unitRisk != 0.0
  {
    var smallest := Min(Min(d.quantity, d.riskAmount / unitRisk), Min(maxNotional / fill, buying / fill));
    QuantizeDown(smallest, QUANTITY_SCALE)
  }

  function EntryAt(e: Engine, a: Action, price: real, at: Instant, fill: real, unitRisk: real, quantity: real,
                   balance: real): Entry {
    var maker := a.entryOverride.Some?;
    Entry(a.side, fill, price, quantity, a.stop, a.target, at, a.score, unitRisk * quantity, unitRisk,
          a.breakEven, a.trailing,
          if a.entryFeeRate.Some? then a.entryFeeRate.value else e.feeRate,
          if maker then 0.0 else price * quantity * e.slippage,
          if maker then 0.0 else price * quantity * e.spread / 2.0,
          balance, !maker && a.entryFeeRate.None?)
  }

  function EntryFor(e: Engine, cfg: Config, s: Standing, a: Action, c: Candle, at: Instant)
    : Result<Option<Entry>, RunError>
    requires e.Valid()
  {
    var decision := Approve(IntentFor(cfg, s, a, c, at), cfg.profile);
    if decision.Refused? then Ok(None)
    else
      var fill := FillFor(e, a, c.close);
      var unitRisk := Abs(fill - a.stop);
      if unitRisk == 0.0 || fill == 0.0 then Err(ArithmeticError)
      else
        var quantity := SizeAtFill(decision, cfg.profile.maxNotional, BuyingPower(s.balance, cfg.leverage), fill,
                                   unitRisk);
        if quantity <= 0.0 then Ok(None)
        else
          Ok(Some(EntryAt(e, a, c.close, at, fill, unitRisk, quantity, s.balance)))
  }

  function EntryPhase(e: Engine, cfg: Config, s: RunState, action: Option<Action>, c: Candle, at: Instant)
    : Result<RunState, RunError>
    requires e.Valid()
  {
    if s.open.Some? || action.None? then Ok(s)
    else
      match EntryFor(e, cfg, StandingOf(s), action.value, c, at)
      case Err(error) => Err(error)
      case Ok(None) => Ok(s)
      case Ok(Some(entry)) => Ok(s.(open := Some(Opened(entry))))
  }

  function MarkPhase(e: Engine, cfg: Config, s: RunState, c: Candle, at: Instant): RunState
    requires e.Valid()
  {
    var unrealized := Unrealized(e, s.open, c.close, at);
    var equity := s.balance + unrealized;
    var peak := Max(s.peak, equity);
    s.(peak := peak,
       points := s.points + [EquityPoint(at, s.balance, equity, peak - equity, s.balance - cfg.startingBalance,
                                         unrealized)])
  }

  // One candle. The strategy is consulted only while no trade is open.
  function Step(e: Engine, cfg: Config, s: RunState, c: Candle, at: Instant, action: Option<Action>)
    : Result<RunState, RunError>
    requires e.Valid()
  {
    match EntryPhase(e, cfg, ExitPhase(e, s, c, at), action, c, at)
    case Err(error) => Err(error)
    case Ok(next) => Ok(MarkPhase(e, cfg, next, c, at))
  }

  // The close time of a candle; bars run forward on validated candles.
  function EventTime(c: Candle, bar: int): Instant {
    MaxInt(0, c.timestamp + bar)
  }

  // The engine state after the first `n` candles.
  function After(e: Engine, cfg: Config, strategy: Strategy, candles: seq<Candle>, n: nat): Result<RunState, RunError>
    requires e.Valid() && n <= |candles|
  {
    if n == 0 then Ok(Initial(cfg))
    else
      match After(e, cfg, strategy, candles, n - 1)
      case Err(error) => Err(error)
      case Ok(s) =>
        var c := candles[n - 1];
        Step(e, cfg, s, c, EventTime(c, cfg.bar), strategy(View(candles, n)))
  }

  // A trade still open after the last candle is closed at its close price, and the last
  // equity point is overwritten.
  function Finish(e: Engine, cfg: Config, s: RunState, last: Candle): RunState
    requires e.Valid() && s.points != []
  {
    match s.open
    case None => s
    case Some(p) =>
      var at := EventTime(last, cfg.bar);
      var trade := Close(e, p.entry, last.close, at, EndOfData);
      var balance := s.balance + trade.pnl;
      var peak := Max(s.peak, balance);
      s.(balance := balance, open := None, closed := s.closed + [Closed(p, last.close, trade)], peak := peak,
         points := s.points[|s.points| - 1 :=
           EquityPoint(at, balance, balance, peak - balance, balance - cfg.startingBalance, 0.0)])
  }

  function Trades(closed: seq<Closed>): (r: seq<Trade>)
    ensures |r| == |closed| && forall i :: 0 <= i < |r| ==> r[i] == closed[i].trade
  {
    seq(|closed|, i requires 0 <= i < |closed| => closed[i].trade)
  }

  // ---------------------------------------------------------------- candle validation

  datatype CandleError = InvalidOhlcv(index: nat) | OutOfOrder(index: nat) | Gap(index: nat)

  predicate SoundCandle(c: Candle) {
    && c.open > 0.0 && c.high > 0.0 && c.low > 0.0 && c.close > 0.0 && c.volume >= 0.0
    && c.low <= c.open && c.low <= c.close
    && c.high >= c.open && c.high >= c.close
  }

  predicate Increasing(candles: seq<Candle>) {
    forall i :: 0 < i < |candles| ==> candles[i - 1].timestamp < candles[i].timestamp
  }

  // `interval` counts whole seconds; zero switches the gap check off.
  predicate EvenlySpaced(candles: seq<Candle>, interval: int) {
    interval != 0 ==>
      forall i :: 0 < i < |candles| ==> candles[i].timestamp - candles[i - 1].timestamp == interval * SECOND
  }

  ghost predicate ValidCandles(candles: seq<Candle>, interval: int) {
    && (forall i :: 0 <= i < |candles| ==> SoundCandle(candles[i]))
    && Increasing(candles)
    && EvenlySpaced(candles, interval)
  }

  ghost predicate Reported(candles: seq<Candle>, interval: int, error: CandleError) {
    && error.index < |candles|
    && match error
       case InvalidOhlcv(i) => !SoundCandle(candles[i])
       case OutOfOrder(i) => i > 0 && candles[i].timestamp <= candles[i - 1].timestamp
       case Gap(i) => i > 0 && interval != 0 && candles[i].timestamp - candles[i - 1].timestamp != interval * SECOND
  }

  // The reported errors are exactly the violations present, so no error means valid candles.
  method ValidateCandles(candles: seq<Candle>, interval: int) returns (errors: seq<CandleError>)
    ensures forall x :: x in errors <==> Reported(candles, interval, x)
    ensures errors == [] <==> ValidCandles(candles, interval)
  {
    errors := [];
    for index := 0 to |candles|
      invariant forall x :: x in errors <==> Reported(candles, interval, x) && x.index < index
    {
      var c := candles[index];
      if Min(Min(c.open, c.high), Min(c.low, c.close)) <= 0.0 || c.volume < 0.0
         || c.low > Min(c.open, c.close) || c.high < Max(c.open, c.close) || c.low > c.high {
        errors := errors + [InvalidOhlcv(index)];
      }
      if index > 0 && c.timestamp <= candles[index - 1].timestamp {
        errors := errors + [OutOfOrder(index)];
      }
      if interval != 0 && index > 0 && c.timestamp - candles[index - 1].timestamp != interval * SECOND {
        errors := errors + [Gap(index)];
      }
    }
    NoErrorsMeansValid(candles, interval, errors);
  }

  lemma NoErrorsMeansValid(candles: seq<Candle>, interval: int, errors: seq<CandleError>)
    requires forall x :: x in errors <==> Reported(candles, interval, x)
    ensures errors == [] <==> ValidCandles(candles, interval)
  {
    if errors != [] {
      assert Reported(candles, interval, errors[0]);
    } else {
      forall i | 0 <= i < |candles|
        ensures SoundCandle(candles[i])
        ensures i > 0 ==> candles[i - 1].timestamp < candles[i].timestamp
        ensures i > 0 && interval != 0 ==> candles[i].timestamp - candles[i - 1].timestamp == interval * SECOND
      {
        assert !Reported(candles, interval, InvalidOhlcv(i));
        assert !Reported(candles, interval, OutOfOrder(i));
        assert !Reported(candles, interval, Gap(i));
      }
    }
  }

  // `int(timedelta.total_seconds())`: truncation toward zero.
  function WholeSeconds(micros: int): int {
    if micros >= 0 then micros / SECOND else -((-micros) / SECOND)
  }

  function BarOf(candles: seq<Candle>): int {
    if |candles| > 1 then candles[1].timestamp - candles[0].timestamp else 0
  }

  // ---------------------------------------------------------------- the candle loop

  datatype BacktestResult = BacktestResult(
    startingBalance: real,
    finalEquity: real,
    trades: seq<Trade>,
    curve: seq<(Instant, real)>,
    points: seq<EquityPoint>)

  function Curve(points: seq<EquityPoint>): (r: seq<(Instant, real)>)
    ensures |r| == |points| && forall i :: 0 <= i < |r| ==> r[i] == (points[i].timestamp, points[i].equity)
  {
    seq(|points|, i requires 0 <= i < |points| => (points[i].timestamp, points[i].equity))
  }

  // The state a run ends in, or why it stops.
  ghost function FinalState(e: Engine, cfg: Config, strategy: Strategy, candles: seq<Candle>)
    : Result<RunState, RunError>
    requires e.Valid()
  {
    if candles == [] then Err(NoCandles)
    else if !ValidCandles(candles, WholeSeconds(cfg.bar)) then Err(InvalidCandles)
    else if cfg.leverage <= 0.0 then Err(LeverageNotPositive)
    else
      match After(e, cfg, strategy, candles, |candles|)
      case Err(error) => Err(error)
      case Ok(s) =>
        AfterPoints(e, cfg, strategy, candles, |candles|);
        Ok(Finish(e, cfg, s, candles[|candles| - 1]))
  }

  function Report(cfg: Config, final: Result<RunState, RunError>): Result<BacktestResult, RunError> {
    match final
    case Err(error) => Err(error)
    case Ok(done) =>
      Ok(BacktestResult(cfg.startingBalance, done.balance, Trades(done.closed), Curve(done.points), done.points))
  }

  lemma AfterPoints(e: Engine, cfg: Config, strategy: Strategy, candles: seq<Candle>, n: nat)
    requires e.Valid() && n <= |candles|
    ensures var r := After(e, cfg, strategy, candles, n); r.Ok? ==> |r.value.points| == n
  {
  }

  // The variables of the candle loop.
  class Books {
    const e: Engine
    const cfg: Config
    var balance: real
    var open: LivePosition?
    var trades: seq<Trade>
    var curve: seq<(Instant, real)>
    var points: seq<EquityPoint>
    var peak: real
    var daily: map<int, real>
    var losses: nat
    var lastLoss: Option<Instant>
    ghost var closed: seq<Closed>

    ghost predicate Valid()
      reads this
    {
      e.Valid() && trades == Trades(closed) && curve == Curve(points)
    }

    function Held(): Option<Position>
      reads this, open
    {
      if open == null then None else Some(open.View())
    }

    ghost function State(): RunState
      reads this, open
    {
      RunState(balance, Held(), closed, points, peak, daily, losses, lastLoss)
    }

    constructor (e: Engine, cfg: Config)
      requires e.Valid()
      ensures Valid() && State() == Initial(cfg) && open == null && this.e == e && this.cfg == cfg
    {
      this.e, this.cfg := e, cfg;
      balance, peak := cfg.startingBalance, cfg.startingBalance;
      open, trades, curve, points, daily, losses, lastLoss, closed := null, [], [], [], map[], 0, None, [];
    }

    method Book(requested: real, at: Instant, reason: ExitReason) returns (trade: Trade)
      requires Valid() && open != null
      modifies this
      ensures Valid() && open == null && trade == Close(e, old(open.entry), requested, at, reason)
      ensures State() == old(State()).(balance := old(balance) + trade.pnl, open := None,
                                       closed := old(closed) + [Closed(old(open.View()), requested, trade)])
    {
      trade := Close(e, open.entry, requested, at, reason);
      balance := balance + trade.pnl;
      trades := trades + [trade];
      closed := closed + [Closed(open.View(), requested, trade)];
      open := null;
    }

    method Exit(c: Candle, at: Instant)
      requires Valid()
      modifies this, open
      ensures Valid() && open in {null, old(open)} && State() == ExitPhase(e, old(State()), c, at)
    {
      if open == null {
        return;
      }
      var exit := ResolveCandleExit(open.View(), c);
      if exit.None? {
        open.AdvanceProtection(c);
        return;
      }
      var trade := Book(exit.value.0, at, exit.value.1);
      daily := daily[DayOf(at) := DailyPnl(daily, DayOf(at)) + trade.pnl];
      losses := if trade.pnl < 0.0 then losses + 1 else 0;
      lastLoss := if trade.pnl < 0.0 then Some(at) else None;
    }

    method Enter(action: Option<Action>, c: Candle, at: Instant) returns (error: Option<RunError>)
      requires Valid()
      modifies this`open
      ensures Valid() && (open == old(open) || fresh(open))
      ensures EntryPhase(e, cfg, old(State()), action, c, at) ==
              if error.Some? then Err(error.value) else Ok(State())
    {
      error := None;
      if open != null || action.None? {
        return;
      }
      match EntryFor(e, cfg, Standing(balance, daily, losses, lastLoss), action.value, c, at) {
        case Err(problem) => error := Some(problem);
        case Ok(None) =>
        case Ok(Some(entry)) => open := new LivePosition(entry);
      }
    }

    method Mark(c: Candle, at: Instant)
      requires Valid()
      modifies this
      ensures Valid() && open == old(open) && State() == MarkPhase(e, cfg, old(State()), c, at)
    {
      var unrealized := Unrealized(e, Held(), c.close, at);
      var equity := balance + unrealized;
      peak := Max(peak, equity);
      curve := curve + [(at, equity)];
      points := points + [EquityPoint(at, balance, equity, peak - equity, balance - cfg.startingBalance, unrealized)];
    }

    method CloseOut(last: Candle, at: Instant)
      requires Valid() && points != [] && at == EventTime(last, cfg.bar)
      modifies this
      ensures Valid() && State() == Finish(e, cfg, old(State()), last)
    {
      if open == null {
        return;
      }
      var _ := Book(last.close, at, EndOfData);
      curve := curve[|curve| - 1 := (at, balance)];
      peak := Max(peak, balance);
      points := points[|points| - 1 :=
        EquityPoint(at, balance, balance, peak - balance, balance - cfg.startingBalance, 0.0)];
    }
  }

  method Run(e: Engine, candles: seq<Candle>, strategy: Strategy, startingBalance: real, profile: RiskProfile,
             leverage: real)
    returns (result: Result<BacktestResult, RunError>)
    requires e.Valid()
    ensures var cfg := Config(startingBalance, profile, leverage, BarOf(candles));
      result == Report(cfg, FinalState(e, cfg, strategy, candles))
  {
    hide ExitPhase, MarkPhase, Finish, EntryFor, ValidCandles;
    if candles == [] {
      return Err(NoCandles);
    }
    var cfg := Config(startingBalance, profile, leverage, BarOf(candles));
    var errors := ValidateCandles(candles, WholeSeconds(cfg.bar));
    if errors != [] {
      return Err(InvalidCandles);
    }
    if leverage <= 0.0 {
      return Err(LeverageNotPositive);
    }
    var books := new Books(e, cfg);
    for index := 0 to |candles|
      invariant fresh(books) && (books.open != null ==> fresh(books.open))
      invariant books.Valid() && books.e == e && books.cfg == cfg
      invariant After(e, cfg, strategy, candles, index) == Ok(books.State())
    {
      var c := candles[index];
      var at := EventTime(c, cfg.bar);
      books.Exit(c, at);
      var action := if books.open == null then strategy(View(candles, index + 1)) else None;
      var error := books.Enter(action, c, at);
      if error.Some? {
        AfterStaysFailed(e, cfg, strategy, candles, index + 1);
        return Err(error.value);
      }
      books.Mark(c, at);
    }
    AfterPoints(e, cfg, strategy, candles, |candles|);
    books.CloseOut(candles[|candles| - 1], EventTime(candles[|candles| - 1], cfg.bar));
    result := Ok(BacktestResult(startingBalance, books.balance, books.trades, books.curve, books.points));
  }

  lemma {:induction false} AfterStaysFailed(e: Engine, cfg: Config, strategy: Strategy, candles: seq<Candle>, n: nat)
    requires e.Valid() && n <= |candles| && After(e, cfg, strategy, candles, n).Err?
    ensures After(e, cfg, strategy, candles, |candles|) == After(e, cfg, strategy, candles, n)
    decreases |candles| - n
  {
    if n < |candles| {
      AfterStaysFailed(e, cfg, strategy, candles, n + 1);
    }
  }
}
