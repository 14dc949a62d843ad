// The mandatory authorization point for every trade: ordered refusals, then position sizing.
module RiskApproval {
  import opened Common

  datatype Side = Long | Short

  datatype RiskProfile = RiskProfile(
    riskPerTrade: real,
    maxNotional: real,
    maxLeverage: real,
    maxPositions: int,
    maxDailyLoss: real,
    minRiskReward: real,
    maxConsecutiveLosses: int,
    cooldownMinutes: int,
    maxVolatility: real,
    maxSpread: real)

  datatype TradeIntent = TradeIntent(
    side: Side,
    entry: real,
    stop: real,
    target: real,
    equity: real,
    dailyPnl: real,
    openPositions: int,
    losses: int,
    leverage: real,
    available: Option<real>,
    volatility: real,
    spread: real,
    cooldown: bool)

  datatype Refusal =
    | InvalidEquityOrEntry
    | TooManyPositions
    | LeverageTooHigh
    | ConsecutiveLosses
    | CooldownActive
    | TooVolatile
    | SpreadTooWide
    | DailyLossLimit
    | InvalidStop
    | RiskRewardTooLow
    | SizeIsZero

  datatype RiskDecision = Approved(quantity: real, riskAmount: real) | Refused(reason: Refusal)

  const QUANTITY_SCALE: nat := 1000000
  const MONEY_SCALE: nat := 100

  function UnitRisk(intent: TradeIntent): real {
    if intent.side.Long? then intent.entry - intent.stop else intent.stop - intent.entry
  }

  function UnitReward(intent: TradeIntent): real {
    if intent.side.Long? then intent.target - intent.entry else intent.entry - intent.target
  }

  function RiskAmount(intent: TradeIntent, profile: RiskProfile): real {
    Quantize(intent.equity * profile.riskPerTrade, MONEY_SCALE)
  }

  // The money caps a size must fit: `risk` per unit of stop distance, the others per unit of price.
  datatype Caps = Caps(risk: real, unitRisk: real, price: real, notional: real, leverage: real, balance: real)

  function CapsFor(intent: TradeIntent, profile: RiskProfile): Caps {
    var buying := intent.equity * intent.leverage;
    var balance := match intent.available case Some(cash) => cash * intent.leverage case None => buying;
    Caps(RiskAmount(intent, profile), UnitRisk(intent), intent.entry, profile.maxNotional, buying, balance)
  }

  // The tightest cap, before truncation.
  function LargestSize(caps: Caps): real
    requires caps.price > 0.0 && caps.unitRisk > 0.0
  {
    Min(Min(caps.risk / caps.unitRisk, caps.notional / caps.price),
        Min(caps.leverage / caps.price, caps.balance / caps.price))
  }

  function Approve(intent: TradeIntent, profile: RiskProfile): RiskDecision {
    if intent.equity <= 0.0 || intent.entry <= 0.0 then Refused(InvalidEquityOrEntry)
    else if intent.openPositions >= profile.maxPositions then Refused(TooManyPositions)
    else if intent.leverage > profile.maxLeverage then Refused(LeverageTooHigh)
    else if intent.losses >= profile.maxConsecutiveLosses then Refused(ConsecutiveLosses)
    else if intent.cooldown then Refused(CooldownActive)
    else if intent.volatility > profile.maxVolatility then Refused(TooVolatile)
    else if intent.spread > profile.maxSpread then Refused(SpreadTooWide)
    else if intent.dailyPnl <= -(intent.equity * profile.maxDailyLoss) then Refused(DailyLossLimit)
    else if UnitRisk(intent) <= 0.0 then Refused(InvalidStop)
    else if UnitReward(intent) / UnitRisk(intent) < profile.minRiskReward then Refused(RiskRewardTooLow)
    else
      var caps := CapsFor(intent, profile);
      var quantity := QuantizeDown(LargestSize(caps), QUANTITY_SCALE);
      if quantity <= 0.0 then Refused(SizeIsZero) else Approved(quantity, caps.risk)
  }

  // Every cap a position of `quantity` must respect.
  predicate Fits(caps: Caps, quantity: real) {
    && caps.unitRisk * quantity <= caps.risk
    && caps.price * quantity <= caps.notional
    && caps.price * quantity <= caps.leverage
    && caps.price * quantity <= caps.balance
  }

  lemma FitsIsBelowLargest(caps: Caps, quantity: real)
    requires caps.price > 0.0 && caps.unitRisk > 0.0
    ensures Fits(caps, quantity) <==> quantity <= LargestSize(caps)
  {
    QuotientCap(caps.risk, caps.unitRisk, quantity);
    QuotientCap(caps.notional, caps.price, quantity);
    QuotientCap(caps.leverage, caps.price, quantity);
    QuotientCap(caps.balance, caps.price, quantity);
  }

  lemma QuotientCap(cap: real, divisor: real, quantity: real)
    requires divisor > 0.0
    ensures quantity <= cap / divisor <==> divisor * quantity <= cap
  {
    assert (cap / divisor) * divisor == cap;
    ScaleOrder(quantity, cap / divisor, divisor);
  }

  // The truncated size is the largest multiple of one millionth that the caps allow.
  lemma TruncatedSizeIsLargest(caps: Caps)
    requires caps.price > 0.0 && caps.unitRisk > 0.0 && LargestSize(caps) >= 0.0
    ensures var quantity := QuantizeDown(LargestSize(caps), QUANTITY_SCALE);
      Fits(caps, quantity) && !Fits(caps, quantity + 0.000001)
  {
    var quantity := QuantizeDown(LargestSize(caps), QUANTITY_SCALE);
    FitsIsBelowLargest(caps, quantity);
    FitsIsBelowLargest(caps, quantity + 0.000001);
  }

  lemma RiskAmountNear(intent: TradeIntent, profile: RiskProfile)
    ensures RiskAmount(intent, profile) <= intent.equity * profile.riskPerTrade + 0.005
  {
  }

  // Approval means a positive size that fits every cap while one millionth more would not,
  // and a risk amount within half a cent of the configured share of equity.
  lemma ApprovedSize(intent: TradeIntent, profile: RiskProfile)
    requires Approve(intent, profile).Approved?
    ensures var d := Approve(intent, profile);
      var caps := CapsFor(intent, profile);
      && d.quantity > 0.0
      && Fits(caps, d.quantity)
      && !Fits(caps, d.quantity + 0.000001)
      && d.riskAmount == caps.risk <= intent.equity * profile.riskPerTrade + 0.005
  {
    RiskAmountNear(intent, profile);
    hide Fits, LargestSize, RiskAmount, QuantizeDown, UnitReward;
    TruncatedSizeIsLargest(CapsFor(intent, profile));
  }

  // Approval also means a stop on the losing side, an adequate reward, an unexhausted day,
  // a loss counter below its limit and no cooldown.
  lemma ApprovedGates(intent: TradeIntent, profile: RiskProfile)
    requires Approve(intent, profile).Approved?
    ensures intent.equity > 0.0 && intent.entry > 0.0 && UnitRisk(intent) > 0.0
    ensures UnitReward(intent) >= profile.minRiskReward * UnitRisk(intent)
    ensures intent.dailyPnl > -(intent.equity * profile.maxDailyLoss) && !intent.cooldown
    ensures intent.losses < profile.maxConsecutiveLosses
  {
    RewardQuotient(UnitReward(intent), UnitRisk(intent), profile.minRiskReward);
  }

  lemma RewardQuotient(reward: real, risk: real, minimum: real)
    requires risk > 0.0
    ensures reward / risk < minimum <==> reward < minimum * risk
  {
    assert (reward / risk) * risk == reward;
    ScaleOrder(reward / risk, minimum, risk);
    ScaleOrder(minimum, reward / risk, risk);
  }

  // Everything approval asks for apart from the size.
  predicate Gates(intent: TradeIntent, profile: RiskProfile) {
    && intent.equity > 0.0 && intent.entry > 0.0
    && intent.openPositions < profile.maxPositions
    && intent.leverage <= profile.maxLeverage
    && intent.losses < profile.maxConsecutiveLosses && !intent.cooldown
    && intent.volatility <= profile.maxVolatility && intent.spread <= profile.maxSpread
    && intent.dailyPnl > -(intent.equity * profile.maxDailyLoss)
    && UnitRisk(intent) > 0.0
    && UnitReward(intent) >= profile.minRiskReward * UnitRisk(intent)
  }

  // A trade is approved exactly when it passes every gate and the smallest size fits every cap.
  lemma ApprovedExactly(intent: TradeIntent, profile: RiskProfile)
    ensures Approve(intent, profile).Approved? <==> Gates(intent, profile) && Fits(CapsFor(intent, profile), 0.000001)
  {
    hide Fits, LargestSize, QuantizeDown, RiskAmount;
    if UnitRisk(intent) > 0.0 {
      RewardQuotient(UnitReward(intent), UnitRisk(intent), profile.minRiskReward);
      if intent.entry > 0.0 {
        var caps := CapsFor(intent, profile);
        FitsIsBelowLargest(caps, 0.000001);
        SmallestSize(LargestSize(caps));
      }
    }
  }

  lemma SmallestSize(x: real)
    ensures QuantizeDown(x, QUANTITY_SCALE) > 0.0 <==> x >= 0.000001
  {
    if 0.0 <= x < 0.000001 {
      assert (x * 1000000.0).Floor == 0;
    }
  }

  // While cooldown is reported, the loss counter changes only the stated reason; otherwise a
  // zero counter can never be the reason once the limit is positive.
  lemma LossCounterMatters(intent: TradeIntent, profile: RiskProfile, limit: int)
    requires intent.cooldown || intent.losses == 0
    requires profile.maxConsecutiveLosses > 0 && limit > 0
    ensures var other := Approve(intent, profile.(maxConsecutiveLosses := limit));
      other == Approve(intent, profile) || (other.Refused? && Approve(intent, profile).Refused?)
  {
    assert CapsFor(intent, profile.(maxConsecutiveLosses := limit)) == CapsFor(intent, profile);
  }
}
