// Portfolio admission control: a chain of limits over sums of open positions, and why it is
// inductive over runs of approve-then-add and remove.
module Portfolio {
  import opened Common

  datatype Account = Account(exchange: string, id: string)

  datatype ManagedPosition = ManagedPosition(
    account: Account, symbol: string, positionId: string, long: bool,
    quantity: real, entry: real, leverage: real, stop: real, current: real)
  {
    function Notional(): real {
      current * quantity
    }

    function OpenRisk(): real {
      Abs(entry - stop) * quantity
    }
  }

  datatype AccountLimits = AccountLimits(
    maxExposure: real, maxPositions: int, maxDailyLoss: real, maxNotional: real, maxRiskPerTrade: real)

  datatype GlobalLimits = GlobalLimits(
    maxExposure: real, maxLeverage: real, maxOpenRisk: real, maxDailyLoss: real, maxCorrelated: real)

  datatype Proposal = Proposal(account: Account, symbol: string, notional: real, leverage: real, openRisk: real)

  datatype Refusal =
    | ExchangeUnavailable
    | NoEquity
    | BadExposure
    | BadLeverage
    | NotionalTooLarge
    | RiskTooLarge
    | TooManyPositions
    | AccountExposure
    | AccountDailyLoss
    | GlobalDailyLoss
    | TotalExposure
    | TotalLeverage
    | TotalOpenRisk
    | CorrelatedGroup

  datatype Decision = Allow | Refuse(reason: Refusal)

  // An insertion-ordered dictionary from accounts to amounts.
  type Amounts = seq<(Account, real)>

  function Lookup(amounts: Amounts, account: Account): real {
    if amounts == [] then 0.0
    else if amounts[0].0 == account then amounts[0].1
    else Lookup(amounts[1..], account)
  }

  function TotalOf(amounts: Amounts): real {
    if amounts == [] then 0.0 else amounts[0].1 + TotalOf(amounts[1..])
  }

  // The part of a symbol before its first slash.
  function BaseOf(symbol: string): string {
    if symbol == "" || symbol[0] == '/' then "" else [symbol[0]] + BaseOf(symbol[1..])
  }

  function GroupOf(symbol: string): string {
    if BaseOf(symbol) == "BTC" || BaseOf(symbol) == "ETH" then "CRYPTO_MAJOR" else symbol
  }

  // ---------------------------------------------------------------- what the limits measure

  datatype Measure =
    | Exposure
    | Leveraged
    | OpenRisk
    | AccountExposureOf(account: Account)
    | AccountPositions(account: Account)
    | GroupExposure(group: string)

  function Weight(m: Measure, p: ManagedPosition): real {
    match m
    case Exposure => p.Notional()
    case Leveraged => p.Notional() * p.leverage
    case OpenRisk => p.OpenRisk()
    case AccountExposureOf(account) => if p.account == account then p.Notional() else 0.0
    case AccountPositions(account) => if p.account == account then 1.0 else 0.0
    case GroupExposure(group) => if GroupOf(p.symbol) == group then p.Notional() else 0.0
  }

  function Sum(m: Measure, positions: seq<ManagedPosition>): real {
    if positions == [] then 0.0
    else Sum(m, positions[..|positions| - 1]) + Weight(m, positions[|positions| - 1])
  }

  function CountIn(account: Account, positions: seq<ManagedPosition>): nat {
    if positions == [] then 0
    else CountIn(account, positions[..|positions| - 1]) + if positions[|positions| - 1].account == account then 1 else 0
  }

  datatype Setting = Setting(equity: Amounts, account: AccountLimits, all: GlobalLimits)

  // What may differ from one approval to the next.
  datatype Conditions = Conditions(available: bool, dailyPnl: Amounts)

  function Limit(c: Setting, m: Measure): real {
    match m
    case Exposure => TotalOf(c.equity) * c.all.maxExposure
    case Leveraged => TotalOf(c.equity) * c.all.maxLeverage
    case OpenRisk => TotalOf(c.equity) * c.all.maxOpenRisk
    case AccountExposureOf(account) => Lookup(c.equity, account) * c.account.maxExposure
    case AccountPositions(_) => c.account.maxPositions as real
    case GroupExposure(_) => TotalOf(c.equity) * c.all.maxCorrelated
  }

  // ---------------------------------------------------------------- approval

  method CorrelatedExposure(proposal: Proposal, positions: seq<ManagedPosition>) returns (exposure: real)
    ensures exposure == proposal.notional + Sum(GroupExposure(GroupOf(proposal.symbol)), positions)
  {
    var group := GroupOf(proposal.symbol);
    exposure := proposal.notional;
    for i := 0 to |positions|
      invariant exposure == proposal.notional + Sum(GroupExposure(group), positions[..i])
    {
      assert positions[..i + 1][..i] == positions[..i];
      if GroupOf(positions[i].symbol) == group {
        exposure := exposure + positions[i].Notional();
      }
    }
    assert positions[..|positions|] == positions;
  }

  function Approve(c: Setting, now: Conditions, proposal: Proposal, positions: seq<ManagedPosition>): Decision {
    var equity := Lookup(c.equity, proposal.account);
    var total := TotalOf(c.equity);
    if !now.available then Refuse(ExchangeUnavailable)
    else if equity <= 0.0 || total <= 0.0 then Refuse(NoEquity)
    else if proposal.notional <= 0.0 || proposal.openRisk <= 0.0 then Refuse(BadExposure)
    else if proposal.leverage <= 0.0 then Refuse(BadLeverage)
    else if proposal.notional > c.account.maxNotional then Refuse(NotionalTooLarge)
    else if proposal.openRisk > equity * c.account.maxRiskPerTrade then Refuse(RiskTooLarge)
    else if CountIn(proposal.account, positions) >= c.account.maxPositions then Refuse(TooManyPositions)
    else if Sum(AccountExposureOf(proposal.account), positions) + proposal.notional
            > Limit(c, AccountExposureOf(proposal.account)) then Refuse(AccountExposure)
    else if Lookup(now.dailyPnl, proposal.account) <= -(equity * c.account.maxDailyLoss) then Refuse(AccountDailyLoss)
    else if TotalOf(now.dailyPnl) <= -(total * c.all.maxDailyLoss) then Refuse(GlobalDailyLoss)
    else if Sum(Exposure, positions) + proposal.notional > Limit(c, Exposure) then Refuse(TotalExposure)
    else if (Sum(Leveraged, positions) + proposal.notional * proposal.leverage) / total > c.all.maxLeverage
        then Refuse(TotalLeverage)
    else if Sum(OpenRisk, positions) + proposal.openRisk > Limit(c, OpenRisk) then Refuse(TotalOpenRisk)
    else if proposal.notional + Sum(GroupExposure(GroupOf(proposal.symbol)), positions)
            > Limit(c, GroupExposure(GroupOf(proposal.symbol))) then Refuse(CorrelatedGroup)
    else Allow
  }

  // ---------------------------------------------------------------- the manager

  predicate SamePosition(a: ManagedPosition, b: ManagedPosition) {
    a.account == b.account && a.positionId == b.positionId
  }

  datatype BookError = DuplicatePosition | UnknownPosition

  function IndexOf(positions: seq<ManagedPosition>, account: Account, id: string): (i: nat)
    ensures i <= |positions|
    ensures i < |positions| ==> positions[i].account == account && positions[i].positionId == id
    ensures forall k :: 0 <= k < i ==> !(positions[k].account == account && positions[k].positionId == id)
  {
    if positions == [] || (positions[0].account == account && positions[0].positionId == id) then 0
    else 1 + IndexOf(positions[1..], account, id)
  }

  function Without(positions: seq<ManagedPosition>, i: nat): seq<ManagedPosition>
    requires i < |positions|
  {
    positions[..i] + positions[i + 1..]
  }

  // The source keeps an insertion-ordered dictionary keyed by exchange, account and position id.
  class PortfolioManager {
    var positions: seq<ManagedPosition>

    ghost predicate Valid()
      reads this
    {
      forall i, j :: 0 <= i < j < |positions| ==> !SamePosition(positions[i], positions[j])
    }

    constructor ()
      ensures Valid() && positions == []
    {
      positions := [];
    }

    method Add(p: ManagedPosition) returns (outcome: Result<(), BookError>)
      requires Valid()
      modifies this
      ensures Valid()
      ensures outcome.Ok? <==> forall i :: 0 <= i < |old(positions)| ==> !SamePosition(old(positions)[i], p)
      ensures positions == if outcome.Ok? then old(positions) + [p] else old(positions)
    {
      if IndexOf(positions, p.account, p.positionId) < |positions| {
        return Err(DuplicatePosition);
      }
      positions := positions + [p];
      outcome := Ok(());
    }

    method Remove(account: Account, id: string) returns (removed: Result<ManagedPosition, BookError>)
      requires Valid()
      modifies this
      ensures Valid()
      ensures var i := IndexOf(old(positions), account, id);
        if i == |old(positions)| then removed == Err(UnknownPosition) && positions == old(positions)
        else removed == Ok(old(positions)[i]) && positions == Without(old(positions), i)
      ensures removed.Ok? ==> forall k :: 0 <= k < |positions| ==> !SamePosition(positions[k], removed.value)
    {
      var i := IndexOf(positions, account, id);
      if i == |positions| {
        return Err(UnknownPosition);
      }
      removed := Ok(positions[i]);
      positions := Without(positions, i);
    }
  }

  // ---------------------------------------------------------------- limits over runs

  // Every measure that is in use at all is within its limit.
  ghost predicate WithinLimits(c: Setting, positions: seq<ManagedPosition>) {
    && (forall m: Measure :: Sum(m, positions) > 0.0 ==> Sum(m, positions) <= Limit(c, m))
    && (forall i :: 0 <= i < |positions| ==> Admissible(positions[i]))
  }

  predicate Admissible(p: ManagedPosition) {
    p.Notional() > 0.0 && p.leverage > 0.0 && p.OpenRisk() > 0.0
  }

  // The position opened for a proposal carries exactly the proposed exposure.
  predicate Fulfils(p: ManagedPosition, proposal: Proposal) {
    && p.account == proposal.account && p.symbol == proposal.symbol
    && p.Notional() == proposal.notional && p.leverage == proposal.leverage && p.OpenRisk() == proposal.openRisk
  }

  lemma SumAppend(m: Measure, positions: seq<ManagedPosition>, p: ManagedPosition)
    ensures Sum(m, positions + [p]) == Sum(m, positions) + Weight(m, p)
  {
  }

  lemma {:induction false} SumConcat(m: Measure, a: seq<ManagedPosition>, b: seq<ManagedPosition>)
    ensures Sum(m, a + b) == Sum(m, a) + Sum(m, b)
  {
    hide Weight;
    if b == [] {
      assert a + b == a;
    } else {
      SumConcat(m, a, b[..|b| - 1]);
      assert a + b == a + b[..|b| - 1] + [b[|b| - 1]];
      SumAppend(m, a + b[..|b| - 1], b[|b| - 1]);
    }
  }

  lemma SumWithout(m: Measure, positions: seq<ManagedPosition>, i: nat)
    requires i < |positions|
    ensures Sum(m, Without(positions, i)) == Sum(m, positions) - Weight(m, positions[i])
  {
    hide Weight, Sum;
    assert positions == positions[..i] + [positions[i]] + positions[i + 1..];
    SumConcat(m, positions[..i] + [positions[i]], positions[i + 1..]);
    SumAppend(m, positions[..i], positions[i]);
    SumConcat(m, positions[..i], positions[i + 1..]);
  }

  lemma WeightNonNegative(m: Measure, p: ManagedPosition)
    requires Admissible(p)
    ensures Weight(m, p) >= 0.0
  {
  }

  lemma LeverageExceeds(sum: real, total: real, limit: real)
    requires total > 0.0
    ensures sum / total > limit <==> sum > total * limit
  {
    assert sum / total * total == sum;
    ScaleOrder(limit, sum / total, total);
  }

  // The measures a proposal weighs in, with its weight.
  function ProposedWeight(m: Measure, proposal: Proposal): real {
    match m
    case Exposure => proposal.notional
    case Leveraged => proposal.notional * proposal.leverage
    case OpenRisk => proposal.openRisk
    case AccountExposureOf(account) => if account == proposal.account then proposal.notional else 0.0
    case AccountPositions(account) => if account == proposal.account then 1.0 else 0.0
    case GroupExposure(group) => if group == GroupOf(proposal.symbol) then proposal.notional else 0.0
  }

  lemma FulfilledWeight(m: Measure, p: ManagedPosition, proposal: Proposal)
    requires Fulfils(p, proposal)
    ensures Weight(m, p) == ProposedWeight(m, proposal)
  {
  }

  // What approval says, measure by measure: the new sum is within the limit wherever the
  // proposal weighs in.
  lemma ApprovalCovers(c: Setting, now: Conditions, proposal: Proposal, positions: seq<ManagedPosition>, m: Measure)
    requires Approve(c, now, proposal, positions) == Allow
    ensures ProposedWeight(m, proposal) == 0.0 || Sum(m, positions) + ProposedWeight(m, proposal) <= Limit(c, m)
    ensures proposal.notional > 0.0 && proposal.leverage > 0.0 && proposal.openRisk > 0.0
  {
    hide Sum, CountIn, Lookup, TotalOf, GroupOf;
    if m == Leveraged {
      LeverageExceeds(Sum(Leveraged, positions) + proposal.notional * proposal.leverage, TotalOf(c.equity),
                      c.all.maxLeverage);
    } else if m.AccountPositions? && m.account == proposal.account {
      PositionCount(m.account, positions);
    }
  }

  // What approval asks of a proposal apart from the sums it adds to.
  predicate Eligible(c: Setting, now: Conditions, proposal: Proposal) {
    var equity, total := Lookup(c.equity, proposal.account), TotalOf(c.equity);
    && now.available && equity > 0.0 && total > 0.0
    && proposal.notional > 0.0 && proposal.openRisk > 0.0 && proposal.leverage > 0.0
    && proposal.notional <= c.account.maxNotional
    && proposal.openRisk <= equity * c.account.maxRiskPerTrade
    && Lookup(now.dailyPnl, proposal.account) > -(equity * c.account.maxDailyLoss)
    && TotalOf(now.dailyPnl) > -(total * c.all.maxDailyLoss)
  }

  // A proposal is allowed exactly when it is eligible and every sum it weighs in on stays within
  // its limit.
  lemma ApprovedExactly(c: Setting, now: Conditions, proposal: Proposal, positions: seq<ManagedPosition>)
    ensures Approve(c, now, proposal, positions) == Allow <==>
      Eligible(c, now, proposal)
      && forall m: Measure :: ProposedWeight(m, proposal) > 0.0
          ==> Sum(m, positions) + ProposedWeight(m, proposal) <= Limit(c, m)
  {
    hide Sum, CountIn, Lookup, TotalOf, GroupOf;
    if Approve(c, now, proposal, positions) == Allow {
      forall m: Measure | ProposedWeight(m, proposal) > 0.0
        ensures Sum(m, positions) + ProposedWeight(m, proposal) <= Limit(c, m)
      {
        ApprovalCovers(c, now, proposal, positions, m);
      }
    } else if Eligible(c, now, proposal) {
      RefusalExceeds(c, now, proposal, positions);
    }
  }

  // An eligible proposal is refused only over a sum that it would push past its limit.
  lemma RefusalExceeds(c: Setting, now: Conditions, proposal: Proposal, positions: seq<ManagedPosition>)
    requires Eligible(c, now, proposal) && Approve(c, now, proposal, positions) != Allow
    ensures exists m: Measure ::
      ProposedWeight(m, proposal) > 0.0 && Sum(m, positions) + ProposedWeight(m, proposal) > Limit(c, m)
  {
    hide Sum, CountIn, Lookup, TotalOf, GroupOf;
    PositionCount(proposal.account, positions);
    var weight := proposal.notional * proposal.leverage;
    assert weight > 0.0;
    LeverageExceeds(Sum(Leveraged, positions) + weight, TotalOf(c.equity), c.all.maxLeverage);
    var m := match Approve(c, now, proposal, positions).reason
      case TooManyPositions => AccountPositions(proposal.account)
      case AccountExposure => AccountExposureOf(proposal.account)
      case TotalExposure => Exposure
      case TotalLeverage => Leveraged
      case TotalOpenRisk => OpenRisk
      case _ => GroupExposure(GroupOf(proposal.symbol));
    assert Sum(m, positions) + ProposedWeight(m, proposal) > Limit(c, m);
  }

  lemma {:induction false} PositionCount(account: Account, positions: seq<ManagedPosition>)
    ensures Sum(AccountPositions(account), positions) == CountIn(account, positions) as real
  {
    if positions != [] {
      PositionCount(account, positions[..|positions| - 1]);
    }
  }

  lemma ApprovedAddKeepsLimits(c: Setting, now: Conditions, proposal: Proposal, positions: seq<ManagedPosition>,
                               p: ManagedPosition)
    requires WithinLimits(c, positions)
    requires Approve(c, now, proposal, positions) == Allow && Fulfils(p, proposal)
    ensures WithinLimits(c, positions + [p])
  {
    forall m: Measure
      ensures Sum(m, positions + [p]) > 0.0 ==> Sum(m, positions + [p]) <= Limit(c, m)
    {
      hide Approve, Weight, Fulfils, Limit, ProposedWeight, Sum;
      assert Sum(m, positions) > 0.0 ==> Sum(m, positions) <= Limit(c, m);
      SumAppend(m, positions, p);
      FulfilledWeight(m, p, proposal);
      ApprovalCovers(c, now, proposal, positions, m);
    }
    ApprovalCovers(c, now, proposal, positions, Exposure);
    hide Approve, Sum, Limit;
  }

  lemma RemoveKeepsLimits(c: Setting, positions: seq<ManagedPosition>, i: nat)
    requires WithinLimits(c, positions) && i < |positions|
    ensures WithinLimits(c, Without(positions, i))
  {
    hide Weight, Limit;
    forall m: Measure
      ensures Sum(m, Without(positions, i)) > 0.0 ==> Sum(m, Without(positions, i)) <= Limit(c, m)
    {
      SumWithout(m, positions, i);
      WeightNonNegative(m, positions[i]);
    }
  }

  datatype Event = Admit(now: Conditions, proposal: Proposal, position: ManagedPosition)
      | Remove(account: Account, id: string)

  // Refused proposals and unknown keys change nothing.
  function Apply(c: Setting, positions: seq<ManagedPosition>, ev: Event): seq<ManagedPosition> {
    match ev
    case Admit(now, proposal, p) =>
      if Approve(c, now, proposal, positions) == Allow && Fulfils(p, proposal)
         && IndexOf(positions, p.account, p.positionId) == |positions| then positions + [p] else positions
    case Remove(account, id) =>
      var i := IndexOf(positions, account, id);
      if i < |positions| then Without(positions, i) else positions
  }

  function Run(c: Setting, events: seq<Event>): seq<ManagedPosition> {
    if events == [] then [] else Apply(c, Run(c, events[..|events| - 1]), events[|events| - 1])
  }

  // With fixed equity and prices, but daily PnL and exchange health as they come, any sequence of
  // approve-then-add and remove keeps every sum in use within its limit: per-account exposure and
  // count, total and leveraged exposure, open risk, and the exposure of every correlation group.
  lemma {:induction false} LimitsHoldOverRuns(c: Setting, events: seq<Event>)
    ensures WithinLimits(c, Run(c, events))
  {
    if events == [] {
      assert forall m: Measure :: Sum(m, []) == 0.0;
    } else {
      var before, ev := Run(c, events[..|events| - 1]), events[|events| - 1];
      LimitsHoldOverRuns(c, events[..|events| - 1]);
      hide WithinLimits, Approve, Fulfils;
      match ev {
        case Admit(now, proposal, p) =>
          if Approve(c, now, proposal, before) == Allow && Fulfils(p, proposal) {
            ApprovedAddKeepsLimits(c, now, proposal, before, p);
          }
        case Remove(account, id) =>
          if IndexOf(before, account, id) < |before| {
            RemoveKeepsLimits(c, before, IndexOf(before, account, id));
          }
      }
    }
  }

  // The limits read as the operator states them.
  lemma LimitsAsStated(c: Setting, events: seq<Event>, account: Account, group: string)
    requires TotalOf(c.equity) > 0.0 && Lookup(c.equity, account) > 0.0
    requires c.account.maxExposure >= 0.0 && c.account.maxPositions >= 0
    requires c.all.maxExposure >= 0.0 && c.all.maxLeverage >= 0.0 && c.all.maxOpenRisk >= 0.0
        && c.all.maxCorrelated >= 0.0
    ensures var ps := Run(c, events);
      && CountIn(account, ps) <= c.account.maxPositions
      && Sum(AccountExposureOf(account), ps) <= Lookup(c.equity, account) * c.account.maxExposure
      && Sum(Exposure, ps) <= TotalOf(c.equity) * c.all.maxExposure
      && Sum(Leveraged, ps) <= TotalOf(c.equity) * c.all.maxLeverage
      && Sum(OpenRisk, ps) <= TotalOf(c.equity) * c.all.maxOpenRisk
      && Sum(GroupExposure(group), ps) <= TotalOf(c.equity) * c.all.maxCorrelated
  {
    LimitsHoldOverRuns(c, events);
    var ps := Run(c, events);
    PositionCount(account, ps);
    hide Run, Weight, Sum, CountIn, TotalOf, Lookup;
    InUseOrZero(c, ps, AccountPositions(account));
    InUseOrZero(c, ps, AccountExposureOf(account));
    InUseOrZero(c, ps, Exposure);
    InUseOrZero(c, ps, Leveraged);
    InUseOrZero(c, ps, OpenRisk);
    InUseOrZero(c, ps, GroupExposure(group));
  }

  lemma InUseOrZero(c: Setting, positions: seq<ManagedPosition>, m: Measure)
    requires WithinLimits(c, positions) && TotalOf(c.equity) > 0.0
    requires m.AccountExposureOf? ==> Lookup(c.equity, m.account) > 0.0
    requires c.account.maxExposure >= 0.0 && c.account.maxPositions >= 0
    requires c.all.maxExposure >= 0.0 && c.all.maxLeverage >= 0.0 && c.all.maxOpenRisk >= 0.0
        && c.all.maxCorrelated >= 0.0
    ensures Sum(m, positions) <= Limit(c, m)
  {
    hide Sum, Weight, TotalOf, Lookup;
    if Sum(m, positions) <= 0.0 {
      assert Limit(c, m) >= 0.0;
    }
  }
}
