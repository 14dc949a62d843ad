// The daily risk budget of the supervised trading path, native stop management, and the price
// levels and size of an autonomous order.
module RiskBudget {
  import opened Common

  const TAKER_FEE: real := 0.00055
  const SLIPPAGE: real := 0.0002
  const DAILY_CAP: real := 5.0

  const EXIT_COST: real := TAKER_FEE + SLIPPAGE

  datatype Side = Buy | Sell

  datatype Position = Position(side: Side, size: real, entry: real, stop: real, target: real)

  // ---------------------------------------------------------------- planned risk

  predicate ValidProtection(p: Position) {
    && p.entry > 0.0 && p.stop > 0.0 && p.target > 0.0
    && if p.side.Buy? then p.stop < p.entry < p.target else p.target < p.entry < p.stop
  }

  // Price loss to the native stop plus the exit costs at it.
  function PlannedRisk(p: Position): real {
    Abs(p.entry - p.stop) * p.size + p.stop * p.size * EXIT_COST
  }

  function TotalPlanned(positions: seq<Position>): real {
    if positions == [] then 0.0
    else
      var last := positions[|positions| - 1];
      TotalPlanned(positions[..|positions| - 1]) + if last.size <= 0.0 then 0.0 else PlannedRisk(last)
  }

  predicate Protected(p: Position) {
    p.size <= 0.0 || ValidProtection(p)
  }

  // Sums the planned risk, or refuses when any open position lacks valid native protection.
  method OpenPositionsPlannedRisk(positions: seq<Position>) returns (total: Option<real>)
    ensures total.Some? <==> forall i :: 0 <= i < |positions| ==> Protected(positions[i])
    ensures total.Some? ==> total.value == TotalPlanned(positions)
  {
    var sum := 0.0;
    for i := 0 to |positions|
      invariant forall k :: 0 <= k < i ==> Protected(positions[k])
      invariant sum == TotalPlanned(positions[..i])
    {
      var p := positions[i];
      assert positions[..i + 1][..i] == positions[..i];
      if p.size > 0.0 {
        if !ValidProtection(p) {
          return None;
        }
        sum := sum + (Abs(p.entry - p.stop) * p.size + p.stop * p.size * EXIT_COST);
      }
    }
    assert positions[..|positions|] == positions;
    total := Some(sum);
  }

  // What closing at the stop really costs; negative once the stop has locked in a profit.
  function LossAtStop(p: Position): real {
    (if p.side.Buy? then p.entry - p.stop else p.stop - p.entry) * p.size + p.stop * p.size * EXIT_COST
  }

  lemma PlannedIsLossAtStop(p: Position)
    requires ValidProtection(p)
    ensures PlannedRisk(p) == LossAtStop(p)
  {
  }

  predicate Tighter(side: Side, from: real, to: real) {
    if side.Buy? then to > from else to < from
  }

  // Moving a stop toward profit always lowers the loss at the stop; while the stop stays on the
  // losing side of entry, it lowers the planned risk.
  lemma TighteningLowersRisk(p: Position, stop: real)
    requires p.size > 0.0 && Tighter(p.side, p.stop, stop)
    ensures LossAtStop(p.(stop := stop)) < LossAtStop(p)
    ensures ValidProtection(p) && ValidProtection(p.(stop := stop)) ==> PlannedRisk(p.(stop := stop)) < PlannedRisk(p)
  {
    LossFalls(p, stop);
    hide LossAtStop, PlannedRisk;
    if ValidProtection(p) && ValidProtection(p.(stop := stop)) {
      PlannedIsLossAtStop(p);
      PlannedIsLossAtStop(p.(stop := stop));
    }
  }

  lemma LossFalls(p: Position, stop: real)
    requires p.size > 0.0 && Tighter(p.side, p.stop, stop)
    ensures LossAtStop(p.(stop := stop)) < LossAtStop(p)
  {
    StopMoves(p.entry * p.size, p.stop, stop, p.size);
    assert (p.entry - p.stop) * p.size == p.entry * p.size - p.stop * p.size;
    assert (p.entry - stop) * p.size == p.entry * p.size - stop * p.size;
    assert (p.stop - p.entry) * p.size == p.stop * p.size - p.entry * p.size;
    assert (stop - p.entry) * p.size == stop * p.size - p.entry * p.size;
  }

  lemma StopMoves(value: real, from: real, to: real, size: real)
    requires size > 0.0
    ensures to > from ==> value - to * size + to * size * EXIT_COST < value - from * size + from * size * EXIT_COST
    ensures to < from ==> to * size - value + to * size * EXIT_COST < from * size - value + from * size * EXIT_COST
  {
    ScaleOrder(from, to, size);
    ScaleOrder(to, from, size);
  }

  // ---------------------------------------------------------------- native stop management

  datatype Update = Confirmed | Refused | Unconfirmed

  // How the exchange reacts: whether the new stop took effect, and whether the read-back worked.
  datatype Reaction = Reaction(applied: bool, readable: bool)

  predicate MayMove(p: Position, stop: real) {
    && p.size > 0.0 && p.stop > 0.0 && p.target > 0.0 && stop > 0.0
    && Tighter(p.side, p.stop, stop)
  }

  class NativeProtection {
    var position: Option<Position>

    constructor (p: Position)
      ensures position == Some(p)
    {
      position := Some(p);
    }

    // One combined update carrying the present target along with the new stop.
    method Manage(stop: real, reaction: Reaction) returns (update: Update)
      modifies this
      ensures position == ManagedTo(old(position), stop, reaction)
      ensures update == ManageOutcome(old(position), stop, reaction)
    {
      if position.None? {
        return Refused;
      }
      var p := position.value;
      if Min(Min(p.size, p.stop), Min(p.target, stop)) <= 0.0 {
        return Refused;
      }
      if (p.side.Buy? && stop <= p.stop) || (p.side.Sell? && stop >= p.stop) {
        return Refused;
      }
      var target := p.target;
      if reaction.applied {
        position := Some(p.(stop := stop, target := target));
      }
      var verified := reaction.readable && position.value.stop == stop && position.value.target == target;
      update := if verified then Confirmed else Unconfirmed;
    }
  }

  function ManagedTo(position: Option<Position>, stop: real, reaction: Reaction): Option<Position> {
    if position.Some? && MayMove(position.value, stop) && reaction.applied then Some(position.value.(stop := stop))
    else position
  }

  function ManageOutcome(position: Option<Position>, stop: real, reaction: Reaction): Update {
    if position.None? || !MayMove(position.value, stop) then Refused
    else if reaction.applied && reaction.readable then Confirmed
    else Unconfirmed
  }

  // The position after a sequence of update requests, whatever the exchange does with each.
  function AfterUpdates(p: Position, requests: seq<(real, Reaction)>): Position {
    if requests == [] then p
    else
      var (stop, reaction) := requests[|requests| - 1];
      ManagedTo(Some(AfterUpdates(p, requests[..|requests| - 1])), stop, reaction).value
  }

  predicate AtLeastAsTight(side: Side, from: real, to: real) {
    to == from || Tighter(side, from, to)
  }

  // Stops only ever move toward profit and the take-profit never changes; a confirmed update is
  // the requested stop, strictly tighter than any stop before it.
  lemma {:induction false} StopsOnlyTighten(p: Position, requests: seq<(real, Reaction)>)
    ensures var r := AfterUpdates(p, requests);
      r.target == p.target && r.entry == p.entry && r.size == p.size && r.side == p.side
          && AtLeastAsTight(p.side, p.stop, r.stop)
    ensures requests != [] ==>
      var before := AfterUpdates(p, requests[..|requests| - 1]);
      var (stop, reaction) := requests[|requests| - 1];
      ManageOutcome(Some(before), stop, reaction) == Confirmed ==>
        AfterUpdates(p, requests).stop == stop && Tighter(p.side, before.stop, stop) && Tighter(p.side, p.stop, stop)
  {
    if requests != [] {
      StopsOnlyTighten(p, requests[..|requests| - 1]);
    }
  }

  // ---------------------------------------------------------------- the daily budget over runs

  datatype Account = Account(dailyPnl: real, open: seq<Position>)

  datatype Event =
    | Admit(position: Position, planned: real, entryCost: real)
    | Close(index: nat, pnl: real)
    | Tighten(index: nat, stop: real)
    | NewDay

  function RealizedLoss(dailyPnl: real): real {
    Max(0.0, -dailyPnl)
  }

  // The guard: realized loss, open planned risk and the new plan must fit under the cap.
  predicate BudgetAllows(a: Account, planned: real) {
    && (forall i :: 0 <= i < |a.open| ==> Protected(a.open[i]))
    && RealizedLoss(a.dailyPnl) + TotalPlanned(a.open) + planned <= DAILY_CAP
  }

  // Realized PnL of the day's executions, fees taken off.
  function DailyPnl(executions: seq<(real, real)>): real {
    if executions == [] then 0.0
    else
      var (pnl, fee) := executions[|executions| - 1];
      DailyPnl(executions[..|executions| - 1]) + (pnl - Abs(fee))
  }

  // The budget part of the authorization of a new entry.
  method AuthorizeEntry(executions: seq<(real, real)>, positions: seq<Position>, planned: real) returns (allowed: bool)
    ensures allowed == BudgetAllows(Account(DailyPnl(executions), positions), planned)
  {
    var dailyPnl := 0.0;
    for i := 0 to |executions|
      invariant dailyPnl == DailyPnl(executions[..i])
    {
      assert executions[..i + 1][..i] == executions[..i];
      dailyPnl := dailyPnl + (executions[i].0 - Abs(executions[i].1));
    }
    assert executions[..|executions|] == executions;
    var openPlanned := OpenPositionsPlannedRisk(positions);
    allowed := openPlanned.Some? && Max(0.0, -dailyPnl) + openPlanned.value + planned <= DAILY_CAP;
  }

  // The run's assumption: the plan covers entry costs plus the loss at the stop, and a closed
  // position loses no more than its loss at the stop.
  predicate Honest(a: Account, ev: Event) {
    match ev
    case Admit(p, planned, entryCost) =>
      BudgetAllows(a, planned) && p.size > 0.0 && ValidProtection(p) && entryCost >= 0.0
      && entryCost + LossAtStop(p) <= planned
    case Close(i, pnl) => i < |a.open| && pnl >= -Max(0.0, LossAtStop(a.open[i]))
    case Tighten(i, stop) => i < |a.open| && MayMove(a.open[i], stop)
    case NewDay => true
  }

  function Apply(a: Account, ev: Event): Account
    requires Honest(a, ev)
  {
    match ev
    case Admit(p, _, entryCost) => Account(a.dailyPnl - entryCost, a.open + [p])
    case Close(i, pnl) => Account(a.dailyPnl + pnl, a.open[..i] + a.open[i + 1..])
    case Tighten(i, stop) => a.(open := a.open[i := a.open[i].(stop := stop)])
    case NewDay => a.(dailyPnl := 0.0)
  }

  function OpenRisk(open: seq<Position>): real {
    if open == [] then 0.0 else OpenRisk(open[..|open| - 1]) + Max(0.0, LossAtStop(open[|open| - 1]))
  }

  lemma {:induction false} OpenRiskSplits(a: seq<Position>, b: seq<Position>)
    ensures OpenRisk(a + b) == OpenRisk(a) + OpenRisk(b)
  {
    if b == [] {
      assert a + b == a;
    } else {
      OpenRiskSplits(a, b[..|b| - 1]);
      assert (a + b)[..|a + b| - 1] == a + b[..|b| - 1];
    }
  }

  lemma OpenRiskOne(p: Position)
    ensures OpenRisk([p]) == Max(0.0, LossAtStop(p))
  {
    hide LossAtStop;
    assert [p][..0] == [];
  }

  lemma OpenRiskAt(open: seq<Position>, i: nat)
    requires i < |open|
    ensures OpenRisk(open) == OpenRisk(open[..i] + open[i + 1..]) + Max(0.0, LossAtStop(open[i]))
  {
    hide LossAtStop, OpenRisk;
    var front, back := open[..i], open[i + 1..];
    assert open == front + ([open[i]] + back);
    OpenRiskSplits(front, [open[i]] + back);
    OpenRiskSplits([open[i]], back);
    OpenRiskSplits(front, back);
    OpenRiskOne(open[i]);
  }

  lemma {:induction false} PlannedCoversOpenRisk(open: seq<Position>)
    requires forall i :: 0 <= i < |open| ==> open[i].size > 0.0 && ValidProtection(open[i])
    ensures OpenRisk(open) == TotalPlanned(open)
  {
    if open != [] {
      var last := open[|open| - 1];
      PlannedCoversOpenRisk(open[..|open| - 1]);
      PlannedIsLossAtStop(last);
      NonNegativeRisk(last);
    }
  }

  lemma NonNegativeRisk(p: Position)
    requires p.size > 0.0 && ValidProtection(p)
    ensures PlannedRisk(p) >= 0.0
  {
    assert Abs(p.entry - p.stop) * p.size >= 0.0 && p.stop * p.size >= 0.0;
  }

  ghost predicate InBudget(a: Account) {
    && RealizedLoss(a.dailyPnl) + OpenRisk(a.open) <= DAILY_CAP
    && forall i :: 0 <= i < |a.open| ==> a.open[i].size > 0.0
  }

  lemma AdmitKeepsBudget(a: Account, p: Position, planned: real, entryCost: real)
    requires InBudget(a) && Honest(a, Admit(p, planned, entryCost))
    ensures InBudget(Apply(a, Admit(p, planned, entryCost)))
  {
    PlannedCoversOpenRisk(a.open);
    OpenRiskSplits(a.open, [p]);
    OpenRiskOne(p);
    PlannedIsLossAtStop(p);
    NonNegativeRisk(p);
    hide OpenRisk, TotalPlanned, LossAtStop, PlannedRisk, ValidProtection;
  }

  lemma CloseKeepsBudget(a: Account, i: nat, pnl: real)
    requires InBudget(a) && Honest(a, Close(i, pnl))
    ensures InBudget(Apply(a, Close(i, pnl)))
  {
    hide OpenRisk, LossAtStop;
    OpenRiskAt(a.open, i);
  }

  lemma TightenKeepsBudget(a: Account, i: nat, stop: real)
    requires InBudget(a) && Honest(a, Tighten(i, stop))
    ensures InBudget(Apply(a, Tighten(i, stop)))
  {
    hide OpenRisk, LossAtStop, PlannedRisk;
    var after := a.open[i := a.open[i].(stop := stop)];
    TighteningLowersRisk(a.open[i], stop);
    OpenRiskAt(a.open, i);
    OpenRiskAt(after, i);
    assert after[..i] + after[i + 1..] == a.open[..i] + a.open[i + 1..];
  }

  lemma EventKeepsBudget(a: Account, ev: Event)
    requires InBudget(a) && Honest(a, ev)
    ensures InBudget(Apply(a, ev))
  {
    hide OpenRisk, LossAtStop;
    match ev {
      case Admit(p, planned, entryCost) => AdmitKeepsBudget(a, p, planned, entryCost);
      case Close(i, pnl) => CloseKeepsBudget(a, i, pnl);
      case Tighten(i, stop) => TightenKeepsBudget(a, i, stop);
      case NewDay =>
    }
  }

  ghost predicate HonestRun(a: Account, events: seq<Event>)
    decreases |events|
  {
    events == [] || (Honest(a, events[0]) && HonestRun(Apply(a, events[0]), events[1..]))
  }

  ghost function After(a: Account, events: seq<Event>): Account
    requires HonestRun(a, events)
    decreases |events|
  {
    if events == [] then a else After(Apply(a, events[0]), events[1..])
  }

  // Over every honest run the day's realized loss plus what the open stops can still lose stays
  // within the daily cap.
  lemma {:induction false} BudgetHoldsOverRuns(a: Account, events: seq<Event>)
    requires InBudget(a) && HonestRun(a, events)
    ensures InBudget(After(a, events))
    decreases |events|
  {
    if events != [] {
      EventKeepsBudget(a, events[0]);
      hide InBudget, Honest, Apply;
      BudgetHoldsOverRuns(Apply(a, events[0]), events[1..]);
    }
  }

  // A stop moved past entry makes the position count as unprotected, so it blocks every new
  // admission until it closes.
  lemma LockedProfitBlocksAdmission(a: Account, i: nat, planned: real)
    requires i < |a.open| && a.open[i].size > 0.0
    requires if a.open[i].side.Buy? then a.open[i].stop >= a.open[i].entry else a.open[i].stop <= a.open[i].entry
    ensures !BudgetAllows(a, planned)
  {
    assert !Protected(a.open[i]);
  }

  // ---------------------------------------------------------------- levels and size of an order

  const ORDER_NOTIONAL: real := 15.0
  const MIN_DISTANCE: real := 0.001
  const MAX_DISTANCE: real := 0.10

  function FloorTick(x: real, tick: real): real
    requires tick > 0.0
  {
    (x / tick).Floor as real * tick
  }

  function CeilTick(x: real, tick: real): real
    requires tick > 0.0
  {
    -FloorTick(-x, tick)
  }

  lemma FloorTickBounds(x: real, tick: real)
    requires tick > 0.0
    ensures FloorTick(x, tick) <= x && x - tick < FloorTick(x, tick)
  {
    var q := x / tick;
    assert q * tick == x;
    ScaleOrder(q.Floor as real, q, tick);
    ScaleOrder(q - 1.0, q.Floor as real, tick);
    assert (q - 1.0) * tick == q * tick - tick;
    assert x - tick == (q - 1.0) * tick;
    assert FloorTick(x, tick) == q.Floor as real * tick;
  }

  lemma TickBounds(x: real, tick: real)
    requires tick > 0.0
    ensures FloorTick(x, tick) <= x < FloorTick(x, tick) + tick
    ensures x <= CeilTick(x, tick) < x + tick
  {
    FloorTickBounds(x, tick);
    FloorTickBounds(-x, tick);
    hide FloorTick;
  }

  datatype Levels = Levels(stop: real, target: real)

  function Rounded(side: Side, stop: real, target: real, tick: real): Levels
    requires tick > 0.0
  {
    if side.Buy? then Levels(FloorTick(stop, tick), CeilTick(target, tick))
    else Levels(CeilTick(stop, tick), FloorTick(target, tick))
  }

  function ValidatedLevels(side: Side, entry: real, stop: real, target: real, tick: real): Option<Levels>
    requires tick > 0.0
  {
    var l := Rounded(side, stop, target, tick);
    var ordered := if side.Buy? then l.stop < entry < l.target else l.target < entry < l.stop;
    var minimum := Max(entry * MIN_DISTANCE, tick * 2.0);
    var maximum := entry * MAX_DISTANCE;
    if !ordered then None
    else if Abs(entry - l.stop) < minimum || Abs(l.target - entry) < minimum then None
    else if Abs(entry - l.stop) > maximum || Abs(l.target - entry) > maximum then None
    else Some(l)
  }

  // Accepted levels are the requested ones moved outward by less than a tick, on opposite sides
  // of entry and at an admissible distance; in particular the stop is never moved closer.
  lemma LevelsMoveOutward(side: Side, entry: real, stop: real, target: real, tick: real)
    requires tick > 0.0 && ValidatedLevels(side, entry, stop, target, tick).Some?
    ensures var l := ValidatedLevels(side, entry, stop, target, tick).value;
      && (side.Buy? ==> stop - tick < l.stop <= stop && target <= l.target < target + tick && l.stop < entry < l.target)
      && (side.Sell? ==>
            stop <= l.stop < stop + tick && target - tick < l.target <= target && l.target < entry < l.stop)
      && Max(entry * MIN_DISTANCE, tick * 2.0) <= Abs(entry - l.stop) <= entry * MAX_DISTANCE
      && Max(entry * MIN_DISTANCE, tick * 2.0) <= Abs(l.target - entry) <= entry * MAX_DISTANCE
  {
    TickBounds(stop, tick);
    TickBounds(target, tick);
  }

  predicate ClearOfBounds(entry: real, level: real, tick: real) {
    && Max(entry * MIN_DISTANCE, tick * 2.0) <= Abs(entry - level)
    && Abs(entry - level) + tick <= entry * MAX_DISTANCE
  }

  // Requested levels that keep a tick clear of both distance bounds are accepted.
  lemma ClearLevelsAreAccepted(side: Side, entry: real, stop: real, target: real, tick: real)
    requires tick > 0.0
    requires if side.Buy? then stop < entry < target else target < entry < stop
    requires ClearOfBounds(entry, stop, tick) && ClearOfBounds(entry, target, tick)
    ensures ValidatedLevels(side, entry, stop, target, tick).Some?
  {
    TickBounds(stop, tick);
    TickBounds(target, tick);
    hide FloorTick, CeilTick;
  }

  function OrderQuantity(entry: real, step: real): real
    requires entry > 0.0 && step > 0.0
  {
    FloorTick(ORDER_NOTIONAL / entry, step)
  }

  // The order is the largest whole number of steps whose notional stays within the fixed size.
  lemma OrderIsLargestWithinNotional(entry: real, step: real)
    requires entry > 0.0 && step > 0.0
    ensures OrderQuantity(entry, step) * entry <= ORDER_NOTIONAL < (OrderQuantity(entry, step) + step) * entry
  {
    var x := ORDER_NOTIONAL / entry;
    assert x * entry == ORDER_NOTIONAL;
    TickBounds(x, step);
    ScaleOrder(OrderQuantity(entry, step), x, entry);
    ScaleOrder(x, OrderQuantity(entry, step) + step, entry);
  }
}
