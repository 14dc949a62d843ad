// The collector lease: one database row, conditionally taken over, and the belief every process
// holds about its own grant.
module Lease {
  import opened Common

  datatype Flags = Flags(dryRun: bool, live: bool, controlled: bool, approved: bool) {
    // All four switches must allow it.
    function RealOrders(): bool {
      !dryRun && live && controlled && approved
    }
  }

  datatype Row = Row(instance: string, expires: int, restarts: nat, flags: Option<Flags>, realOrders: Option<bool>)

  datatype LeaseError = LeaseLost

  // ---------------------------------------------------------------- transactions as functions

  predicate CanAcquire(row: Option<Row>, instance: string, now: int) {
    row.None? || row.value.instance == instance || row.value.expires <= now
  }

  function Acquired(row: Option<Row>, instance: string, now: int, seconds: int): Row {
    match row
    case None => Row(instance, now + seconds, 0, None, None)
    case Some(r) => Row(instance, now + seconds, r.restarts + 1, None, None)
  }

  predicate Owns(row: Option<Row>, instance: string) {
    row.Some? && row.value.instance == instance
  }

  class CollectorLease {
    var row: Option<Row>

    constructor ()
      ensures row == None
    {
      row := None;
    }

    method Acquire(instance: string, now: int, seconds: int) returns (granted: bool, restarts: nat)
      modifies this
      ensures granted == CanAcquire(old(row), instance, now)
      ensures row == if granted then Some(Acquired(old(row), instance, now, seconds)) else old(row)
      ensures row.Some? && restarts == row.value.restarts
    {
      if row.None? {
        row := Some(Row(instance, now + seconds, 0, None, None));
        return true, 0;
      }
      if row.value.instance != instance && row.value.expires > now {
        return false, row.value.restarts;
      }
      row := Some(Row(instance, now + seconds, row.value.restarts + 1, None, None));
      granted, restarts := true, row.value.restarts;
    }

    method RecordRuntime(instance: string, flags: Flags) returns (outcome: Result<(), LeaseError>)
      modifies this
      ensures outcome.Ok? <==> Owns(old(row), instance)
      ensures row ==
        if outcome.Ok? then Some(old(row).value.(flags := Some(flags), realOrders := Some(flags.RealOrders())))
        else old(row)
    {
      if row.None? || row.value.instance != instance {
        return Err(LeaseLost);
      }
      row := Some(row.value.(flags := Some(flags),
                             realOrders := Some(!flags.dryRun && flags.live && flags.controlled && flags.approved)));
      outcome := Ok(());
    }

    method Heartbeat(instance: string, now: int, seconds: int) returns (outcome: Result<(), LeaseError>)
      modifies this
      ensures outcome.Ok? <==> Owns(old(row), instance)
      ensures row == if outcome.Ok? then Some(old(row).value.(expires := now + seconds)) else old(row)
    {
      if row.None? || row.value.instance != instance {
        return Err(LeaseLost);
      }
      row := Some(row.value.(expires := now + seconds));
      outcome := Ok(());
    }

    method Release(instance: string, now: int)
      modifies this
      ensures row == if Owns(old(row), instance) then Some(old(row).value.(expires := now)) else old(row)
    {
      if row.Some? && row.value.instance == instance {
        row := Some(row.value.(expires := now));
      }
    }
  }

  // ---------------------------------------------------------------- many processes

  datatype Op =
    | Acquire(instance: string, now: int, seconds: int)
    | Record(instance: string, now: int, flags: Flags)
    | Heartbeat(instance: string, now: int, seconds: int)
    | Release(instance: string, now: int)
    | Die(instance: string, now: int)

  // `grants` is what each living process believes: the expiry of its last successful call.
  datatype System = System(row: Option<Row>, grants: map<string, int>, now: int, acquisitions: nat,
                           recorder: Option<string>)

  function Start(now: int): System {
    System(None, map[], now, 0, None)
  }

  function Apply(s: System, op: Op): System {
    match op
    case Acquire(i, now, seconds) =>
      if CanAcquire(s.row, i, now) then
        System(Some(Acquired(s.row, i, now, seconds)), s.grants[i := now + seconds], now, s.acquisitions + 1, None)
      else s.(grants := s.grants - {i}, now := now)
    case Record(i, now, flags) =>
      if Owns(s.row, i) then
        s.(row := Some(s.row.value.(flags := Some(flags), realOrders := Some(flags.RealOrders()))), now := now,
           recorder := Some(i))
      else s.(grants := s.grants - {i}, now := now)
    case Heartbeat(i, now, seconds) =>
      if Owns(s.row, i) then
        s.(row := Some(s.row.value.(expires := now + seconds)), grants := s.grants[i := now + seconds], now := now)
      else s.(grants := s.grants - {i}, now := now)
    case Release(i, now) =>
      s.(row := if Owns(s.row, i) then Some(s.row.value.(expires := now)) else s.row, grants := s.grants - {i},
         now := now)
    case Die(i, now) => s.(grants := s.grants - {i}, now := now)
  }

  function Run(s: System, ops: seq<Op>): System {
    if ops == [] then s else Apply(Run(s, ops[..|ops| - 1]), ops[|ops| - 1])
  }

  predicate Monotone(start: int, ops: seq<Op>) {
    && (ops != [] ==> start <= ops[0].now)
    && (forall i :: 0 < i < |ops| ==> ops[i - 1].now <= ops[i].now)
  }

  // An unexpired belief is the row's own grant; flags on record are the present owner's.
  ghost predicate Inv(s: System) {
    && (forall i :: i in s.grants && s.grants[i] > s.now ==>
          s.row.Some? && s.row.value.instance == i && s.row.value.expires == s.grants[i])
    && (s.row.Some? <==> s.acquisitions > 0)
    && (s.row.Some? ==> s.row.value.restarts == s.acquisitions - 1)
    && (s.row.Some? && s.row.value.flags.Some? ==> s.recorder == Some(s.row.value.instance))
    && (s.row.Some? ==> ConsistentFlags(s.row.value))
  }

  predicate ConsistentFlags(r: Row) {
    r.realOrders == if r.flags.Some? then Some(r.flags.value.RealOrders()) else None
  }

  lemma ApplyKeeps(s: System, op: Op)
    requires Inv(s) && s.now <= op.now
    ensures Inv(Apply(s, op)) && Apply(s, op).now == op.now
  {
  }

  lemma {:induction false} RunKeeps(start: int, ops: seq<Op>)
    requires Monotone(start, ops)
    ensures Inv(Run(Start(start), ops))
    ensures Run(Start(start), ops).now == if ops == [] then start else ops[|ops| - 1].now
  {
    if ops != [] {
      RunKeeps(start, ops[..|ops| - 1]);
      hide Inv, Apply;
      ApplyKeeps(Run(Start(start), ops[..|ops| - 1]), ops[|ops| - 1]);
    }
  }

  // At no moment of any run do two processes both hold an unexpired grant.
  lemma MutualExclusion(start: int, ops: seq<Op>, a: string, b: string)
    requires Monotone(start, ops)
    ensures var s := Run(Start(start), ops);
      a in s.grants && b in s.grants && s.grants[a] > s.now && s.grants[b] > s.now ==> a == b
  {
    RunKeeps(start, ops);
  }

  // A different process takes over only after the previous grant has expired or been released,
  // and then nobody else holds an unexpired one.
  lemma TakeoverEndsOtherGrants(start: int, ops: seq<Op>, instance: string, now: int, seconds: int, other: string)
    requires Monotone(start, ops + [Acquire(instance, now, seconds)])
    requires CanAcquire(Run(Start(start), ops).row, instance, now)
    requires !Owns(Run(Start(start), ops).row, instance)
    ensures var s := Run(Start(start), ops);
      && (s.row.Some? ==> s.row.value.expires <= now)
      && (other in s.grants ==> s.grants[other] <= now)
  {
    var all := ops + [Acquire(instance, now, seconds)];
    assert forall i :: 0 <= i < |ops| ==> all[i] == ops[i];
    assert Monotone(start, ops);
    RunKeeps(start, ops);
    assert Run(Start(start), ops).now <= now by {
      if ops != [] {
        assert all[|ops| - 1].now <= all[|ops|].now;
      }
    }
  }

  // Once it is not the owner, a process stays shut out, its heartbeats failing, until it
  // acquires the lease again.
  lemma {:induction false} LostUntilReacquired(s: System, ops: seq<Op>, instance: string)
    requires s.row.Some? && !Owns(s.row, instance)
    requires forall i :: 0 <= i < |ops| ==> !(ops[i].Acquire? && ops[i].instance == instance)
    ensures Run(s, ops).row.Some? && !Owns(Run(s, ops).row, instance)
    ensures forall now: int, seconds: int ::
      Apply(Run(s, ops), Heartbeat(instance, now, seconds)).row == Run(s, ops).row
  {
    if ops != [] {
      LostUntilReacquired(s, ops[..|ops| - 1], instance);
    }
  }

  // The restart count is the number of successful acquisitions minus one, and the execution flag
  // on record was computed by the present owner from its own switches.
  lemma RowDescribesOwner(start: int, ops: seq<Op>)
    requires Monotone(start, ops) && Run(Start(start), ops).row.Some?
    ensures var s := Run(Start(start), ops);
      && s.row.value.restarts == s.acquisitions - 1
      && (s.row.value.realOrders == Some(true) ==>
            && s.recorder == Some(s.row.value.instance)
            && s.row.value.flags == Some(Flags(false, true, true, true)))
  {
    RunKeeps(start, ops);
  }
}
