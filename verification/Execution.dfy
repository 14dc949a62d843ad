// Autonomous order execution against an arbitrary gateway: claim, submit, protect or close, and
// the scan that spends free position slots on candidates.
module Execution {
  import opened Common

  // The exception classes the code tells apart. Cancellation of the task is the one that the
  // handlers for ordinary exceptions let through.
  datatype Failure = Blocked | Rejected | Other | Cancelled

  datatype Outcome<+T> = Done(value: T) | Raised(failure: Failure)

  // `identified` is whether the state row exists and the stored profile and selection hashes are
  // those of the running profile.
  datatype Preview = Preview(
    proposalId: string, proposalHash: string, symbol: string, clientOrderId: string, fromAI: bool, identified: bool)

  datatype Fill = Fill(orderId: string, positionId: string, quantity: real)

  datatype LivePosition = LivePosition(positionId: string, symbol: string, quantity: real)

  datatype GatewaySnapshot = GatewaySnapshot(fillOrderIds: set<string>, positions: seq<LivePosition>)

  // How the gateway would answer each call during one execution: any behaviour is possible.
  datatype Gateway = Gateway(
    submit: Outcome<Fill>,
    install: Outcome<()>,
    verify: Outcome<bool>,
    close: Outcome<()>,
    snapshot: Outcome<GatewaySnapshot>)

  datatype ProposalStatus =
    Approved | Submitting | RejectedOrder | Unknown | FilledUnprotected | EmergencyClosed | Protected

  datatype Proposal = Proposal(hash: string, status: ProposalStatus)

  // What is true of a confirmed fill at the exchange, as far as the gateway confirmed it.
  datatype Exposure = Bare | VerifiedProtected | ConfirmedClosed

  datatype FillRecord = FillRecord(clientOrderId: string, symbol: string, exposure: Exposure)

  // Durable proposals, order ledger and kill switch, plus the log of what reached the exchange.
  datatype Books = Books(
    proposals: map<string, Proposal>,
    ledger: set<string>,
    killSwitch: bool,
    submitted: seq<string>,
    fills: seq<FillRecord>)

  // ---------------------------------------------------------------- one execution

  predicate CanClaim(b: Books, p: Preview) {
    && p.fromAI && p.identified
    && p.proposalId in b.proposals
    && b.proposals[p.proposalId] == Proposal(p.proposalHash, Approved)
    && !b.killSwitch
    && p.clientOrderId !in b.ledger
  }

  function Marked(b: Books, p: Preview, status: ProposalStatus): Books {
    if p.proposalId in b.proposals then
      b.(proposals := b.proposals[p.proposalId := b.proposals[p.proposalId].(status := status)])
    else b
  }

  function Killed(b: Books): Books {
    b.(killSwitch := true)
  }

  function Submitted(b: Books, p: Preview): Books {
    Marked(b, p, Submitting).(ledger := b.ledger + {p.clientOrderId}, submitted := b.submitted + [p.clientOrderId])
  }

  function WithFill(b: Books, p: Preview, exposure: Exposure): Books {
    b.(fills := b.fills + [FillRecord(p.clientOrderId, p.symbol, exposure)])
  }

  predicate Reconciled(p: Preview, fill: Fill, s: GatewaySnapshot) {
    && fill.orderId in s.fillOrderIds
    && exists i :: 0 <= i < |s.positions| && s.positions[i] == LivePosition(fill.positionId, p.symbol, fill.quantity)
  }

  predicate ProtectionConfirmed(g: Gateway) {
    g.install.Done? && g.verify == Done(true)
  }

  // Cancelled while protection is being installed or verified.
  predicate ProtectionCancelled(g: Gateway) {
    g.install == Raised(Cancelled) || (g.install.Done? && g.verify == Raised(Cancelled))
  }

  // What happens to a confirmed fill.
  function Guarded(sent: Books, p: Preview, g: Gateway, fill: Fill): (Books, Outcome<Fill>) {
    if ProtectionCancelled(g) then
      (Marked(WithFill(sent, p, Bare), p, FilledUnprotected), Raised(Cancelled))
    else if !ProtectionConfirmed(g) then
      match g.close
      case Raised(Cancelled) => (Marked(WithFill(sent, p, Bare), p, FilledUnprotected), Raised(Cancelled))
      case Raised(_) => (Killed(Marked(WithFill(sent, p, Bare), p, Unknown)), Raised(Other))
      case Done(_) => (Killed(Marked(WithFill(sent, p, ConfirmedClosed), p, EmergencyClosed)), Raised(Other))
    else
      var safe := WithFill(sent, p, VerifiedProtected);
      match g.snapshot
      case Raised(failure) => (Marked(safe, p, FilledUnprotected), Raised(failure))
      case Done(s) =>
        if Reconciled(p, fill, s) then (Marked(safe, p, Protected), Done(fill))
        else (Killed(Marked(safe, p, Unknown)), Raised(Other))
  }

  function Executed(b: Books, p: Preview, g: Gateway): (Books, Outcome<Fill>) {
    if !CanClaim(b, p) then (b, Raised(Blocked))
    else
      var sent := Submitted(b, p);
      match g.submit
      case Raised(Cancelled) => (sent, Raised(Cancelled))
      case Raised(Other) => (Killed(Marked(sent, p, Unknown)), Raised(Other))
      case Raised(failure) => (Marked(sent, p, RejectedOrder), Raised(failure))
      case Done(fill) =>
        if fill.quantity <= 0.0 then (Killed(Marked(sent, p, Unknown)), Raised(Other))
        else Guarded(sent, p, g, fill)
  }

  class ExecutionService {
    var proposals: map<string, Proposal>
    var ledger: set<string>
    var killSwitch: bool
    ghost var submitted: seq<string>
    ghost var fills: seq<FillRecord>

    ghost function View(): Books
      reads this
    {
      Books(proposals, ledger, killSwitch, submitted, fills)
    }

    constructor (proposals: map<string, Proposal>)
      ensures View() == Books(proposals, {}, false, [], [])
    {
      this.proposals := proposals;
      ledger, killSwitch, submitted, fills := {}, false, [], [];
    }

    method Mark(p: Preview, status: ProposalStatus)
      modifies this`proposals
      ensures View() == Marked(old(View()), p, status)
    {
      if p.proposalId in proposals {
        proposals := proposals[p.proposalId := proposals[p.proposalId].(status := status)];
      }
    }

    // Reserves the order; nothing changes when the reservation is refused.
    method ClaimSubmission(p: Preview) returns (claimed: bool)
      modifies this
      ensures claimed == CanClaim(old(View()), p)
      ensures View() == if claimed then Submitted(old(View()), p) else old(View())
    {
      if !p.fromAI || !p.identified || p.proposalId !in proposals
         || proposals[p.proposalId] != Proposal(p.proposalHash, Approved) || killSwitch || p.clientOrderId in ledger {
        return false;
      }
      Mark(p, Submitting);
      ledger := ledger + {p.clientOrderId};
      submitted := submitted + [p.clientOrderId];
      claimed := true;
    }

    method Execute(p: Preview, g: Gateway) returns (r: Outcome<Fill>)
      modifies this
      ensures (View(), r) == Executed(old(View()), p, g)
    {
      var claimed := ClaimSubmission(p);
      if !claimed {
        return Raised(Blocked);
      }
      if g.submit.Raised? {
        match g.submit.failure {
          case Cancelled =>
          case Other =>
            Mark(p, Unknown);
            killSwitch := true;
          case _ => Mark(p, RejectedOrder);
        }
        return Raised(g.submit.failure);
      }
      if g.submit.value.quantity <= 0.0 {
        Mark(p, Unknown);
        killSwitch := true;
        return Raised(Other);
      }
      r := Guard(p, g, g.submit.value);
    }

    // From a confirmed fill on: protect it, or close it, then reconcile.
    method Guard(p: Preview, g: Gateway, fill: Fill) returns (r: Outcome<Fill>)
      requires p.proposalId in proposals
      modifies this
      ensures (View(), r) == Guarded(old(View()), p, g, fill)
    {
      Mark(p, FilledUnprotected);
      if g.install == Raised(Cancelled) || (g.install.Done? && g.verify == Raised(Cancelled)) {
        fills := fills + [FillRecord(p.clientOrderId, p.symbol, Bare)];
        return Raised(Cancelled);
      }
      var protected := g.install.Done? && g.verify.Done? && g.verify.value;
      if !protected {
        if g.close == Raised(Cancelled) {
          fills := fills + [FillRecord(p.clientOrderId, p.symbol, Bare)];
          return Raised(Cancelled);
        }
        if g.close.Raised? {
          fills := fills + [FillRecord(p.clientOrderId, p.symbol, Bare)];
          Mark(p, Unknown);
        } else {
          fills := fills + [FillRecord(p.clientOrderId, p.symbol, ConfirmedClosed)];
          Mark(p, EmergencyClosed);
        }
        killSwitch := true;
        assert proposals == Marked(old(View()), p, if g.close.Raised? then Unknown else EmergencyClosed).proposals;
        return Raised(Other);
      }
      fills := fills + [FillRecord(p.clientOrderId, p.symbol, VerifiedProtected)];
      if g.snapshot.Raised? {
        return Raised(g.snapshot.failure);
      }
      if !Reconciled(p, fill, g.snapshot.value) {
        Mark(p, Unknown);
        killSwitch := true;
        assert proposals == Marked(old(View()), p, Unknown).proposals;
        return Raised(Other);
      }
      Mark(p, Protected);
      assert proposals == Marked(old(View()), p, Protected).proposals;
      r := Done(fill);
    }
  }

  // ---------------------------------------------------------------- safety of executions

  // No order id reached the exchange twice, and each one is in the ledger.
  ghost predicate OrdersOk(b: Books) {
    && (forall i, j :: 0 <= i < j < |b.submitted| ==> b.submitted[i] != b.submitted[j])
    && (forall i :: 0 <= i < |b.submitted| ==> b.submitted[i] in b.ledger)
  }

  ghost predicate HasBareFill(b: Books) {
    exists i :: 0 <= i < |b.fills| && b.fills[i].exposure == Bare
  }

  // Every confirmed fill is verified protected, confirmed closed, or covered by the kill switch.
  ghost predicate Safe(b: Books) {
    OrdersOk(b) && (HasBareFill(b) ==> b.killSwitch)
  }

  // The one way an execution ends with an uncovered fill: the order was sent and filled, and the
  // task was cancelled while protection was installed or verified, or while the emergency close
  // of an unprotected fill was under way.
  predicate CutShort(b: Books, p: Preview, g: Gateway) {
    && CanClaim(b, p)
    && g.submit.Done? && g.submit.value.quantity > 0.0
    && (ProtectionCancelled(g) || (!ProtectionConfirmed(g) && g.close == Raised(Cancelled)))
  }

  // The durable status of an execution that reached the exchange tells what became of it.
  predicate StatusTells(b: Books, after: Books, status: ProposalStatus, r: Outcome<Fill>, p: Preview) {
    match status
    case Submitting => after.fills == b.fills && r == Raised(Cancelled) && !after.killSwitch
    case RejectedOrder => after.fills == b.fills && r.Raised? && !after.killSwitch
    case Unknown => r == Raised(Other) && after.killSwitch
    case EmergencyClosed => Filled(b, after, p, ConfirmedClosed) && r == Raised(Other) && after.killSwitch
    case FilledUnprotected =>
      && (Filled(b, after, p, VerifiedProtected) || (Filled(b, after, p, Bare) && r == Raised(Cancelled)))
      && r.Raised? && !after.killSwitch
    case Protected => Filled(b, after, p, VerifiedProtected) && r.Done? && !after.killSwitch
    case Approved => false
  }

  predicate Filled(b: Books, after: Books, p: Preview, exposure: Exposure) {
    after.fills == b.fills + [FillRecord(p.clientOrderId, p.symbol, exposure)]
  }

  lemma OrdersStayOk(b: Books, p: Preview, g: Gateway)
    requires OrdersOk(b)
    ensures OrdersOk(Executed(b, p, g).0)
  {
    hide Reconciled, ProtectionCancelled, ProtectionConfirmed;
  }

  // Whatever the books were: without the kill switch a bare fill is there exactly when it was
  // there before or this execution was cut short.
  lemma ExecutionExposes(b: Books, p: Preview, g: Gateway)
    ensures var after := Executed(b, p, g).0;
      && (b.killSwitch ==> after == b)
      && (!after.killSwitch ==> (HasBareFill(after) <==> HasBareFill(b) || CutShort(b, p, g)))
      && (CutShort(b, p, g) ==> !after.killSwitch)
  {
    hide Reconciled;
    var after := Executed(b, p, g).0;
    assert b.fills <= after.fills;
    if i :| 0 <= i < |b.fills| && b.fills[i].exposure == Bare {
      assert after.fills[i].exposure == Bare;
    }
    if CutShort(b, p, g) {
      assert after.fills[|b.fills|].exposure == Bare;
    }
  }

  // For every gateway behaviour, cancellation included: safety is kept if and only if the
  // execution is not cut short. An active kill switch stays and stops all submissions, an
  // unconfirmed outcome activates it, and success means a protected fill.
  lemma ExecutionIsSafe(b: Books, p: Preview, g: Gateway)
    requires Safe(b)
    ensures Safe(Executed(b, p, g).0) <==> !CutShort(b, p, g)
    ensures var (after, r) := Executed(b, p, g);
      && OrdersOk(after)
      && (b.killSwitch ==> after == b)
      && (g.submit == Raised(Other) && after.submitted != b.submitted ==> after.killSwitch)
      && (r.Done? ==> Filled(b, after, p, VerifiedProtected) && after.proposals[p.proposalId].status == Protected)
      && (after.submitted != b.submitted ==> StatusTells(b, after, after.proposals[p.proposalId].status, r, p))
      && (after.submitted != b.submitted <==> CanClaim(b, p))
      && b.submitted <= after.submitted && b.fills <= after.fills
      && |after.fills| - |b.fills| <= |after.submitted| - |b.submitted| <= 1
  {
    ExecutionExposes(b, p, g);
    OrdersStayOk(b, p, g);
    hide Reconciled, OrdersOk, HasBareFill;
  }

  // A fill whose protection was cancelled during installation: bare, with trading still allowed.
  lemma CancelledInstallLeavesBareFill()
    ensures var p := Preview("A", "hash", "A", "A", true, true);
      var g := Gateway(Done(Fill("order", "position", 1.0)), Raised(Cancelled), Done(true), Done(()),
                       Raised(Cancelled));
      var b := Books(map["A" := Proposal("hash", Approved)], {}, false, [], []);
      var (after, r) := Executed(b, p, g);
      && Safe(b) && !Safe(after)
      && after.fills == [FillRecord("A", "A", Bare)] && !after.killSwitch
      && after.proposals["A"].status == FilledUnprotected && r == Raised(Cancelled)
  {
    var p := Preview("A", "hash", "A", "A", true, true);
    var g := Gateway(Done(Fill("order", "position", 1.0)), Raised(Cancelled), Done(true), Done(()), Raised(Cancelled));
    var b := Books(map["A" := Proposal("hash", Approved)], {}, false, [], []);
    assert CutShort(b, p, g);
    ExecutionIsSafe(b, p, g);
  }

  datatype Call = Call(preview: Preview, gateway: Gateway)

  function Executions(b: Books, calls: seq<Call>): Books {
    if calls == [] then b
    else Executed(Executions(b, calls[..|calls| - 1]), calls[|calls| - 1].preview, calls[|calls| - 1].gateway).0
  }

  // Some call of the sequence was cut short.
  predicate EverCutShort(b: Books, calls: seq<Call>) {
    calls != [] &&
    var before, last := calls[..|calls| - 1], calls[|calls| - 1];
    EverCutShort(b, before) || CutShort(Executions(b, before), last.preview, last.gateway)
  }

  // Over any sequence of executions, restarts included, since everything needed is durable: the
  // end is safe if and only if no call was cut short or a later one has set the kill switch.
  lemma {:induction false} EveryRunIsSafe(b: Books, calls: seq<Call>)
    requires Safe(b)
    ensures var after := Executions(b, calls);
      && OrdersOk(after)
      && (Safe(after) <==> after.killSwitch || !EverCutShort(b, calls))
      && (!after.killSwitch ==> (HasBareFill(after) <==> EverCutShort(b, calls)))
      && (b.killSwitch ==> after == b)
  {
    if calls != [] {
      var before, last := calls[..|calls| - 1], calls[|calls| - 1];
      EveryRunIsSafe(b, before);
      OrdersStayOk(Executions(b, before), last.preview, last.gateway);
      ExecutionExposes(Executions(b, before), last.preview, last.gateway);
      hide Executed, OrdersOk, HasBareFill, CutShort;
    }
  }

  // So the books are safe after every call if and only if none was cut short.
  lemma {:induction false} SafeThroughout(b: Books, calls: seq<Call>)
    requires Safe(b)
    ensures (forall n :: 0 <= n <= |calls| ==> Safe(Executions(b, calls[..n]))) <==> !EverCutShort(b, calls)
  {
    hide Executed, OrdersOk, HasBareFill, CutShort, Safe;
    assert calls[..|calls|] == calls;
    if calls != [] {
      var before, last := calls[..|calls| - 1], calls[|calls| - 1];
      SafeThroughout(b, before);
      assert forall n :: 0 <= n <= |before| ==> calls[..n] == before[..n];
      if Safe(Executions(b, before)) {
        ExecutionIsSafe(Executions(b, before), last.preview, last.gateway);
      }
    }
  }

  // ---------------------------------------------------------------- a scan

  const MAX_POSITIONS: int := 3

  // A candidate decision: what its gates produced, how the gateway would behave, and whether
  // the notification after a success goes through.
  datatype Candidate = Candidate(symbol: string, gates: Outcome<Preview>, gateway: Gateway, notify: Outcome<()>) {
    predicate Valid() {
      gates.Done? ==> gates.value.symbol == symbol
    }
  }

  // A cancelled scan leaves its candidate without a final disposition: Interrupted.
  datatype Disposition = MaxPositions | ExistingPosition | FilledProtected | BlockedHere | FailedClosed | Interrupted

  datatype Scan = Scan(books: Books, free: int, open: set<string>)

  function OnFailure(failure: Failure): Disposition {
    match failure
    case Blocked => BlockedHere
    case Cancelled => Interrupted
    case _ => FailedClosed
  }

  predicate Ends(d: Disposition) {
    d == FailedClosed || d == Interrupted
  }

  // What one candidate does to the scan.
  function Tried(s: Scan, c: Candidate): (Scan, Disposition) {
    if s.free <= 0 then (s, MaxPositions)
    else if c.symbol in s.open then (s, ExistingPosition)
    else
      match c.gates
      case Raised(failure) => (s, OnFailure(failure))
      case Done(p) =>
        var (books, r) := Executed(s.books, p, c.gateway);
        var after := s.(books := books);
        if r.Raised? then (after, OnFailure(r.failure))
        else if c.notify.Raised? then (after, OnFailure(c.notify.failure))
        else (after.(free := s.free - 1, open := s.open + {c.symbol}), FilledProtected)
  }

  // Candidates in order until one fails closed or the scan is cancelled.
  function Scanned(s: Scan, candidates: seq<Candidate>): (Scan, seq<Disposition>)
    decreases |candidates|
  {
    if candidates == [] then (s, [])
    else
      var (next, d) := Tried(s, candidates[0]);
      if Ends(d) then (next, [d])
      else
        var (last, rest) := Scanned(next, candidates[1..]);
        (last, [d] + rest)
  }

  // A scan whose first dispositions are already known.
  function After(sofar: seq<Disposition>, rest: (Scan, seq<Disposition>)): (Scan, seq<Disposition>) {
    (rest.0, sofar + rest.1)
  }

  function FreeSlots(openPositions: int): int {
    MaxInt(0, MAX_POSITIONS - openPositions)
  }

  method ExecuteCandidates(service: ExecutionService, candidates: seq<Candidate>, openSymbols: set<string>,
                           openPositions: int)
    returns (dispositions: seq<Disposition>, ghost last: Scan)
    modifies service
    ensures (last, dispositions)
        == Scanned(Scan(old(service.View()), FreeSlots(openPositions), openSymbols), candidates)
    ensures last.books == service.View()
  {
    var open := openSymbols;
    var free := MaxInt(0, MAX_POSITIONS - openPositions);
    dispositions := [];
    ghost var start := Scan(service.View(), free, open);
    assert candidates[0..] == candidates && [] + Scanned(start, candidates).1 == Scanned(start, candidates).1;
    for i := 0 to |candidates|
      invariant Scanned(start, candidates)
          == After(dispositions, Scanned(Scan(service.View(), free, open), candidates[i..]))
    {
      var c := candidates[i];
      assert candidates[i..][1..] == candidates[i + 1..];
      ghost var before := Scan(service.View(), free, open);
      ghost var expected := Tried(before, c);
      ghost var sofar := dispositions;
      if free <= 0 {
        dispositions := dispositions + [MaxPositions];
      } else if c.symbol in open {
        dispositions := dispositions + [ExistingPosition];
      } else {
        var failure: Option<Failure> := if c.gates.Raised? then Some(c.gates.failure) else None;
        if c.gates.Done? {
          var r := service.Execute(c.gates.value, c.gateway);
          if r.Raised? {
            failure := Some(r.failure);
          } else if c.notify.Raised? {
            failure := Some(c.notify.failure);
          } else {
            free := free - 1;
            open := open + {c.symbol};
          }
        }
        assert expected.0 == Scan(service.View(), free, open);
        if failure == None {
          dispositions := dispositions + [FilledProtected];
        } else if failure.value == Blocked {
          dispositions := dispositions + [BlockedHere];
        } else {
          dispositions := dispositions + [if failure.value == Cancelled then Interrupted else FailedClosed];
          last := Scan(service.View(), free, open);
          return;
        }
      }
      assert dispositions == sofar + [expected.1];
      StepOfScan(before, candidates[i..], sofar);
    }
    last := Scan(service.View(), free, open);
    assert dispositions + [] == dispositions;
  }

  lemma StepOfScan(s: Scan, candidates: seq<Candidate>, sofar: seq<Disposition>)
    requires candidates != [] && !Ends(Tried(s, candidates[0]).1)
    ensures var (next, d) := Tried(s, candidates[0]);
      After(sofar, Scanned(s, candidates)) == After(sofar + [d], Scanned(next, candidates[1..]))
  {
    hide Tried;
    var (next, d) := Tried(s, candidates[0]);
    var more := Scanned(next, candidates[1..]).1;
    assert sofar + ([d] + more) == sofar + [d] + more;
  }

  // ---------------------------------------------------------------- slots over a scan

  function FillsIn(s: Scan, candidates: seq<Candidate>): int {
    |Scanned(s, candidates).0.books.fills| - |s.books.fills|
  }

  // The gates pass and the exchange confirms a fill, so it is filled whenever it is claimed.
  predicate WouldFill(c: Candidate) {
    && c.gates.Done? && c.gates.value.fromAI && c.gates.value.identified
    && c.gateway.submit.Done? && c.gateway.submit.value.quantity > 0.0
  }

  // The candidate would be filled and protected, but a ControlledLiveBlocked raised afterwards,
  // by the reconciliation snapshot or the notifier, makes the scan treat it as never submitted.
  predicate BlockedAfterFill(c: Candidate) {
    && WouldFill(c) && ProtectionConfirmed(c.gateway)
    && match c.gateway.snapshot
       case Raised(failure) => failure == Blocked
       case Done(s) => c.notify == Raised(Blocked) && Reconciled(c.gates.value, c.gateway.submit.value, s)
  }

  // A filled candidate keeps its slot unspent, with the scan going on, exactly when it was
  // blocked after the fill.
  lemma BlockedFillsAreLate(s: Scan, c: Candidate)
    ensures var (after, d) := Tried(s, c);
      && (|after.books.fills| > |s.books.fills| ==> (d == BlockedHere <==> BlockedAfterFill(c)))
      && (|after.books.fills| > |s.books.fills| ==> d == FilledProtected || Ends(d) || d == BlockedHere)
      && (d == FilledProtected ==>
            after.free == s.free - 1 && after.open == s.open + {c.symbol} && |after.books.fills| > |s.books.fills|)
      && (d != FilledProtected ==> after.free == s.free && after.open == s.open)
      && (d == MaxPositions || d == ExistingPosition ==> after == s)
      && |s.books.fills| <= |after.books.fills| <= |s.books.fills| + 1
      && s.books.fills <= after.books.fills
      && (|after.books.fills| > |s.books.fills| ==> s.free > 0 && WouldFill(c))
      && (c.Valid() && |after.books.fills| > |s.books.fills| ==>
            c.symbol !in s.open && after.books.fills[|s.books.fills|].symbol == c.symbol)
  {
    hide Reconciled;
  }

  // The fills along the scan that did not end as FilledProtected, and so spent no slot.
  function UnspentFills(s: Scan, candidates: seq<Candidate>): nat
    decreases |candidates|
  {
    if candidates == [] then 0
    else
      var (next, d) := Tried(s, candidates[0]);
      (if d != FilledProtected && |next.books.fills| > |s.books.fills| then 1 else 0)
      + if Ends(d) then 0 else UnspentFills(next, candidates[1..])
  }

  // The exact account of a scan: its fills are the slots it spent plus the unspent fills. So they
  // stay within the free slots if and only if the unspent fills are no more than the slots left.
  lemma {:induction false} SlotsAreExact(s: Scan, candidates: seq<Candidate>)
    ensures var last := Scanned(s, candidates).0;
      && FillsIn(s, candidates) == s.free - last.free + UnspentFills(s, candidates)
      && (FillsIn(s, candidates) <= s.free <==> UnspentFills(s, candidates) <= last.free)
      && last.free <= s.free && (s.free >= 0 ==> last.free >= 0)
    decreases |candidates|
  {
    if candidates != [] {
      BlockedFillsAreLate(s, candidates[0]);
      var (next, d) := Tried(s, candidates[0]);
      hide Tried;
      if !Ends(d) {
        SlotsAreExact(next, candidates[1..]);
      }
    }
  }

  function LateBlocks(candidates: seq<Candidate>): nat
    decreases |candidates|
  {
    if candidates == [] then 0 else (if BlockedAfterFill(candidates[0]) then 1 else 0) + LateBlocks(candidates[1..])
  }

  // Hence at most the free slots plus the late blocks, whatever the books.
  lemma {:induction false} FillsWithinSlots(s: Scan, candidates: seq<Candidate>)
    requires s.free >= 0
    ensures FillsIn(s, candidates) <= s.free + LateBlocks(candidates)
    decreases |candidates|
  {
    if candidates != [] {
      BlockedFillsAreLate(s, candidates[0]);
      var (next, d) := Tried(s, candidates[0]);
      hide Tried, BlockedAfterFill, WouldFill;
      if !Ends(d) {
        FillsWithinSlots(next, candidates[1..]);
      }
    }
  }

  ghost predicate DistinctSymbols(candidates: seq<Candidate>) {
    forall i, j :: 0 <= i < j < |candidates| ==> candidates[i].symbol != candidates[j].symbol
  }

  // Previews that share neither a proposal nor an order id.
  predicate Unrelated(a: Candidate, b: Candidate) {
    a.gates.Done? && b.gates.Done? ==>
      a.gates.value.proposalId != b.gates.value.proposalId && a.gates.value.clientOrderId != b.gates.value.clientOrderId
  }

  ghost predicate UnrelatedOrders(candidates: seq<Candidate>) {
    forall i, j :: 0 <= i < j < |candidates| ==> Unrelated(candidates[i], candidates[j])
  }

  // A late-blocking candidate with one after it that would be filled.
  ghost predicate LateBlockThenFill(candidates: seq<Candidate>) {
    exists i, j :: 0 <= i < j < |candidates| && BlockedAfterFill(candidates[i]) && WouldFill(candidates[j])
  }

  // No books, open symbols and slot count for which the candidates are filled beyond the slots.
  ghost predicate NeverExceeds(candidates: seq<Candidate>) {
    forall s: Scan :: s.free >= 0 ==> FillsIn(s, candidates) <= s.free
  }

  // A list of distinct symbols and orders can never be filled beyond the slots if and only if no
  // candidate that is blocked after its fill is followed by one that would be filled.
  lemma SlotsHoldExactly(candidates: seq<Candidate>)
    requires DistinctSymbols(candidates) && UnrelatedOrders(candidates)
    ensures NeverExceeds(candidates) <==> !LateBlockThenFill(candidates)
  {
    hide FillsIn, BlockedAfterFill, WouldFill;
    if LateBlockThenFill(candidates) {
      var i, j :| 0 <= i < j < |candidates| && BlockedAfterFill(candidates[i]) && WouldFill(candidates[j]);
      var s := LateBlockExceeds(candidates, i, j);
    } else {
      forall s: Scan | s.free >= 0
        ensures FillsIn(s, candidates) <= s.free
      {
        NoLateBlockHolds(s, candidates);
      }
    }
  }

  // In particular nothing exceeds the slots when no candidate is blocked after a fill.
  lemma NoLateBlockNeverExceeds(candidates: seq<Candidate>)
    requires forall i :: 0 <= i < |candidates| ==> !BlockedAfterFill(candidates[i])
    ensures NeverExceeds(candidates)
  {
    forall s: Scan | s.free >= 0
      ensures FillsIn(s, candidates) <= s.free
    {
      NoLateBlockHolds(s, candidates);
    }
  }

  lemma {:induction false} NothingToFill(s: Scan, candidates: seq<Candidate>)
    requires forall i :: 0 <= i < |candidates| ==> !WouldFill(candidates[i])
    ensures FillsIn(s, candidates) == 0
    decreases |candidates|
  {
    if candidates != [] {
      BlockedFillsAreLate(s, candidates[0]);
      var (next, d) := Tried(s, candidates[0]);
      hide Tried, WouldFill;
      if !Ends(d) {
        NothingToFill(next, candidates[1..]);
      }
    }
  }

  lemma LateBlockThenFillTail(candidates: seq<Candidate>)
    requires candidates != [] && !LateBlockThenFill(candidates)
    ensures !LateBlockThenFill(candidates[1..])
    ensures BlockedAfterFill(candidates[0]) ==> forall j :: 0 <= j < |candidates| - 1 ==> !WouldFill(candidates[1..][j])
  {
    hide BlockedAfterFill, WouldFill;
    var rest := candidates[1..];
    assert forall j :: 0 <= j < |rest| ==> rest[j] == candidates[j + 1];
  }

  lemma {:induction false} NoLateBlockHolds(s: Scan, candidates: seq<Candidate>)
    requires s.free >= 0 && !LateBlockThenFill(candidates)
    ensures FillsIn(s, candidates) <= s.free
    decreases |candidates|
  {
    if candidates != [] {
      BlockedFillsAreLate(s, candidates[0]);
      var (next, d) := Tried(s, candidates[0]);
      LateBlockThenFillTail(candidates);
      hide Tried, BlockedAfterFill, WouldFill, LateBlockThenFill;
      if !Ends(d) {
        NoLateBlockHolds(next, candidates[1..]);
        if BlockedAfterFill(candidates[0]) {
          NothingToFill(next, candidates[1..]);
        }
      }
    }
  }

  // Candidates whose symbols are open are passed over.
  lemma {:induction false} OpenSymbolsAreSkipped(s: Scan, candidates: seq<Candidate>, n: nat)
    requires n <= |candidates| && s.free > 0
    requires forall m :: 0 <= m < n ==> candidates[m].symbol in s.open
    ensures Scanned(s, candidates).0 == Scanned(s, candidates[n..]).0
    decreases n
  {
    if n == 0 {
      assert candidates[0..] == candidates;
    } else {
      OpenSymbolsAreSkipped(s, candidates[1..], n - 1);
      assert candidates[1..][n - 1..] == candidates[n..];
    }
  }

  lemma {:induction false} FillsStay(s: Scan, candidates: seq<Candidate>)
    ensures FillsIn(s, candidates) >= 0
    decreases |candidates|
  {
    if candidates != [] {
      BlockedFillsAreLate(s, candidates[0]);
      var (next, d) := Tried(s, candidates[0]);
      hide Tried;
      if !Ends(d) {
        FillsStay(next, candidates[1..]);
      }
    }
  }

  // Books in which the proposals of two candidates are approved and nothing has been sent yet.
  function FreshBooks(a: Preview, b: Preview): Books {
    Books(map[a.proposalId := Proposal(a.proposalHash, Approved), b.proposalId := Proposal(b.proposalHash, Approved)],
          {}, false, [], [])
  }

  lemma FirstIsBlockedLate(s: Scan, a: Candidate, b: Candidate)
    requires BlockedAfterFill(a) && WouldFill(b) && Unrelated(a, b)
    requires s.books == FreshBooks(a.gates.value, b.gates.value) && s.free > 0 && a.symbol !in s.open
    ensures var (next, d) := Tried(s, a);
      && d == BlockedHere && |next.books.fills| == 1 && next.free == s.free && next.open == s.open
      && CanClaim(next.books, b.gates.value)
  {
    hide Reconciled;
  }

  lemma SecondIsFilled(s: Scan, b: Candidate)
    requires WouldFill(b) && CanClaim(s.books, b.gates.value) && s.free > 0 && b.symbol !in s.open
    ensures |Tried(s, b).0.books.fills| == |s.books.fills| + 1
  {
    hide Reconciled;
  }

  // A scan that gets to candidate `n` goes on from what that candidate does.
  lemma ScanGetsTo(s: Scan, candidates: seq<Candidate>, n: nat)
    requires n < |candidates| && s.free > 0
    requires forall m :: 0 <= m < n ==> candidates[m].symbol in s.open
    ensures var (next, d) := Tried(s, candidates[n]);
      Scanned(s, candidates).0 == if Ends(d) then next else Scanned(next, candidates[n + 1..]).0
  {
    hide Tried;
    OpenSymbolsAreSkipped(s, candidates, n);
    assert candidates[n..][1..] == candidates[n + 1..];
  }

  // One slot, two fills: everything but the two candidates is held open.
  lemma LateBlockExceeds(candidates: seq<Candidate>, i: nat, j: nat) returns (s: Scan)
    requires DistinctSymbols(candidates) && UnrelatedOrders(candidates)
    requires i < j < |candidates| && BlockedAfterFill(candidates[i]) && WouldFill(candidates[j])
    ensures s.free == 1 && FillsIn(s, candidates) >= 2
  {
    var a, b := candidates[i], candidates[j];
    assert Unrelated(a, b);
    var others := set m | 0 <= m < |candidates| && m != i && m != j :: candidates[m].symbol;
    assert a.symbol !in others && b.symbol !in others;
    s := Scan(FreshBooks(a.gates.value, b.gates.value), 1, others);
    FirstIsBlockedLate(s, a, b);
    hide FreshBooks, BlockedAfterFill, WouldFill, CanClaim, Unrelated, DistinctSymbols, UnrelatedOrders, Tried, Scanned;
    ScanGetsTo(s, candidates, i);
    var next := Tried(s, a).0;
    var rest := candidates[i + 1..];
    assert rest[j - i - 1] == b;
    SecondFills(next, rest, j - i - 1);
  }

  lemma SecondFills(s: Scan, candidates: seq<Candidate>, n: nat)
    requires n < |candidates| && s.free > 0 && candidates[n].symbol !in s.open
    requires WouldFill(candidates[n]) && CanClaim(s.books, candidates[n].gates.value)
    requires forall m :: 0 <= m < n ==> candidates[m].symbol in s.open
    ensures FillsIn(s, candidates) >= 1
  {
    SecondIsFilled(s, candidates[n]);
    hide Tried, WouldFill, CanClaim, Scanned;
    ScanGetsTo(s, candidates, n);
    FillsStay(Tried(s, candidates[n]).0, candidates[n + 1..]);
  }

  // Filled symbols were not open before, and with distinct candidates none is filled twice.
  lemma {:induction false} FillsHitNewSymbols(s: Scan, candidates: seq<Candidate>)
    requires DistinctSymbols(candidates) && forall i :: 0 <= i < |candidates| ==> candidates[i].Valid()
    ensures var (last, _) := Scanned(s, candidates);
      var n := |s.books.fills|;
      && n <= |last.books.fills| && last.books.fills[..n] == s.books.fills
      && (forall k :: n <= k < |last.books.fills| ==>
            && last.books.fills[k].symbol !in s.open
            && exists i :: 0 <= i < |candidates| && candidates[i].symbol == last.books.fills[k].symbol)
      && (forall k, m :: n <= k < m < |last.books.fills| ==> last.books.fills[k].symbol != last.books.fills[m].symbol)
    decreases |candidates|
  {
    if candidates != [] {
      BlockedFillsAreLate(s, candidates[0]);
      var (next, d) := Tried(s, candidates[0]);
      hide Tried, BlockedAfterFill, WouldFill;
      var rest := candidates[1..];
      if !Ends(d) {
        FillsHitNewSymbols(next, rest);
        assert forall i :: 0 <= i < |rest| ==> rest[i] == candidates[i + 1];
        var (last, _) := Scanned(next, rest);
        var n, m := |s.books.fills|, |next.books.fills|;
        assert last.books.fills[..n] == next.books.fills[..n];
        assert m == n + 1 ==> last.books.fills[n] == next.books.fills[n];
      }
    }
  }

  // A failed-closed or cancelled candidate is the last one looked at.
  lemma {:induction false} NothingAfterFailure(s: Scan, candidates: seq<Candidate>)
    ensures var (_, dispositions) := Scanned(s, candidates);
      && |dispositions| <= |candidates|
      && (forall i :: 0 <= i < |dispositions| - 1 ==> !Ends(dispositions[i]))
      && (|dispositions| < |candidates| ==> dispositions != [] && Ends(dispositions[|dispositions| - 1]))
    decreases |candidates|
  {
    hide Tried;
    if candidates != [] && !Ends(Tried(s, candidates[0]).1) {
      NothingAfterFailure(Tried(s, candidates[0]).0, candidates[1..]);
    }
  }

  // ---------------------------------------------------------------- the late block

  function LateBlocker(symbol: string): Candidate {
    Candidate(symbol, Done(Preview(symbol, "hash", symbol, symbol, true, true)),
              Gateway(Done(Fill("order", "position", 1.0)), Done(()), Done(true), Done(()), Raised(Blocked)), Done(()))
  }

  // With one free slot and two candidates whose reconciliation snapshot raises
  // ControlledLiveBlocked, both are filled.
  lemma LateBlocksExceedSlots()
    ensures var books := Books(map["A" := Proposal("hash", Approved), "B" := Proposal("hash", Approved)], {}, false,
                               [], []);
      FillsIn(Scan(books, 1, {}), [LateBlocker("A"), LateBlocker("B")]) == 2
  {
    var books := Books(map["A" := Proposal("hash", Approved), "B" := Proposal("hash", Approved)], {}, false, [], []);
    var s := Scan(books, 1, {});
    var candidates := [LateBlocker("A"), LateBlocker("B")];
    assert candidates[1..] == [LateBlocker("B")];
    var (next, d) := Tried(s, LateBlocker("A"));
    assert |next.books.fills| == 1 && d == BlockedHere;
    assert next.books.proposals["B"] == Proposal("hash", Approved);
    var (after, _) := Tried(next, LateBlocker("B"));
    assert |after.books.fills| == 2;
    assert candidates[1..][1..] == [];
    assert Scanned(after, []).0 == after;
  }
}
