// The persistent cadence of paid analysis calls: one local scan per slot, a minimum interval,
// and an exception for markedly stronger candidates that only a bounded score can limit.
module CallRate {
  import opened Common

  const MINUTE: int := 60000000
  const MIN_INTERVAL: int := 30 * MINUTE
  const SLOT: int := 5 * MINUTE
  const TOP_CANDIDATES: nat := 3
  const MIN_TURNOVER: real := 5000000.0
  const MAX_SPREAD: real := 0.002
  const MAX_MIN_NOTIONAL: real := 15.0
  const STRONG_MULTIPLIER: real := 1.2
  const SCORE_SCALE: nat := 10000
  const MIN_SCORE: real := 2.5
  const MAX_SCORE: real := 100.0

  // ---------------------------------------------------------------- eligibility and score

  datatype Quote = Quote(bid: real, ask: real, turnover: real, step: real, minQuantity: real, minNotional: real)

  datatype Market = Market(bid: real, ask: real, spread: real, turnover: real, minimumOrder: real)

  function CeilStep(value: real, step: real): real
    requires step > 0.0
  {
    Steps(CeilUnits(value / step), step)
  }

  function Steps(units: int, step: real): real {
    units as real * step
  }

  function CeilUnits(x: real): int {
    -((-x).Floor)
  }

  function EligibleMarket(q: Quote): Option<Market> {
    if q.bid <= 0.0 || q.ask <= 0.0 || q.ask < q.bid || q.step <= 0.0 then None
    else
      var spread := (q.ask - q.bid) / ((q.bid + q.ask) / 2.0);
      if spread > MAX_SPREAD || q.turnover < MIN_TURNOVER then None
      else
        var order := Max(q.minQuantity, CeilStep(q.minNotional / q.ask, q.step)) * q.ask;
        if order > MAX_MIN_NOTIONAL then None
        else Some(Market(q.bid, q.ask, spread, q.turnover, order))
  }

  lemma CeilStepReaches(value: real, step: real)
    requires step > 0.0
    ensures value <= CeilStep(value, step) < value + step
  {
    var x := value / step;
    var n := CeilUnits(x);
    assert x <= n as real < x + 1.0;
    hide CeilUnits;
    StepsReach(x, n, step);
    assert x * step == value;
    hide Steps;
  }

  lemma StepsReach(x: real, n: int, step: real)
    requires step > 0.0 && x <= n as real < x + 1.0
    ensures x * step <= Steps(n, step) < x * step + step
  {
    var gap := n as real - x;
    ScaleOrder(0.0, gap, step);
    ScaleOrder(gap, 1.0, step);
    assert gap * step < step;
    assert Steps(n, step) == (x + gap) * step;
    assert (x + gap) * step == x * step + gap * step;
  }

  // An eligible market's smallest order meets both exchange minimums within the cap.
  lemma EligibleOrderMeetsMinimums(q: Quote)
    requires EligibleMarket(q).Some?
    ensures var m := EligibleMarket(q).value;
      && q.minNotional <= m.minimumOrder <= MAX_MIN_NOTIONAL
      && q.minQuantity * q.ask <= m.minimumOrder
      && m.turnover >= MIN_TURNOVER && m.spread <= MAX_SPREAD
  {
    var quantity := q.minNotional / q.ask;
    CeilStepReaches(quantity, q.step);
    var size := Max(q.minQuantity, CeilStep(quantity, q.step));
    assert quantity * q.ask == q.minNotional;
    ScaleOrder(quantity, size, q.ask);
    ScaleOrder(q.minQuantity, size, q.ask);
  }

  // Indicators of the primary timeframe; volumes, volatility and true ranges are never negative.
  datatype Metrics = Metrics(
    latest: real,
    relativeVolume: real,
    volatility: real,
    move: real,
    rsi: real,
    macd: real,
    macdSignal: real,
    atr: real,
    bullish: nat,
    bearish: nat)
  {
    predicate Sound() {
      relativeVolume >= 0.0 && volatility >= 0.0 && atr >= 0.0
    }
  }

  datatype Components = Components(
    turnover: real, spread: real, volume: real, volatility: real, momentum: real,
    rsi: real, ema: real, atr: real, trend: real)

  function ComponentsOf(market: Market, m: Metrics): Components {
    Components(
      Min(1.0, market.turnover / 100000000.0),
      Max(0.0, 1.0 - market.spread / MAX_SPREAD),
      Min(1.0, m.relativeVolume / 2.0),
      Min(1.0, m.volatility * 1000.0),
      Min(1.0, Abs(m.move) * 50.0),
      Min(1.0, Abs(m.rsi - 50.0) / 50.0),
      if m.latest > 0.0 then Min(1.0, Abs(m.macd - m.macdSignal) / m.latest * 1000.0) else 0.0,
      if m.latest > 0.0 then Min(1.0, m.atr / m.latest * 100.0) else 0.0,
      if MaxInt(m.bullish, m.bearish) >= 2 then 1.0 else 0.2)
  }

  function Weighted(c: Components): real {
    c.turnover * 10.0 + c.spread * 10.0 + c.volume * 10.0 + c.volatility * 15.0 + c.momentum * 15.0
    + c.rsi * 10.0 + c.ema * 10.0 + c.atr * 10.0 + c.trend * 10.0
  }

  function TechnicalScore(market: Market, m: Metrics): real {
    Quantize(Min(100.0, Weighted(ComponentsOf(market, m))), SCORE_SCALE)
  }

  lemma RatioNonNegative(a: real, b: real)
    requires a >= 0.0 && b > 0.0
    ensures a / b >= 0.0
  {
    assert (a / b) * b == a;
    ScaleOrder(0.0, a / b, b);
  }

  lemma ComponentsNonNegative(market: Market, m: Metrics)
    requires market.turnover >= MIN_TURNOVER && m.Sound()
    ensures var c := ComponentsOf(market, m);
      && c.turnover >= 0.05 && c.trend >= 0.2
      && c.spread >= 0.0 && c.volume >= 0.0 && c.volatility >= 0.0 && c.momentum >= 0.0
      && c.rsi >= 0.0 && c.ema >= 0.0 && c.atr >= 0.0
  {
    if m.latest > 0.0 {
      RatioNonNegative(Abs(m.macd - m.macdSignal), m.latest);
      RatioNonNegative(m.atr, m.latest);
    }
  }

  // Every eligible market scores between 2.5 (its turnover and trend floors) and 100.
  lemma ScoreInRange(market: Market, m: Metrics)
    requires market.turnover >= MIN_TURNOVER && m.Sound()
    ensures MIN_SCORE <= TechnicalScore(market, m) <= MAX_SCORE
  {
    hide ComponentsOf, Quantize;
    ComponentsNonNegative(market, m);
    var score := Min(100.0, Weighted(ComponentsOf(market, m)));
    assert 2.5 <= score <= 100.0;
    QuantizeBounds(score, SCORE_SCALE, 25000);
    QuantizeBounds(score, SCORE_SCALE, 1000000);
  }

  // ---------------------------------------------------------------- the persistent row

  datatype Candidate = Candidate(symbol: string, score: real)

  datatype Snapshot = Snapshot(candidates: seq<Candidate>, scannedAt: int) {
    predicate Sound() {
      forall c :: c in candidates ==> MIN_SCORE <= c.score <= MAX_SCORE
    }

    // The hash of the joined symbols is as good as the symbols themselves.
    function Signature(): seq<string> {
      seq(|candidates|, i requires 0 <= i < |candidates| => candidates[i].symbol)
    }

    function AggregateScore(): real {
      if candidates == [] then 0.0 else TotalScore(candidates) / |candidates| as real
    }
  }

  function TotalScore(candidates: seq<Candidate>): real {
    if candidates == [] then 0.0 else TotalScore(candidates[..|candidates| - 1]) + candidates[|candidates| - 1].score
  }

  datatype LastCall = LastCall(at: int, signature: seq<string>, score: real)

  datatype Runtime = Runtime(lastSlot: Option<int>, lastCall: Option<LastCall>)

  datatype Missing = RuntimeMissing

  predicate SlotIsNew(row: Runtime, slot: int) {
    row.lastSlot.None? || row.lastSlot.value < slot
  }

  predicate StrongEvent(last: LastCall, s: Snapshot) {
    && s.scannedAt - last.at < MIN_INTERVAL
    && last.signature != s.Signature()
    && s.AggregateScore() >= last.score * STRONG_MULTIPLIER
  }

  predicate MayCall(row: Runtime, s: Snapshot) {
    && |s.candidates| == TOP_CANDIDATES
    && (row.lastCall.None? || s.scannedAt - row.lastCall.value.at >= MIN_INTERVAL || StrongEvent(row.lastCall.value, s))
  }

  function Called(row: Runtime, s: Snapshot): Runtime {
    row.(lastCall := Some(LastCall(s.scannedAt, s.Signature(), s.AggregateScore())))
  }

  class MarketDiscoveryRepository {
    var row: Option<Runtime>

    constructor ()
      ensures row == None
    {
      row := None;
    }

    method Initialize()
      modifies this
      ensures row == Some(if old(row).Some? then old(row).value else Runtime(None, None))
    {
      if row.None? {
        row := Some(Runtime(None, None));
      }
    }

    method ClaimLocalSlot(slot: int) returns (claimed: Result<bool, Missing>)
      modifies this
      ensures old(row).None? ==> claimed == Err(RuntimeMissing) && row == None
      ensures old(row).Some? ==>
        && claimed == Ok(SlotIsNew(old(row).value, slot))
        && row == Some(if claimed.value then old(row).value.(lastSlot := Some(slot)) else old(row).value)
    {
      if row.None? {
        return Err(RuntimeMissing);
      }
      var previous := row.value.lastSlot;
      if previous.Some? && previous.value >= slot {
        return Ok(false);
      }
      row := Some(row.value.(lastSlot := Some(slot)));
      claimed := Ok(true);
    }

    method ClaimHermes(s: Snapshot) returns (claimed: Result<bool, Missing>)
      modifies this
      ensures |s.candidates| != TOP_CANDIDATES ==> claimed == Ok(false) && row == old(row)
      ensures |s.candidates| == TOP_CANDIDATES && old(row).None? ==> claimed == Err(RuntimeMissing) && row == None
      ensures |s.candidates| == TOP_CANDIDATES && old(row).Some? ==>
        && claimed == Ok(MayCall(old(row).value, s))
        && row == Some(if claimed.value then Called(old(row).value, s) else old(row).value)
    {
      if |s.candidates| != TOP_CANDIDATES {
        return Ok(false);
      }
      if row.None? {
        return Err(RuntimeMissing);
      }
      if row.value.lastCall.Some? {
        var last := row.value.lastCall.value;
        var elapsed := s.scannedAt - last.at;
        var strong := elapsed < MIN_INTERVAL && last.signature != s.Signature()
                      && s.AggregateScore() >= last.score * STRONG_MULTIPLIER;
        if elapsed < MIN_INTERVAL && !strong {
          return Ok(false);
        }
      }
      row := Some(Called(row.value, s));
      claimed := Ok(true);
    }
  }

  lemma {:induction false} TotalInRange(candidates: seq<Candidate>)
    requires forall c :: c in candidates ==> MIN_SCORE <= c.score <= MAX_SCORE
    ensures |candidates| as real * MIN_SCORE <= TotalScore(candidates) <= |candidates| as real * MAX_SCORE
  {
    if candidates != [] {
      TotalInRange(candidates[..|candidates| - 1]);
      assert candidates[|candidates| - 1] in candidates;
    }
  }

  lemma AggregateInRange(s: Snapshot)
    requires s.Sound() && |s.candidates| == TOP_CANDIDATES
    ensures MIN_SCORE <= s.AggregateScore() <= MAX_SCORE
  {
    TotalInRange(s.candidates);
  }

  // ---------------------------------------------------------------- runs of claims

  // A granted call; `strong` when it came within the minimum interval of the previous one.
  datatype Call = Call(at: int, score: real, strong: bool)

  datatype Cadence = Cadence(row: Runtime, calls: seq<Call>)

  function Attempt(c: Cadence, s: Snapshot): Cadence {
    if !MayCall(c.row, s) then c
    else
      var strong := c.row.lastCall.Some? && s.scannedAt - c.row.lastCall.value.at < MIN_INTERVAL;
      Cadence(Called(c.row, s), c.calls + [Call(s.scannedAt, s.AggregateScore(), strong)])
  }

  // The calls granted over a sequence of scans, from a freshly created row; the row survives
  // restarts, so a run may span any number of processes.
  function Granted(scans: seq<Snapshot>): Cadence {
    if scans == [] then Cadence(Runtime(None, None), [])
    else Attempt(Granted(scans[..|scans| - 1]), scans[|scans| - 1])
  }

  ghost predicate SoundScans(scans: seq<Snapshot>) {
    && (forall i :: 0 <= i < |scans| ==> scans[i].Sound())
    && (forall i :: 0 < i < |scans| ==> scans[i - 1].scannedAt <= scans[i].scannedAt)
  }

  // How each call relates to the one before it.
  predicate Follows(previous: Call, next: Call) {
    if next.strong then next.at - previous.at < MIN_INTERVAL && next.score >= previous.score * STRONG_MULTIPLIER
    else next.at - previous.at >= MIN_INTERVAL
  }

  ghost predicate Cadenced(calls: seq<Call>) {
    && (calls != [] ==> !calls[0].strong)
    && (forall i :: 0 <= i < |calls| ==> MIN_SCORE <= calls[i].score <= MAX_SCORE)
    && (forall i :: 0 < i < |calls| ==> Follows(calls[i - 1], calls[i]) && calls[i - 1].at <= calls[i].at)
  }

  // The row mirrors the last granted call, made no later than `now`.
  ghost predicate Linked(c: Cadence, now: int) {
    && Cadenced(c.calls)
    && (c.row.lastCall.Some? <==> c.calls != [])
    && (c.calls != [] ==>
          var last := c.calls[|c.calls| - 1];
          c.row.lastCall.value.at == last.at <= now && c.row.lastCall.value.score == last.score)
  }

  lemma AttemptKeepsLink(c: Cadence, s: Snapshot, now: int)
    requires Linked(c, now) && s.Sound() && now <= s.scannedAt
    ensures Linked(Attempt(c, s), s.scannedAt)
  {
    if MayCall(c.row, s) {
      AggregateInRange(s);
    }
    hide TotalScore;
  }

  lemma {:induction false} GrantedIsLinked(scans: seq<Snapshot>)
    requires SoundScans(scans)
    ensures Linked(Granted(scans), if scans == [] then 0 else scans[|scans| - 1].scannedAt)
  {
    if scans != [] {
      var rest := scans[..|scans| - 1];
      GrantedIsLinked(rest);
      hide Attempt, Cadenced;
      var s := scans[|scans| - 1];
      if rest == [] {
        AttemptKeepsLink(Granted(rest), s, s.scannedAt);
      } else {
        AttemptKeepsLink(Granted(rest), s, rest[|rest| - 1].scannedAt);
      }
    }
  }

  // ---------------------------------------------------------------- counting

  function Power(n: nat): real {
    if n == 0 then 1.0 else Power(n - 1) * STRONG_MULTIPLIER
  }

  // Strong calls at the end of the sequence.
  function Chain(calls: seq<Call>): nat {
    if calls == [] || !calls[|calls| - 1].strong then 0 else Chain(calls[..|calls| - 1]) + 1
  }

  function Starts(calls: seq<Call>): nat {
    if calls == [] then 0 else Starts(calls[..|calls| - 1]) + if calls[|calls| - 1].strong then 0 else 1
  }

  lemma TwentyOneStepsExceedRange()
    ensures Power(20) < 38.4 && MIN_SCORE * Power(20) <= MAX_SCORE < MIN_SCORE * Power(21)
  {
    assert Power(5) == 2.48832;
    assert Power(10) == 6.1917364224;
    assert 15.4070 < Power(15) < 15.4071;
    assert 38.3375 < Power(20) < 38.3377;
  }

  lemma {:induction false} PowerGrows(a: nat, b: nat)
    requires a <= b
    ensures 0.0 < Power(a) <= Power(b)
  {
    if a < b {
      PowerGrows(a, b - 1);
    } else if a > 0 {
      PowerGrows(a - 1, b - 1);
    }
  }

  // A chain of strong calls multiplies the stored score, so the bounded score ends it: at most
  // twenty consecutive strong calls.
  lemma {:induction false} ChainIsBounded(calls: seq<Call>)
    requires Cadenced(calls)
    ensures calls != [] ==> calls[|calls| - 1].score >= MIN_SCORE * Power(Chain(calls))
    ensures Chain(calls) <= 20
  {
    if calls != [] {
      var rest := calls[..|calls| - 1];
      ChainIsBounded(rest);
      if calls[|calls| - 1].strong {
        assert Follows(calls[|calls| - 2], calls[|calls| - 1]);
        assert calls[|calls| - 2] == rest[|rest| - 1];
      }
      TwentyOneStepsExceedRange();
      PowerGrows(if Chain(calls) < 21 then Chain(calls) else 21, Chain(calls));
    }
  }

  lemma CadencedStep(calls: seq<Call>)
    requires Cadenced(calls) && calls != []
    ensures var rest := calls[..|calls| - 1];
      Cadenced(rest) && if rest == [] then !calls[0].strong
                        else calls[0] == rest[0] && Follows(rest[|rest| - 1], calls[|calls| - 1])
                             && rest[|rest| - 1].at <= calls[|calls| - 1].at
  {
    var rest := calls[..|calls| - 1];
    assert rest != [] ==> rest[|rest| - 1] == calls[|calls| - 2];
  }

  // At most 21 calls per chain start, and starts are a full interval apart.
  lemma {:induction false} CallsPerStart(calls: seq<Call>)
    requires Cadenced(calls)
    ensures |calls| + 20 <= 21 * Starts(calls) + Chain(calls) || calls == []
    ensures calls != [] ==>
      Starts(calls) >= 1 && (Starts(calls) - 1) * MIN_INTERVAL <= calls[|calls| - 1].at - calls[0].at
  {
    if calls != [] {
      var rest := calls[..|calls| - 1];
      CadencedStep(calls);
      hide Cadenced, Power;
      CallsPerStart(rest);
      ChainIsBounded(rest);
    }
  }

  // The call-rate bound: over any monotone sequence of scans, restarts included, the calls made
  // between the first and the last number at most 21 per started half hour.
  lemma CallRateBound(scans: seq<Snapshot>)
    requires SoundScans(scans) && Granted(scans).calls != []
    ensures var calls := Granted(scans).calls;
      var elapsed := calls[|calls| - 1].at - calls[0].at;
      elapsed >= 0 && |calls| <= 21 * (elapsed / MIN_INTERVAL + 1)
  {
    GrantedIsLinked(scans);
    var calls := Granted(scans).calls;
    hide Granted, SoundScans;
    CallsPerStart(calls);
    ChainIsBounded(calls);
    hide Starts, Chain, Cadenced;
    var elapsed := calls[|calls| - 1].at - calls[0].at;
    assert Starts(calls) - 1 <= elapsed / MIN_INTERVAL;
  }

  // ---------------------------------------------------------------- the bound is reached

  // Ten-thousandths of a score that grows by the multiplier, rounded up, from scan to scan.
  function RisingUnits(k: nat): nat {
    if k == 0 then 25000 else (12 * RisingUnits(k - 1) + 9) / 10
  }

  function RisingScore(k: nat): real {
    RisingUnits(k) as real / SCORE_SCALE as real
  }

  // The k-th scan of a rising market: four-decimal scores, one scan a minute, with a different
  // front runner each time.
  function RisingScan(k: nat): Snapshot {
    var score := RisingScore(k);
    Snapshot([Candidate(if k % 2 == 0 then "A" else "B", score), Candidate("C", score), Candidate("D", score)],
             k * MINUTE)
  }

  function RisingScans(n: nat): seq<Snapshot> {
    seq(n, k requires 0 <= k < n => RisingScan(k))
  }

  lemma RisingScanScore(k: nat)
    ensures RisingScan(k).AggregateScore() == RisingScore(k)
    ensures k > 0 ==> RisingScan(k).Signature() != RisingScan(k - 1).Signature()
  {
    hide RisingScore;
    var s := RisingScan(k);
    assert s.candidates[..2][..1][..0] == [];
    assert TotalScore(s.candidates) == 3.0 * RisingScore(k) by {
      assert TotalScore(s.candidates[..1]) == s.candidates[0].score;
      assert s.candidates[..2][..1] == s.candidates[..1];
    }
    if k > 0 {
      assert s.Signature()[0] != RisingScan(k - 1).Signature()[0];
    }
  }

  lemma RisingIsStrong(k: nat)
    requires k > 0
    ensures RisingScore(k) >= RisingScore(k - 1) * STRONG_MULTIPLIER
  {
    assert 10 * RisingUnits(k) >= 12 * RisingUnits(k - 1);
  }

  lemma {:induction false} RisingScansAreGranted(n: nat)
    requires n <= 21
    ensures var c := Granted(RisingScans(n));
      && |c.calls| == n
      && (n > 0 ==>
            c.row.lastCall == Some(LastCall((n - 1) * MINUTE, RisingScan(n - 1).Signature(), RisingScore(n - 1))))
  {
    hide RisingScore, RisingUnits;
    if n > 0 {
      RisingScansAreGranted(n - 1);
      assert RisingScans(n)[..n - 1] == RisingScans(n - 1);
      RisingScanScore(n - 1);
      if n > 1 {
        RisingIsStrong(n - 1);
      }
    }
  }

  // Rounding up each time stays below the plain power of a first score 4.5 units higher.
  lemma {:induction false} RisingBelowPower(k: nat)
    ensures RisingUnits(k) as real + 4.5 <= 25004.5 * Power(k)
  {
    if k > 0 {
      RisingBelowPower(k - 1);
      assert 10 * RisingUnits(k) <= 12 * RisingUnits(k - 1) + 9;
    }
  }

  lemma {:induction false} RisingUnitsGrow(a: nat, b: nat)
    requires a <= b
    ensures 25000 <= RisingUnits(a) <= RisingUnits(b)
  {
    if a < b {
      RisingUnitsGrow(a, b - 1);
    } else if a > 0 {
      RisingUnitsGrow(a - 1, b - 1);
    }
  }

  lemma RisingScanIsSound(k: nat)
    requires k <= 20
    ensures RisingScan(k).Sound()
  {
    hide RisingUnits, Power;
    TwentyOneStepsExceedRange();
    RisingBelowPower(20);
    RisingUnitsGrow(0, k);
    RisingUnitsGrow(k, 20);
    assert MIN_SCORE <= RisingScore(k) <= MAX_SCORE;
  }

  // The claim on its own can grant twenty-one calls within one interval; only the five-minute
  // slots of the service keep such scans further apart.
  lemma BoundIsReached()
    ensures SoundScans(RisingScans(21)) && |Granted(RisingScans(21)).calls| == 21
  {
    hide RisingUnits;
    RisingScansAreGranted(21);
    forall k | 0 <= k < 21
      ensures RisingScans(21)[k].Sound()
    {
      RisingScanIsSound(k);
    }
    hide RisingScore;
  }

  // ---------------------------------------------------------------- whole cycles

  // The start of the five-minute slot an instant falls in.
  function SlotOf(at: int): int {
    at - at % SLOT
  }

  // One service cycle; `scan` is None when the market scan fails.
  datatype Cycle = Cycle(now: int, scan: Option<Snapshot>)

  // The slots claimed so far, and the slot each call was made in.
  datatype Service = Service(cadence: Cadence, slots: seq<int>, callSlots: seq<int>)

  function Serve(s: Service, c: Cycle): Service {
    var slot := SlotOf(c.now);
    if !SlotIsNew(s.cadence.row, slot) then s
    else
      var claimed := s.cadence.(row := s.cadence.row.(lastSlot := Some(slot)));
      var after := if c.scan.Some? then Attempt(claimed, c.scan.value) else claimed;
      Service(after, s.slots + [slot], if |after.calls| > |claimed.calls| then s.callSlots + [slot] else s.callSlots)
  }

  function Served(cycles: seq<Cycle>): Service {
    if cycles == [] then Service(Cadence(Runtime(None, None), []), [], [])
    else Serve(Served(cycles[..|cycles| - 1]), cycles[|cycles| - 1])
  }

  // The cycle of the service: claim the slot, then scan, then claim the call.
  method RunCycle(repository: MarketDiscoveryRepository, now: int, scan: Option<Snapshot>)
    returns (called: Result<bool, Missing>)
    modifies repository
    ensures old(repository.row).None? ==> called.Err? && repository.row == None
    ensures old(repository.row).Some? ==>
      var before := Service(Cadence(old(repository.row).value, []), [], []);
      var after := Serve(before, Cycle(now, scan));
      repository.row == Some(after.cadence.row) && called == Ok(after.cadence.calls != [])
  {
    var claimed := repository.ClaimLocalSlot(SlotOf(now));
    if claimed.Err? || !claimed.value || scan.None? {
      return if claimed.Err? then claimed else Ok(false);
    }
    called := repository.ClaimHermes(scan.value);
  }

  lemma AttemptAddsOne(c: Cadence, s: Snapshot)
    ensures |Attempt(c, s).calls| <= |c.calls| + 1 && Attempt(c, s).row.lastSlot == c.row.lastSlot
  {
  }

  // Slots strictly increase, the row holds the last one, and every call used up a slot of its own.
  ghost predicate SlotsOk(s: Service) {
    && (forall i :: 0 < i < |s.slots| ==> s.slots[i - 1] < s.slots[i])
    && (forall i :: 0 <= i < |s.slots| ==> s.slots[i] % SLOT == 0)
    && s.cadence.row.lastSlot == (if s.slots == [] then None else Some(s.slots[|s.slots| - 1]))
    && |s.cadence.calls| <= |s.slots|
  }

  lemma SlotIsAligned(at: int)
    ensures SlotOf(at) % SLOT == 0
  {
  }

  lemma ServeKeeps(s: Service, c: Cycle)
    requires SlotsOk(s)
    ensures var r := Serve(s, c);
      && SlotsOk(r)
      && r.slots != [] && SlotOf(c.now) <= r.slots[|r.slots| - 1]
      && (s.slots != [] ==> s.slots[|s.slots| - 1] <= r.slots[|r.slots| - 1])
  {
    hide Attempt, SlotOf;
    SlotIsAligned(c.now);
    if c.scan.Some? {
      AttemptAddsOne(s.cadence.(row := s.cadence.row.(lastSlot := Some(SlotOf(c.now)))), c.scan.value);
    }
  }

  // Over any sequence of cycles, restarts included, claimed slots strictly increase and every
  // call used up a slot of its own.
  lemma {:induction false} SlotsIncrease(cycles: seq<Cycle>)
    ensures var s := Served(cycles);
      && SlotsOk(s)
      && (forall i :: 0 <= i < |cycles| ==> s.slots != [] && SlotOf(cycles[i].now) <= s.slots[|s.slots| - 1])
  {
    if cycles != [] {
      SlotsIncrease(cycles[..|cycles| - 1]);
      hide SlotsOk, Serve, SlotOf;
      ServeKeeps(Served(cycles[..|cycles| - 1]), cycles[|cycles| - 1]);
    }
  }

  lemma {:induction false} SlotSpacing(claimed: seq<int>)
    requires forall i :: 0 < i < |claimed| ==> claimed[i - 1] < claimed[i]
    requires forall i :: 0 <= i < |claimed| ==> claimed[i] % SLOT == 0
    requires claimed != []
    ensures (|claimed| - 1) * SLOT <= claimed[|claimed| - 1] - claimed[0]
  {
    if |claimed| > 1 {
      SlotSpacing(claimed[..|claimed| - 1]);
    }
  }

  // So calls are also limited to one per five minutes of scheduled time.
  lemma OneCallPerSlot(cycles: seq<Cycle>)
    requires cycles != []
    ensures var s := Served(cycles);
      s.slots != [] && |s.cadence.calls| <= (s.slots[|s.slots| - 1] - s.slots[0]) / SLOT + 1
  {
    SlotsIncrease(cycles);
    assert SlotOf(cycles[0].now) <= Served(cycles).slots[|Served(cycles).slots| - 1];
    SlotSpacing(Served(cycles).slots);
  }

  // ---------------------------------------------------------------- chains and slots together

  // A scan finishes within this time or is given up.
  const MAX_SCAN_AGE: int := 45000000

  // Cycles run one after another on a monotone clock, and each scan finishes in time.
  ghost predicate Timely(cycles: seq<Cycle>) {
    && (forall i :: 0 <= i < |cycles| && cycles[i].scan.Some? ==>
          && cycles[i].scan.value.Sound()
          && cycles[i].now <= cycles[i].scan.value.scannedAt <= cycles[i].now + MAX_SCAN_AGE)
    && (forall i :: 0 < i < |cycles| ==> EndOf(cycles[i - 1]) <= cycles[i].now)
  }

  function EndOf(c: Cycle): int {
    if c.scan.Some? then c.scan.value.scannedAt else c.now
  }

  // Consecutive calls are a slot apart, and five slots where a new chain starts.
  ghost predicate Paced(calls: seq<Call>, slots: seq<int>) {
    && |calls| == |slots|
    && (forall i :: 0 <= i < |slots| ==> slots[i] % SLOT == 0)
    && (forall i :: 0 < i < |slots| ==> slots[i] >= slots[i - 1] + if calls[i].strong then SLOT else 5 * SLOT)
  }

  ghost predicate PaceOk(s: Service, now: int) {
    && Linked(s.cadence, now)
    && Paced(s.cadence.calls, s.callSlots)
    && (s.callSlots != [] ==>
          var last := s.callSlots[|s.callSlots| - 1];
          && last <= s.cadence.calls[|s.cadence.calls| - 1].at
          && s.cadence.row.lastSlot.Some? && last <= s.cadence.row.lastSlot.value)
  }

  // A new slot is at least one later; half an hour between calls makes it at least five.
  lemma NextSlot(last: int, slot: int, now: int, called: int, at: int)
    requires last % SLOT == 0 && slot == SlotOf(now) && last < slot && last <= called && at <= now + MAX_SCAN_AGE
    ensures slot >= last + SLOT
    ensures at - called >= MIN_INTERVAL ==> slot >= last + 5 * SLOT
  {
    SlotIsAligned(now);
    assert now < slot + SLOT;
  }

  lemma ServeKeepsPace(s: Service, c: Cycle, now: int)
    requires PaceOk(s, now) && now <= c.now
    requires c.scan.Some? ==> c.scan.value.Sound() && c.now <= c.scan.value.scannedAt <= c.now + MAX_SCAN_AGE
    ensures PaceOk(Serve(s, c), EndOf(c))
  {
    hide Cadenced, MayCall, Called, SlotOf;
    var slot := SlotOf(c.now);
    SlotIsAligned(c.now);
    SlotStarts(c.now);
    if SlotIsNew(s.cadence.row, slot) && c.scan.Some? {
      var claimed := s.cadence.(row := s.cadence.row.(lastSlot := Some(slot)));
      AttemptKeepsLink(claimed, c.scan.value, now);
      AttemptAppends(claimed, c.scan.value);
      if s.callSlots != [] {
        var n := |s.callSlots| - 1;
        NextSlot(s.callSlots[n], slot, c.now, s.cadence.calls[n].at, c.scan.value.scannedAt);
      }
      hide Attempt;
    }
  }

  lemma SlotStarts(now: int)
    ensures SlotOf(now) <= now < SlotOf(now) + SLOT
  {
  }

  // An attempt adds a call at the time of the scan or none; a call after another is strong
  // exactly when it came within the interval.
  lemma AttemptAppends(c: Cadence, s: Snapshot)
    ensures var r := Attempt(c, s);
      && r.row.lastSlot == c.row.lastSlot
      && (r.calls == c.calls
          || exists call :: r.calls == c.calls + [call] && call.at == s.scannedAt
               && (c.row.lastCall.Some? && !call.strong ==> s.scannedAt - c.row.lastCall.value.at >= MIN_INTERVAL))
  {
    hide MayCall;
  }

  lemma {:induction false} ServedIsPaced(cycles: seq<Cycle>)
    requires Timely(cycles)
    ensures PaceOk(Served(cycles), if cycles == [] then 0 else EndOf(cycles[|cycles| - 1]))
  {
    if cycles != [] {
      var before, last := cycles[..|cycles| - 1], cycles[|cycles| - 1];
      ServedIsPaced(before);
      if before == [] {
        assert PaceOk(Served(before), last.now);
      }
      hide PaceOk, Serve;
      ServeKeepsPace(Served(before), last, if before == [] then last.now else EndOf(before[|before| - 1]));
    }
  }

  lemma {:induction false} PacedSpan(calls: seq<Call>, slots: seq<int>)
    requires Paced(calls, slots) && calls != [] && !calls[0].strong
    ensures slots[|slots| - 1] - slots[0] >= (|calls| + 4 * Starts(calls) - 5) * SLOT
  {
    if |calls| > 1 {
      PacedSpan(calls[..|calls| - 1], slots[..|slots| - 1]);
    } else {
      assert Starts(calls[..0]) == 0;
    }
  }

  // Chains and slots together: a chain of 21 calls takes 20 further slots, and the next chain
  // starts five slots later at the earliest. So in the slots between the first and the last call
  // the service makes at most 21 calls per 25 slots in the long run.
  lemma ServiceCallBound(cycles: seq<Cycle>)
    requires Timely(cycles) && Served(cycles).cadence.calls != []
    ensures var s := Served(cycles);
      |s.callSlots| == |s.cadence.calls|
      && 25 * |s.cadence.calls| <= 21 * ((s.callSlots[|s.callSlots| - 1] - s.callSlots[0]) / SLOT + 5)
  {
    hide Served, Timely;
    ServedIsPaced(cycles);
    PacedBound(Served(cycles).cadence.calls, Served(cycles).callSlots);
  }

  lemma PacedBound(calls: seq<Call>, slots: seq<int>)
    requires Cadenced(calls) && Paced(calls, slots) && calls != []
    ensures 25 * |calls| <= 21 * ((slots[|slots| - 1] - slots[0]) / SLOT + 5)
  {
    PacedSpan(calls, slots);
    CallsPerStart(calls);
    ChainIsBounded(calls);
    SpanInSlots(slots[|slots| - 1] - slots[0], |calls| + 4 * Starts(calls) - 5);
    hide Starts, Chain, Cadenced, Paced;
  }

  lemma SpanInSlots(span: int, n: int)
    requires span >= n * SLOT
    ensures span / SLOT >= n
  {
  }
}
