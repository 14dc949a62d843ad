// One-pass performance metrics and the simple definitions they agree with.
module Metrics {
  import opened Common

  // ---------------------------------------------------------------- drawdown

  // `drop` is the largest fall from an earlier (or the same) value to a later one, up to `last`.
  ghost predicate IsLargestFall(values: seq<real>, last: nat, drop: real)
    requires last < |values|
  {
    && (forall i, j :: 0 <= i <= j <= last ==> values[i] - values[j] <= drop)
    && (exists i, j :: 0 <= i <= j <= last && values[i] - values[j] == drop)
  }

  function FallPct(from: real, to: real): real
    requires from != 0.0
  {
    (from - to) / from * 100.0
  }

  ghost predicate AllPositive(values: seq<real>) {
    forall k :: 0 <= k < |values| ==> values[k] > 0.0
  }

  // `pct` is the largest relative fall, in percent of the earlier value.
  ghost predicate IsLargestFallPct(values: seq<real>, last: nat, pct: real)
    requires last < |values| && AllPositive(values)
  {
    && (forall i, j :: 0 <= i <= j <= last ==> FallPct(values[i], values[j]) <= pct)
    && (exists i, j :: 0 <= i <= j <= last && FallPct(values[i], values[j]) == pct)
  }

  ghost predicate IsPeak(values: seq<real>, last: nat, peak: real)
    requires last < |values|
  {
    && (forall i :: 0 <= i <= last ==> values[i] <= peak)
    && (exists i :: 0 <= i <= last && values[i] == peak)
  }

  lemma FallGrowsWithPeak(low: real, high: real, to: real)
    requires 0.0 < low <= high && to > 0.0
    ensures FallPct(low, to) <= FallPct(high, to)
  {
    var a, b := (low - to) / low, (high - to) / high;
    assert (1.0 - a) * low == to && (1.0 - b) * high == to;
    if a > b {
      ScaleOrder(1.0 - a, 1.0 - b, low);
      ScaleOrder(0.0, 1.0 - b, high);
      ScaleOrder(low, high, 1.0 - b);
    }
  }

  // The running peak and running maxima of the metric loop give the largest absolute fall of
  // the curve with the starting balance in front, and, on positive curves, the largest
  // relative one.
  method Drawdown(curve: seq<real>, start: real) returns (draw: real, pct: real)
    ensures IsLargestFall([start] + curve, |curve|, draw)
    ensures AllPositive([start] + curve) ==> IsLargestFallPct([start] + curve, |curve|, pct)
  {
    hide IsLargestFall, IsLargestFallPct, IsPeak;
    var peak := start;
    draw, pct := 0.0, 0.0;
    ghost var values := [start] + curve;
    NoFallYet(values);
    for n := 0 to |curve|
      invariant IsPeak(values, n, peak)
      invariant IsLargestFall(values, n, draw)
      invariant AllPositive(values) ==> IsLargestFallPct(values, n, pct)
    {
      var equity := curve[n];
      ExtendFall(values, n, peak, draw);
      if AllPositive(values) {
        ExtendFallPct(values, n, peak, pct);
      }
      peak := Max(peak, equity);
      draw := Max(draw, peak - equity);
      pct := Max(pct, if peak != 0.0 then (peak - equity) / peak * 100.0 else 0.0);
    }
  }

  lemma NoFallYet(values: seq<real>)
    requires values != []
    ensures IsPeak(values, 0, values[0]) && IsLargestFall(values, 0, 0.0)
    ensures AllPositive(values) ==> IsLargestFallPct(values, 0, 0.0)
  {
  }

  lemma ExtendPeak(values: seq<real>, last: nat, peak: real) returns (top: nat)
    requires last + 1 < |values| && IsPeak(values, last, peak)
    ensures top <= last + 1 && values[top] == Max(peak, values[last + 1])
    ensures IsPeak(values, last + 1, values[top])
  {
    var t :| 0 <= t <= last && values[t] == peak;
    top := if values[last + 1] > peak then last + 1 else t;
  }

  lemma ExtendFall(values: seq<real>, last: nat, peak: real, drop: real)
    requires last + 1 < |values| && IsPeak(values, last, peak) && IsLargestFall(values, last, drop)
    ensures var top := Max(peak, values[last + 1]);
      IsPeak(values, last + 1, top) && IsLargestFall(values, last + 1, Max(drop, top - values[last + 1]))
  {
    var i, j :| 0 <= i <= j <= last && values[i] - values[j] == drop;
    var top := ExtendPeak(values, last, peak);
    var most := Max(drop, values[top] - values[last + 1]);
    if most == drop {
      assert values[i] - values[j] == most;
    } else {
      assert values[top] - values[last + 1] == most;
    }
    forall i, j | 0 <= i <= j <= last + 1
      ensures values[i] - values[j] <= most
    {
    }
  }

  lemma ExtendFallPct(values: seq<real>, last: nat, peak: real, pct: real)
    requires last + 1 < |values| && AllPositive(values)
    requires IsPeak(values, last, peak) && IsLargestFallPct(values, last, pct)
    ensures var top := Max(peak, values[last + 1]);
      top > 0.0 && IsLargestFallPct(values, last + 1, Max(pct, FallPct(top, values[last + 1])))
  {
    var next := values[last + 1];
    var i, j :| 0 <= i <= j <= last && FallPct(values[i], values[j]) == pct;
    var top := ExtendPeak(values, last, peak);
    assert FallPct(values[top], values[last + 1]) == FallPct(Max(peak, next), next);
    forall i, j | 0 <= i <= j <= last + 1
      ensures FallPct(values[i], values[j]) <= Max(pct, FallPct(values[top], next))
    {
      if j == last + 1 {
        FallGrowsWithPeak(values[i], values[top], next);
      }
    }
  }

  // Equity after the first `n` closed trades.
  function EquityAfter(start: real, pnls: seq<real>, n: nat): real
    requires n <= |pnls|
  {
    if n == 0 then start else EquityAfter(start, pnls, n - 1) + pnls[n - 1]
  }

  function EquityCurve(start: real, pnls: seq<real>): (r: seq<real>)
    ensures |r| == |pnls| + 1
    ensures forall n :: 0 <= n <= |pnls| ==> r[n] == EquityAfter(start, pnls, n)
  {
    seq(|pnls| + 1, n requires 0 <= n <= |pnls| => EquityAfter(start, pnls, n))
  }

  const SHADOW_START: real := 1000.0

  // The collector's variant walks the realized PnLs from a fixed start.
  method ShadowDrawdown(pnls: seq<real>) returns (draw: real)
    ensures IsLargestFall(EquityCurve(SHADOW_START, pnls), |pnls|, draw)
  {
    hide IsLargestFall, IsPeak;
    var peak, equity := SHADOW_START, SHADOW_START;
    draw := 0.0;
    ghost var curve := EquityCurve(SHADOW_START, pnls);
    NoFallYet(curve);
    for n := 0 to |pnls|
      invariant equity == curve[n] && IsPeak(curve, n, peak) && IsLargestFall(curve, n, draw)
    {
      ExtendFall(curve, n, peak, draw);
      equity := equity + pnls[n];
      peak := Max(peak, equity);
      draw := Max(draw, peak - equity);
    }
  }

  // ---------------------------------------------------------------- streaks

  predicate Counts(pnl: real, winning: bool) {
    if winning then pnl > 0.0 else pnl < 0.0
  }

  // `length` trades ending just before `end` all win (or all lose).
  predicate IsRun(pnls: seq<real>, winning: bool, end: nat, length: nat)
    requires end <= |pnls|
  {
    length <= end && forall k :: end - length <= k < end ==> Counts(pnls[k], winning)
  }

  ghost predicate IsLongestRun(pnls: seq<real>, winning: bool, length: nat) {
    && (exists end: nat :: end <= |pnls| && IsRun(pnls, winning, end, length))
    && (forall end: nat, n: nat :: end <= |pnls| && IsRun(pnls, winning, end, n) ==> n <= length)
  }

  // Both streaks are the longest contiguous all-winning and all-losing runs; a break-even
  // trade ends both.
  method Streaks(pnls: seq<real>) returns (wins: nat, losses: nat)
    ensures IsLongestRun(pnls, true, wins)
    ensures IsLongestRun(pnls, false, losses)
  {
    wins, losses := 0, 0;
    var currentWins, currentLosses := 0, 0;
    assert IsRun(pnls, true, 0, 0) && IsRun(pnls, false, 0, 0);
    for n := 0 to |pnls|
      invariant CurrentAndBest(pnls, true, n, currentWins, wins)
      invariant CurrentAndBest(pnls, false, n, currentLosses, losses)
    {
      var pnl := pnls[n];
      ghost var w, l := currentWins, currentLosses;
      currentWins := if pnl > 0.0 then currentWins + 1 else 0;
      currentLosses := if pnl < 0.0 then currentLosses + 1 else 0;
      ExtendRun(pnls, true, n, w, wins);
      ExtendRun(pnls, false, n, l, losses);
      wins := MaxInt(wins, currentWins);
      losses := MaxInt(losses, currentLosses);
    }
  }

  // `current` is the longest run ending at `n`, `best` the longest run ending by `n`.
  ghost predicate CurrentAndBest(pnls: seq<real>, winning: bool, n: nat, current: nat, best: nat) {
    && n <= |pnls|
    && IsRun(pnls, winning, n, current)
    && (forall m: nat :: IsRun(pnls, winning, n, m) ==> m <= current)
    && (exists end: nat :: end <= n && IsRun(pnls, winning, end, best))
    && (forall end: nat, m: nat :: end <= n && IsRun(pnls, winning, end, m) ==> m <= best)
  }

  lemma ExtendRun(pnls: seq<real>, winning: bool, n: nat, current: nat, best: nat)
    requires n < |pnls| && CurrentAndBest(pnls, winning, n, current, best)
    ensures var next := if Counts(pnls[n], winning) then current + 1 else 0;
      CurrentAndBest(pnls, winning, n + 1, next, MaxInt(best, next))
  {
    var next := if Counts(pnls[n], winning) then current + 1 else 0;
    var end' := n + 1;
    forall m: nat | IsRun(pnls, winning, end', m)
      ensures m <= next
    {
      if m > 0 {
        assert Counts(pnls[n], winning);
        assert IsRun(pnls, winning, n, m - 1);
      }
    }
    assert IsRun(pnls, winning, end', next);
    var end: nat :| end <= n && IsRun(pnls, winning, end, best);
    assert IsRun(pnls, winning, if best >= next then end else end', MaxInt(best, next));
  }
}
