// One-pass rolling indicators and the direct recomputation over each window that they agree
// with. Floating-point numbers are exact reals.
module RollingWindows {
  import opened Common

  // ---------------------------------------------------------------- windows and their sums

  // The last `size` of the first `end` values.
  function Window(values: seq<real>, end: nat, size: nat): (w: seq<real>)
    requires end <= |values|
    ensures |w| == MinInt(end, size)
  {
    values[end - MinInt(end, size)..end]
  }

  function Sum(s: seq<real>): real {
    if s == [] then 0.0 else Sum(s[..|s| - 1]) + s[|s| - 1]
  }

  lemma SumAppend(s: seq<real>, x: real)
    ensures Sum(s + [x]) == Sum(s) + x
  {
    assert (s + [x])[..|s|] == s;
  }

  lemma {:induction false} SumDropFirst(s: seq<real>)
    requires s != []
    ensures Sum(s) == s[0] + Sum(s[1..])
  {
    if |s| > 1 {
      SumDropFirst(s[..|s| - 1]);
      assert s[..|s| - 1][1..] == s[1..][..|s| - 2];
    } else {
      assert s[..0] == [] && s[1..] == [];
    }
  }

  // Adding the newest value and taking away the one that leaves gives the next window's sum.
  lemma SumSlides(values: seq<real>, end: nat, size: nat)
    requires end < |values|
    ensures Sum(Window(values, end + 1, size))
         == Sum(Window(values, end, size)) + values[end] - if end >= size then values[end - size] else 0.0
  {
    hide Sum;
    WindowSlides(values, end, size);
    var grown := Window(values, end, size) + [values[end]];
    SumAppend(Window(values, end, size), values[end]);
    if end >= size {
      SumDropFirst(grown);
    }
  }

  lemma WindowSlides(values: seq<real>, end: nat, size: nat)
    requires end < |values|
    ensures var grown := Window(values, end, size) + [values[end]];
      && (end < size ==> grown == Window(values, end + 1, size))
      && (end >= size ==> grown[0] == values[end - size] && grown[1..] == Window(values, end + 1, size))
  {
    var kept := MinInt(end, size);
    assert Window(values, end, size) + [values[end]] == values[end - kept..end + 1];
  }

  lemma NothingYet(values: seq<real>, size: nat)
    ensures Window(values, 0, size) == [] && Sum(Window(values, 0, size)) == 0.0
  {
    assert Window(values, 0, size) == [];
  }

  function Average(total: real, count: nat): (r: real)
    requires count > 0
    ensures r == 0.0 <==> total == 0.0
  {
    total / count as real
  }

  function Mean(w: seq<real>): real
    requires w != []
  {
    Average(Sum(w), |w|)
  }

  function Quotient(x: real, y: real): real
    requires y != 0.0
  {
    x / y
  }

  // Value against the mean of the `period` values before it.
  function RelativeVolumeAt(volume: seq<real>, i: nat, period: nat): real
    requires i < |volume|
  {
    var w := Window(volume, i, period);
    if w == [] || Sum(w) == 0.0 then 0.0 else Quotient(volume[i], Mean(w))
  }

  method RelativeVolume(volume: seq<real>, period: nat) returns (output: seq<real>)
    ensures |output| == |volume|
    ensures forall i :: 0 <= i < |volume| ==> output[i] == RelativeVolumeAt(volume, i, period)
  {
    hide Sum, Window, Quotient, Average;
    output := [];
    var total := 0.0;
    NothingYet(volume, period);
    for index := 0 to |volume|
      invariant |output| == index
      invariant total == Sum(Window(volume, MaxInt(index - 1, 0), period))
      invariant forall i :: 0 <= i < index ==> output[i] == RelativeVolumeAt(volume, i, period)
    {
      if index > 0 {
        total := total + volume[index - 1];
        SumSlides(volume, index - 1, period);
      }
      if index > period {
        total := total - volume[index - period - 1];
      }
      assert total == Sum(Window(volume, index, period));
      var count := MinInt(index, period);
      output := output + [if count != 0 && total != 0.0 then Quotient(volume[index], Average(total, count)) else 0.0];
    }
  }

  // ---------------------------------------------------------------- VWAP

  function Product(x: real, y: real): real {
    x * y
  }

  function TypicalPrices(high: seq<real>, low: seq<real>, close: seq<real>): (r: seq<real>)
    requires |high| == |low| == |close|
    ensures |r| == |close|
  {
    seq(|close|, i requires 0 <= i < |close| => (high[i] + low[i] + close[i]) / 3.0)
  }

  function Products(xs: seq<real>, ys: seq<real>): (r: seq<real>)
    requires |xs| == |ys|
    ensures |r| == |xs|
    ensures forall i :: 0 <= i < |r| ==> r[i] == Product(xs[i], ys[i])
  {
    seq(|xs|, i requires 0 <= i < |xs| => Product(xs[i], ys[i]))
  }

  // Value traded over volume traded in the window, or the close where no volume was.
  function VwapAt(traded: seq<real>, volume: seq<real>, close: seq<real>, i: nat, period: nat): real
    requires |traded| == |volume| == |close| && i < |close|
  {
    var total := Sum(Window(volume, i + 1, period));
    if total != 0.0 then Quotient(Sum(Window(traded, i + 1, period)), total) else close[i]
  }

  method RollingVwap(high: seq<real>, low: seq<real>, close: seq<real>, volume: seq<real>, period: nat)
    returns (output: seq<real>)
    requires |high| == |low| == |close| == |volume|
    ensures |output| == |close|
    ensures forall i :: 0 <= i < |close| ==>
      output[i] == VwapAt(Products(TypicalPrices(high, low, close), volume), volume, close, i, period)
  {
    hide Sum, Window, Quotient, Product, Products;
    output := [];
    var valueSum, volumeSum := 0.0, 0.0;
    var typical := TypicalPrices(high, low, close);
    ghost var traded := Products(typical, volume);
    NothingYet(traded, period);
    NothingYet(volume, period);
    for index := 0 to |close|
      invariant |output| == index
      invariant valueSum == Sum(Window(traded, index, period)) && volumeSum == Sum(Window(volume, index, period))
      invariant forall i :: 0 <= i < index ==> output[i] == VwapAt(traded, volume, close, i, period)
    {
      SumSlides(traded, index, period);
      SumSlides(volume, index, period);
      valueSum := valueSum + Product(typical[index], volume[index]);
      volumeSum := volumeSum + volume[index];
      if index >= period {
        valueSum := valueSum - Product(typical[index - period], volume[index - period]);
        volumeSum := volumeSum - volume[index - period];
      }
      output := output + [if volumeSum != 0.0 then Quotient(valueSum, volumeSum) else close[index]];
    }
  }

  // ---------------------------------------------------------------- mean and variance

  // Sum of squared distances from `center`.
  function SquaredDistance(w: seq<real>, center: real): real {
    if w == [] then 0.0
    else SquaredDistance(w[..|w| - 1], center) + Product(w[|w| - 1] - center, w[|w| - 1] - center)
  }

  function Variance(w: seq<real>): real
    requires w != []
  {
    Average(SquaredDistance(w, Mean(w)), |w|)
  }

  lemma SquareNonNegative(x: real)
    ensures Product(x, x) >= 0.0
  {
  }

  lemma {:induction false} DistanceNonNegative(w: seq<real>, center: real)
    ensures SquaredDistance(w, center) >= 0.0
  {
    hide Product;
    if w != [] {
      DistanceNonNegative(w[..|w| - 1], center);
      SquareNonNegative(w[|w| - 1] - center);
    }
  }

  lemma {:induction false} DistanceExpands(w: seq<real>, center: real)
    ensures SquaredDistance(w, center)
         == Sum(Products(w, w)) - 2.0 * Product(center, Sum(w)) + Product(|w| as real, Product(center, center))
  {
    hide Product;
    if w == [] {
      ExpandNothing(center);
    } else {
      var rest, x := w[..|w| - 1], w[|w| - 1];
      DistanceExpands(rest, center);
      assert Products(w, w) == Products(rest, rest) + [Product(x, x)];
      SumAppend(Products(rest, rest), Product(x, x));
      ExpandOne(x, center, Sum(rest), |rest| as real);
    }
  }

  lemma ExpandNothing(center: real)
    ensures Product(center, 0.0) == 0.0 && Product(0.0, Product(center, center)) == 0.0
  {
  }

  lemma ExpandOne(x: real, center: real, sum: real, n: real)
    ensures Product(x - center, x - center) == Product(x, x) - 2.0 * Product(center, x) + Product(center, center)
    ensures Product(center, sum + x) == Product(center, sum) + Product(center, x)
    ensures Product(n + 1.0, Product(center, center)) == Product(n, Product(center, center)) + Product(center, center)
  {
  }

  // The mean of squares less the square of the mean is the mean squared distance from the mean,
  // so it is never negative and clamping it at zero changes nothing.
  lemma ShortcutVariance(w: seq<real>)
    requires w != []
    ensures Average(Sum(Products(w, w)), |w|) - Product(Mean(w), Mean(w)) == Variance(w) >= 0.0
  {
    hide Product, Products, Average, Sum, SquaredDistance;
    var mean := Mean(w);
    DistanceExpands(w, mean);
    DistanceNonNegative(w, mean);
    ShortcutArithmetic(Sum(Products(w, w)), Sum(w), SquaredDistance(w, mean), |w|);
  }

  lemma ShortcutArithmetic(squares: real, sum: real, distance: real, n: nat)
    requires n > 0 && distance >= 0.0
    requires var mean := Average(sum, n);
      distance == squares - 2.0 * Product(mean, sum) + Product(n as real, Product(mean, mean))
    ensures var mean := Average(sum, n);
      Average(squares, n) - Product(mean, mean) == Average(distance, n) >= 0.0
  {
    var mean, size := Average(sum, n), n as real;
    AverageTimes(sum, n);
    assert Product(mean, sum) == Product(size, Product(mean, mean)) by {
      Reassociate(mean, size);
    }
    AverageTimes(squares, n);
    AverageTimes(distance, n);
    ThreeTerms(Average(squares, n), Average(distance, n), Product(mean, mean), size);
  }

  lemma AverageTimes(total: real, n: nat)
    requires n > 0
    ensures Average(total, n) * n as real == total
  {
  }

  lemma Reassociate(mean: real, size: real)
    ensures Product(mean, mean * size) == Product(size, Product(mean, mean))
  {
    assert mean * (mean * size) == size * (mean * mean);
  }

  lemma ThreeTerms(squares: real, distance: real, mean: real, size: real)
    requires size > 0.0
    requires distance * size == squares * size - Product(size, mean) && distance * size >= 0.0
    ensures squares - mean == distance >= 0.0
  {
    var gap := squares - mean - distance;
    assert gap * size == squares * size - mean * size - distance * size;
    ScaleOrder(gap, 0.0, size);
    ScaleOrder(0.0, gap, size);
    ScaleOrder(0.0, distance, size);
  }

  // The square root of the second output is left to the caller.
  method RollingMeanVariance(values: seq<real>, period: nat) returns (means: seq<real>, variances: seq<real>)
    requires period > 0
    ensures |means| == |variances| == |values|
    ensures forall i :: 0 <= i < |values| ==> means[i] == Mean(Window(values, i + 1, period))
    ensures forall i :: 0 <= i < |values| ==> variances[i] == Variance(Window(values, i + 1, period))
  {
    hide Sum, Window, Product, Products, Average, Variance;
    means, variances := [], [];
    var total, squares := 0.0, 0.0;
    ghost var squared := Products(values, values);
    NothingYet(values, period);
    NothingYet(squared, period);
    for index := 0 to |values|
      invariant |means| == |variances| == index
      invariant total == Sum(Window(values, index, period)) && squares == Sum(Window(squared, index, period))
      invariant forall i :: 0 <= i < index ==> means[i] == Mean(Window(values, i + 1, period))
      invariant forall i :: 0 <= i < index ==> variances[i] == Variance(Window(values, i + 1, period))
    {
      SumSlides(values, index, period);
      SumSlides(squared, index, period);
      var value := values[index];
      total := total + value;
      squares := squares + Product(value, value);
      if index >= period {
        var leaving := values[index - period];
        total := total - leaving;
        squares := squares - Product(leaving, leaving);
      }
      ghost var w := Window(values, index + 1, period);
      SquaresOfWindow(values, index + 1, period);
      ShortcutVariance(w);
      var count := MinInt(index + 1, period);
      var mean := Average(total, count);
      var variance := Max(Average(squares, count) - Product(mean, mean), 0.0);
      means, variances := means + [mean], variances + [variance];
    }
  }

  lemma SquaresOfWindow(values: seq<real>, end: nat, size: nat)
    requires end <= |values|
    ensures Window(Products(values, values), end, size)
        == Products(Window(values, end, size), Window(values, end, size))
  {
    hide Product;
    var from := end - MinInt(end, size);
    assert forall i :: 0 <= i < end - from ==>
      Window(Products(values, values), end, size)[i] == Products(values, values)[from + i];
  }

  // ---------------------------------------------------------------- percentile rank

  predicate Sorted(s: seq<real>) {
    forall i, j :: 0 <= i < j < |s| ==> s[i] <= s[j]
  }

  // Where `bisect_right` would insert `x`.
  function BisectRight(s: seq<real>, x: real): (i: nat)
    ensures i <= |s|
    ensures Sorted(s) ==> (forall k :: 0 <= k < i ==> s[k] <= x) && (forall k :: i <= k < |s| ==> x < s[k])
  {
    if s == [] || x < s[0] then 0 else 1 + BisectRight(s[1..], x)
  }

  function CountAtMost(s: seq<real>, x: real): nat {
    if s == [] then 0 else CountAtMost(s[..|s| - 1], x) + if s[|s| - 1] <= x then 1 else 0
  }

  function Insort(s: seq<real>, x: real): seq<real> {
    s[..BisectRight(s, x)] + [x] + s[BisectRight(s, x)..]
  }

  lemma InsortSorts(s: seq<real>, x: real)
    requires Sorted(s)
    ensures Sorted(Insort(s, x)) && multiset(Insort(s, x)) == multiset(s) + multiset{x}
  {
    hide BisectRight;
    var i := BisectRight(s, x);
    SortedWith(s, i, x);
    assert multiset(s) == multiset(s[..i]) + multiset(s[i..]) by {
      assert s == s[..i] + s[i..];
    }
  }

  lemma SortedWith(s: seq<real>, i: nat, x: real)
    requires Sorted(s) && i <= |s|
    requires (forall k :: 0 <= k < i ==> s[k] <= x) && (forall k :: i <= k < |s| ==> x < s[k])
    ensures Sorted(s[..i] + [x] + s[i..])
  {
    var t := s[..i] + [x] + s[i..];
    assert forall k :: 0 <= k < |t| ==> t[k] == if k < i then s[k] else if k == i then x else s[k - 1];
  }

  lemma SortedWithout(s: seq<real>, i: nat)
    requires Sorted(s) && i < |s|
    ensures Sorted(s[..i] + s[i + 1..])
  {
    var t := s[..i] + s[i + 1..];
    assert forall k :: 0 <= k < |t| ==> t[k] == if k < i then s[k] else s[k + 1];
  }

  // The rightmost element not above a member equals it, so popping it removes that member.
  lemma PopRemoves(s: seq<real>, x: real)
    requires Sorted(s) && x in s
    ensures var i := BisectRight(s, x);
      && i > 0 && s[i - 1] == x
      && Sorted(s[..i - 1] + s[i..]) && multiset(s[..i - 1] + s[i..]) == multiset(s) - multiset{x}
  {
    hide BisectRight, Sorted;
    var i := BisectRight(s, x);
    LastAtMost(s, i, x);
    SortedWithout(s, i - 1);
    MultisetWithout(s, i - 1);
  }

  lemma LastAtMost(s: seq<real>, i: nat, x: real)
    requires Sorted(s) && x in s && i <= |s|
    requires (forall k :: 0 <= k < i ==> s[k] <= x) && (forall k :: i <= k < |s| ==> x < s[k])
    ensures i > 0 && s[i - 1] == x
  {
    var k :| 0 <= k < |s| && s[k] == x;
    assert k < i;
    assert s[k] <= s[i - 1] <= x;
  }

  lemma {:induction false} CountConcat(a: seq<real>, b: seq<real>, x: real)
    ensures CountAtMost(a + b, x) == CountAtMost(a, x) + CountAtMost(b, x)
  {
    if b == [] {
      assert a + b == a;
    } else {
      CountConcat(a, b[..|b| - 1], x);
      assert (a + b)[..|a + b| - 1] == a + b[..|b| - 1];
    }
  }

  lemma {:induction false} CountAll(s: seq<real>, x: real)
    ensures (forall k :: 0 <= k < |s| ==> s[k] <= x) ==> CountAtMost(s, x) == |s|
    ensures (forall k :: 0 <= k < |s| ==> x < s[k]) ==> CountAtMost(s, x) == 0
  {
    if s != [] {
      CountAll(s[..|s| - 1], x);
    }
  }

  lemma BisectCounts(s: seq<real>, x: real)
    requires Sorted(s)
    ensures BisectRight(s, x) == CountAtMost(s, x)
  {
    hide BisectRight, CountAtMost, Sorted;
    var i := BisectRight(s, x);
    assert s == s[..i] + s[i..];
    CountConcat(s[..i], s[i..], x);
    CountAll(s[..i], x);
    CountAll(s[i..], x);
  }

  lemma CountWithout(s: seq<real>, j: nat, x: real)
    requires j < |s|
    ensures CountAtMost(s, x) == CountAtMost(s[..j] + s[j + 1..], x) + if s[j] <= x then 1 else 0
  {
    var front, back := s[..j], s[j + 1..];
    assert s == front + [s[j]] + back && (front + [s[j]])[..j] == front;
    CountConcat(front + [s[j]], back, x);
    CountConcat(front, back, x);
  }

  lemma MultisetWithout(s: seq<real>, j: nat)
    requires j < |s|
    ensures multiset(s[..j] + s[j + 1..]) == multiset(s) - multiset{s[j]}
  {
    assert s == s[..j] + [s[j]] + s[j + 1..];
  }

  // Counting does not depend on the order.
  lemma {:induction false} CountOfMultiset(a: seq<real>, b: seq<real>, x: real)
    requires multiset(a) == multiset(b)
    ensures CountAtMost(a, x) == CountAtMost(b, x) && |a| == |b|
    decreases |a|
  {
    hide CountAtMost;
    assert |multiset(a)| == |a| && |multiset(b)| == |b|;
    if a == [] {
      assert b == [];
    } else {
      assert a[0] in multiset(a);
      assert a[0] in multiset(b);
      var j :| 0 <= j < |b| && b[j] == a[0];
      MultisetWithout(a, 0);
      MultisetWithout(b, j);
      CountOfMultiset(a[..0] + a[1..], b[..j] + b[j + 1..], x);
      CountWithout(a, 0, x);
      CountWithout(b, j, x);
    }
  }

  function Percent(part: nat, whole: nat): real
    requires whole > 0
  {
    100.0 * part as real / whole as real
  }

  // The share of the window not above its newest value, in percent.
  function PercentileAt(values: seq<real>, i: nat, period: nat): real
    requires i < |values| && period > 0
  {
    var w := Window(values, i + 1, period);
    Percent(CountAtMost(w, values[i]), |w|)
  }

  // The sorted list holds exactly the values of the window.
  ghost predicate Mirrors(window: seq<real>, w: seq<real>) {
    Sorted(window) && multiset(window) == multiset(w)
  }

  lemma MirrorGrows(window: seq<real>, w: seq<real>, x: real)
    requires Mirrors(window, w)
    ensures Mirrors(Insort(window, x), w + [x])
  {
    InsortSorts(window, x);
  }

  lemma MirrorShrinks(window: seq<real>, w: seq<real>)
    requires Mirrors(window, w) && w != []
    ensures var i := BisectRight(window, w[0]);
      0 < i <= |window| && Mirrors(window[..i - 1] + window[i..], w[1..])
  {
    hide BisectRight, Sorted;
    assert w[0] in multiset(w);
    assert w[0] in multiset(window);
    PopRemoves(window, w[0]);
    assert w == [w[0]] + w[1..];
  }

  lemma MirrorRanks(window: seq<real>, w: seq<real>, x: real)
    requires Mirrors(window, w)
    ensures BisectRight(window, x) == CountAtMost(w, x) && |window| == |w|
  {
    BisectCounts(window, x);
    CountOfMultiset(window, w, x);
  }

  method RollingPercentile(values: seq<real>, period: nat) returns (output: seq<real>)
    requires period > 0
    ensures |output| == |values|
    ensures forall i :: 0 <= i < |values| ==> output[i] == PercentileAt(values, i, period)
  {
    hide Mirrors, BisectRight, Insort, Window, CountAtMost, Percent;
    output := [];
    var window: seq<real> := [];
    EmptyMirror();
    NothingYet(values, period);
    for index := 0 to |values|
      invariant |output| == index
      invariant Mirrors(window, Window(values, index, period))
      invariant forall i :: 0 <= i < index ==> output[i] == PercentileAt(values, i, period)
    {
      var value := values[index];
      ghost var w := Window(values, index, period);
      MirrorGrows(window, w, value);
      WindowSlides(values, index, period);
      window := Insort(window, value);
      if index >= period {
        var leaving := values[index - period];
        MirrorShrinks(window, w + [value]);
        var at := BisectRight(window, leaving) - 1;
        window := window[..at] + window[at + 1..];
      }
      MirrorRanks(window, Window(values, index + 1, period), value);
      output := output + [Percent(BisectRight(window, value), |window|)];
    }
  }

  lemma EmptyMirror()
    ensures Mirrors([], [])
  {
  }
}
