// The read-only prefix view handed to strategies, with Python's indexing and slicing rules.
module HistoryView {
  import opened Common

  // Candles known at decision time are `candles[..stop]`; later ones are still in `candles`.
  datatype View<T> = View(candles: seq<T>, stop: nat) {
    predicate Valid() {
      stop <= |candles|
    }

    function Closed(): (v: View<T>)
      requires Valid()
      ensures v.Valid()
    {
      View(candles[..stop], stop)
    }

    // `view[index]`; None is the IndexError.
    function Get(index: int): Option<T>
      requires Valid()
    {
      var normalized := if index < 0 then index + stop else index;
      if normalized < 0 || normalized >= stop then None else Some(candles[normalized])
    }

    // `view[start:stop:step]`: the bounds are resolved against the prefix length and then
    // handed, as plain integers, to a slice of the whole underlying list.
    function Slice(slice: PySlice): (r: seq<T>)
      requires Valid() && slice.step != 0
    {
      var b := Resolve(slice, stop);
      TakeSlice(candles, PySlice(Some(b.start), Some(b.stop), slice.step))
    }
  }

  datatype PySlice = PySlice(start: Option<int>, stop: Option<int>, step: int)

  datatype Bounds = Bounds(start: int, stop: int)

  function Clamp(x: int, low: int, high: int): int {
    if x < low then low else if x > high then high else x
  }

  // `slice.indices(length)`.
  function Resolve(slice: PySlice, length: nat): (b: Bounds)
    requires slice.step != 0
    ensures slice.step > 0 ==> 0 <= b.start <= length && 0 <= b.stop <= length
    ensures slice.step < 0 ==> -1 <= b.start <= length - 1 && -1 <= b.stop <= length - 1
  {
    var low := if slice.step > 0 then 0 else -1;
    var high := if slice.step > 0 then length else length - 1;
    Bounds(
      ResolveOne(slice.start, if slice.step > 0 then low else high, length, low, high),
      ResolveOne(slice.stop, if slice.step > 0 then high else low, length, low, high))
  }

  function ResolveOne(bound: Option<int>, default: int, length: nat, low: int, high: int): int {
    match bound
    case None => default
    case Some(x) => Clamp(if x < 0 then x + length else x, low, high)
  }

  // The elements a list slice yields: walk from the resolved start while before the resolved stop.
  function TakeSlice<T>(items: seq<T>, slice: PySlice): seq<T>
    requires slice.step != 0
  {
    var b := Resolve(slice, |items|);
    Walk(items, b.start, b.stop, slice.step)
  }

  function Walk<T>(items: seq<T>, at: int, stop: int, step: int): seq<T>
    requires step > 0 ==> 0 <= at && stop <= |items|
    requires step < 0 ==> at < |items| && -1 <= stop
    requires step != 0
    decreases if step > 0 then stop - at else at - stop
  {
    if (step > 0 && at >= stop) || (step < 0 && at <= stop) then []
    else [items[at]] + Walk(items, at + step, stop, step)
  }

  // ---------------------------------------------------------------- what a strategy can see

  // An index reads the prefix and nothing else.
  lemma GetSeesPrefixOnly<T>(v: View<T>, index: int)
    requires v.Valid()
    ensures v.Get(index) == v.Closed().Get(index)
    ensures v.Get(index).Some? <==> 0 <= index + v.stop && index < v.stop
  {
  }

  // The slice bounds that survive being resolved a second time.
  predicate Faithful(slice: PySlice, stop: nat, total: nat)
    requires slice.step != 0
  {
    var b := Resolve(slice, stop);
    || slice.step > 0
    || (b.start >= 0 && b.stop >= 0)
    || (b.start == -1 && (b.stop == -1 || b.stop == total - 1))
  }

  // A slice of the view equals the same slice of the prefix list exactly for faithful bounds:
  // every positive step, and those negative steps whose resolved bounds are not the -1 that
  // the second resolution reads as "last element".
  lemma SliceIsPrefixSlice<T>(v: View<T>, slice: PySlice)
    requires v.Valid() && slice.step != 0
    ensures v.Slice(slice) == TakeSlice(v.candles[..v.stop], slice) <==> Faithful(slice, v.stop, |v.candles|)
  {
    var n, total := v.stop, |v.candles|;
    var prefix := v.candles[..n];
    var b := Resolve(slice, n);
    assert TakeSlice(prefix, slice) == Walk(prefix, b.start, b.stop, slice.step);
    if slice.step > 0 {
      WalkOfPrefix(v.candles, n, b.start, b.stop, slice.step);
    } else if b.start >= 0 && b.stop >= 0 {
      WalkOfPrefix(v.candles, n, b.start, b.stop, slice.step);
    } else if b.start >= 0 {
      assert v.Slice(slice) == [];
      assert |TakeSlice(prefix, slice)| > 0;
    } else if total > 0 {
      assert TakeSlice(prefix, slice) == [];
      assert v.Slice(slice) == Walk(v.candles, total - 1, if b.stop == -1 then total - 1 else b.stop, slice.step);
    }
  }

  lemma {:induction false} WalkOfPrefix<T>(items: seq<T>, n: nat, at: int, stop: int, step: int)
    requires n <= |items| && step != 0
    requires step > 0 ==> 0 <= at && stop <= n
    requires step < 0 ==> at < n && -1 <= stop
    ensures Walk(items, at, stop, step) == Walk(items[..n], at, stop, step)
    decreases if step > 0 then stop - at else at - stop
  {
    if !((step > 0 && at >= stop) || (step < 0 && at <= stop)) {
      WalkOfPrefix(items, n, at + step, stop, step);
    }
  }

  // Hence every slice with a positive step hides the future.
  lemma ForwardSlicesHideFuture<T>(a: View<T>, b: View<T>, slice: PySlice)
    requires a.Valid() && b.Valid() && a.Closed() == b.Closed()
    requires slice.step > 0
    ensures a.Slice(slice) == b.Slice(slice)
  {
    SliceIsPrefixSlice(a, slice);
    SliceIsPrefixSlice(b, slice);
  }

  // The bounds for which the view hands out a candle that is not closed yet.
  predicate Leaks(slice: PySlice, stop: nat, total: nat)
    requires slice.step != 0
  {
    var b := Resolve(slice, stop);
    slice.step < 0 && b.start == -1 && b.stop >= 0 && stop < total
  }

  // A slice reads an unclosed candle exactly when its step is negative, its start lies before
  // the first candle and its stop does not; it then begins with the very last candle.
  lemma SliceLeaksExactly(stop: nat, total: nat, slice: PySlice)
    requires stop <= total && slice.step != 0
    ensures var positions := View(seq(total, i => i), stop).Slice(slice);
      (exists p :: p in positions && p >= stop) <==> Leaks(slice, stop, total)
  {
    var v := View(seq(total, i => i), stop);
    var positions := v.Slice(slice);
    var b := Resolve(slice, stop);
    if slice.step > 0 {
      WalkWithin(v.candles, b.start, b.stop, slice.step, stop);
    } else if b.start >= 0 {
      WalkWithin(v.candles, b.start, if b.stop == -1 then total - 1 else b.stop, slice.step, stop);
    } else if total > 0 && b.stop >= 0 && stop < total {
      assert positions[0] == total - 1 && positions[0] in positions;
      assert Leaks(slice, stop, total);
    } else if total > 0 {
      WalkWithin(v.candles, total - 1, if b.stop == -1 then total - 1 else b.stop, slice.step, total);
    }
  }

  lemma {:induction false} WalkWithin(items: seq<int>, at: int, stop: int, step: int, bound: int)
    requires step != 0 && bound <= |items|
    requires forall i :: 0 <= i < |items| ==> items[i] == i
    requires step > 0 ==> 0 <= at && stop <= bound
    requires step < 0 ==> at < bound && -1 <= stop
    ensures forall p :: p in Walk(items, at, stop, step) ==> p < bound
    decreases if step > 0 then stop - at else at - stop
  {
    if !((step > 0 && at >= stop) || (step < 0 && at <= stop)) {
      WalkWithin(items, at + step, stop, step, bound);
    }
  }

  // A slice that does not leak reads the same from the view and from the closed candles alone.
  lemma HiddenSlices<T>(v: View<T>, slice: PySlice)
    requires v.Valid() && slice.step != 0 && !Leaks(slice, v.stop, |v.candles|)
    ensures v.Slice(slice) == v.Closed().Slice(slice)
  {
    var b := Resolve(slice, v.stop);
    if slice.step > 0 {
      WalkOfPrefix(v.candles, v.stop, b.start, b.stop, slice.step);
    } else if b.start >= 0 && b.stop >= 0 {
      WalkOfPrefix(v.candles, v.stop, b.start, b.stop, slice.step);
    } else if b.start >= 0 {
      assert v.Slice(slice) == [] == v.Closed().Slice(slice);
    } else if b.stop >= 0 {
      assert v.candles == v.candles[..v.stop];
    } else {
      assert v.Slice(slice) == [] == v.Closed().Slice(slice);
    }
  }

  // Slices that could leak, whatever follows the closed candles.
  predicate MayLeak(slice: PySlice, stop: nat)
    requires slice.step != 0
  {
    var b := Resolve(slice, stop);
    slice.step < 0 && b.start == -1 && b.stop >= 0
  }

  predicate SameFromPrefix(closed: seq<int>, future: seq<int>, slice: PySlice)
    requires slice.step != 0
  {
    View(closed + future, |closed|).Slice(slice) == View(closed, |closed|).Slice(slice)
  }

  // A slice gives the same answer whatever candles follow the closed ones if and only if its
  // bounds cannot leak.
  lemma SliceHidesFutureExactly(closed: seq<int>, slice: PySlice)
    requires slice.step != 0
    ensures (forall future: seq<int> :: SameFromPrefix(closed, future, slice)) <==> !MayLeak(slice, |closed|)
  {
    var n := |closed|;
    if MayLeak(slice, n) {
      var b := Resolve(slice, n);
      var seen := View(closed, n).Slice(slice);
      var other := if seen == [] then 0 else seen[0] + 1;
      assert View(closed + [other], n).Slice(slice) == Walk(closed + [other], n, b.stop, slice.step);
      assert View(closed + [other], n).Slice(slice)[0] == other;
      assert !SameFromPrefix(closed, [other], slice);
    } else {
      forall future: seq<int>
        ensures SameFromPrefix(closed, future, slice)
      {
        HiddenSlices(View(closed + future, n), slice);
        assert (closed + future)[..n] == closed;
      }
    }
  }

  // `view[::-1]` is empty, and `view[-10:2:-1]` on five known candles returns the future ones.
  lemma ReversedViewExamples()
    ensures View([10, 11, 12, 13, 14, 15, 16], 5).Slice(PySlice(None, None, -1)) == []
    ensures View([10, 11, 12, 13, 14, 15, 16], 5).Slice(PySlice(Some(-10), Some(2), -1)) == [16, 15, 14, 13]
  {
    var v := View([10, 11, 12, 13, 14, 15, 16], 5);
    assert v.Slice(PySlice(Some(-10), Some(2), -1)) == Walk(v.candles, 6, 2, -1);
    assert Walk(v.candles, 3, 2, -1) == [13];
    assert Walk(v.candles, 4, 2, -1) == [14, 13];
    assert Walk(v.candles, 5, 2, -1) == [15, 14, 13];
  }
}
