// Candle lists in strictly ascending time order.
module CandleLists {
  import opened Backtest

  ghost predicate Ascending(candles: seq<Candle>) {
    forall i, j :: 0 <= i < j < |candles| ==> candles[i].timestamp < candles[j].timestamp
  }

  lemma EmptyAscends()
    ensures Ascending([])
  {
  }

  lemma AscendingCons(c: Candle, rest: seq<Candle>)
    requires Ascending(rest) && forall x :: x in rest ==> c.timestamp < x.timestamp
    ensures Ascending([c] + rest)
  {
  }

  lemma AscendingTail(candles: seq<Candle>)
    requires Ascending(candles) && candles != []
    ensures Ascending(candles[1..])
    ensures forall x :: x in candles[1..] <==> x in candles && x != candles[0]
    ensures forall x :: x in candles[1..] ==> candles[0].timestamp < x.timestamp
  {
  }

  lemma EmptyOrMember(candles: seq<Candle>)
    ensures candles == [] || exists x :: x in candles
  {
    if candles != [] {
      assert candles[0] in candles;
    }
  }

  lemma FirstIsLeast(candles: seq<Candle>, x: Candle)
    requires Ascending(candles) && x in candles
    ensures candles[0].timestamp <= x.timestamp
    ensures x.timestamp == candles[0].timestamp ==> x == candles[0]
  {
  }

  // An ascending list is determined by its elements.
  lemma {:induction false} SameElements(a: seq<Candle>, b: seq<Candle>)
    requires Ascending(a) && Ascending(b)
    requires forall x :: x in a <==> x in b
    ensures a == b
    decreases |a|
  {
    hide Ascending;
    EmptyOrMember(b);
    if a != [] {
      assert a[0] in b;
      assert b[0] in a;
      FirstIsLeast(b, a[0]);
      FirstIsLeast(a, b[0]);
      AscendingTail(a);
      AscendingTail(b);
      SameElements(a[1..], b[1..]);
      assert a == [a[0]] + a[1..] && b == [b[0]] + b[1..];
    }
  }
}
