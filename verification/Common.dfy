// Small shared vocabulary: optional values, results and the two decimal roundings the
// system uses explicitly. Every Decimal is an exact real.
module Common {
  datatype Option<+T> = None | Some(value: T)

  datatype Result<+T, +E> = Ok(value: T) | Err(error: E)

  function Max(a: real, b: real): real {
    if a >= b then a else b
  }

  function Min(a: real, b: real): real {
    if a <= b then a else b
  }

  function Abs(a: real): real {
    if a >= 0.0 then a else -a
  }

  function MaxInt(a: int, b: int): int {
    if a >= b then a else b
  }

  function MinInt(a: int, b: int): int {
    if a <= b then a else b
  }

  // `quantize(..., ROUND_DOWN)` with `scale` units per whole: truncation toward zero.
  function QuantizeDown(x: real, scale: nat): (r: real)
    requires scale > 0
    ensures x >= 0.0 ==> 0.0 <= r <= x && x - r < 1.0 / scale as real
    ensures x <= 0.0 ==> x <= r <= 0.0
  {
    if x >= 0.0 then DownUnits(x, scale) else -DownUnits(-x, scale)
  }

  // Non-negative case of the truncation.
  function DownUnits(x: real, scale: nat): (r: real)
    requires scale > 0 && x >= 0.0
    ensures 0.0 <= r <= x && x - r < 1.0 / scale as real
  {
    var s := scale as real;
    var units := (x * s).Floor as real;
    DivideBack(x, s, units);
    units / s
  }

  lemma DivideBack(x: real, s: real, units: real)
    requires s > 0.0 && x >= 0.0 && units <= x * s < units + 1.0 && units >= 0.0
    ensures 0.0 <= units / s <= x && x - units / s < 1.0 / s
  {
    var q := units / s;
    var inv := 1.0 / s;
    assert q * s == units && inv * s == 1.0;
    ScaleOrder(q, x, s);
    ScaleOrder(0.0, q, s);
    ScaleOrder(inv, x - q, s);
  }

  // Multiplying by a positive factor keeps and reflects order.
  lemma ScaleOrder(a: real, b: real, s: real)
    requires s > 0.0
    ensures a <= b <==> a * s <= b * s
    ensures a < b <==> a * s < b * s
  {
    if a < b {
      GrowWithFactor(a, b, s);
    } else if b < a {
      GrowWithFactor(b, a, s);
    }
  }

  lemma GrowWithFactor(a: real, b: real, s: real)
    requires s > 0.0 && a < b
    ensures a * s < b * s
  {
    assert (b - a) * s > 0.0;
  }

  // Nearest integer, ties to even: Decimal's default rounding.
  function RoundHalfEven(x: real): (n: int)
    ensures n as real - 0.5 <= x <= n as real + 0.5
  {
    var f := x.Floor;
    var d := x - f as real;
    if d < 0.5 then f
    else if d > 0.5 then f + 1
    else if f % 2 == 0 then f else f + 1
  }

  // `quantize` with the default rounding and `scale` units per whole.
  function Quantize(x: real, scale: nat): (r: real)
    requires scale > 0
    ensures Abs(r - x) <= 0.5 / scale as real
  {
    var n := NearestUnits(x, scale) as real;
    HalfUnit(x, scale as real, n);
    n / scale as real
  }

  function NearestUnits(x: real, scale: nat): (n: int)
    ensures n as real - 0.5 <= x * scale as real <= n as real + 0.5
  {
    RoundHalfEven(x * scale as real)
  }

  lemma HalfUnit(x: real, s: real, n: real)
    requires s > 0.0 && n - 0.5 <= x * s <= n + 0.5
    ensures Abs(n / s - x) <= 0.5 / s
  {
    var q := n / s;
    var h := 0.5 / s;
    assert q * s == n && h * s == 0.5;
    ScaleOrder(q - x, h, s);
    ScaleOrder(x - q, h, s);
  }

  // Rounding never crosses a representable value.
  lemma QuantizeBounds(x: real, scale: nat, units: int)
    requires scale > 0
    ensures x >= units as real / scale as real ==> Quantize(x, scale) >= units as real / scale as real
    ensures x <= units as real / scale as real ==> Quantize(x, scale) <= units as real / scale as real
  {
    hide RoundHalfEven;
    var n := NearestUnits(x, scale);
    QuotientOrder(x, scale as real, units as real);
    QuotientOrder(n as real / scale as real, scale as real, units as real);
    QuotientTimes(n as real, scale as real);
    assert x * scale as real >= units as real ==> n >= units;
    assert x * scale as real <= units as real ==> n <= units;
  }

  lemma QuotientTimes(a: real, s: real)
    requires s > 0.0
    ensures a / s * s == a
  {
  }

  lemma QuotientOrder(x: real, s: real, a: real)
    requires s > 0.0
    ensures x >= a / s <==> x * s >= a
    ensures x <= a / s <==> x * s <= a
  {
    QuotientTimes(a, s);
    ScaleOrder(x, a / s, s);
    ScaleOrder(a / s, x, s);
  }
}
