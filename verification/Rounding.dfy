/** Python's round on exact numbers: to the nearest, ties to the even neighbour. */
module Rounding {
  function HalfEven(x: real): (n: int)
    ensures -0.5 <= n as real - x <= 0.5
    ensures (n as real - x == 0.5 || n as real - x == -0.5) ==> n % 2 == 0
  {
    var f := x.Floor;
    var d := x - f as real;
    if d < 0.5 then f else if d > 0.5 then f + 1 else if f % 2 == 0 then f else f + 1
  }

  /** 10 to the number of digits */
  function Scale(digits: nat): (s: int)
    ensures s >= 1
  {
    if digits == 0 then 1 else 10 * Scale(digits - 1)
  }

  /** x in parts, s of them to the unit. */
  function Parts(x: real, s: int): real {
    x * s as real
  }

  /** Rounding to a whole number of parts. */
  function RoundTo(x: real, s: int): (r: real)
    requires s >= 1
  {
    HalfEven(Parts(x, s)) as real / s as real
  }

  /** round(x, digits) */
  function Round(x: real, digits: nat): real {
    RoundTo(x, Scale(digits))
  }

  /** r is a whole number of parts. */
  predicate OnGrid(r: real, s: int)
    requires s >= 1
  {
    (r * s as real).Floor as real == r * s as real
  }

  lemma Times(x: real, y: real, s: real)
    requires x <= y && s >= 0.0
    ensures x * s <= y * s
  {
  }

  lemma Scaled(p: real, q: real, s: real)
    requires s > 0.0 && p * s <= q * s
    ensures p <= q
  {
    if p > q {
      Positive(p - q, s);
      Distributes(p - q, q, s);
    }
  }

  lemma Positive(x: real, y: real)
    requires x > 0.0 && y > 0.0
    ensures x * y > 0.0
  {
  }

  lemma Divides(n: real, s: real)
    requires s > 0.0
    ensures n / s * s == n
  {
  }

  lemma QuotientMonotone(a: int, b: int, s: int)
    requires s >= 1 && a <= b
    ensures a as real / s as real <= b as real / s as real
  {
    Divides(a as real, s as real);
    Divides(b as real, s as real);
    Scaled(a as real / s as real, b as real / s as real, s as real);
  }

  lemma Distributes(x: real, y: real, t: real)
    ensures (x + y) * t == x * t + y * t
  {
  }

  lemma HalfEvenMonotone(x: real, y: real)
    requires x <= y
    ensures HalfEven(x) <= HalfEven(y)
  {
  }

  lemma RoundToMonotone(x: real, y: real, s: int)
    requires s >= 1 && x <= y
    ensures RoundTo(x, s) <= RoundTo(y, s)
  {
    Times(x, y, s as real);
    HalfEvenMonotone(Parts(x, s), Parts(y, s));
    QuotientMonotone(HalfEven(Parts(x, s)), HalfEven(Parts(y, s)), s);
  }

  /** A rounded value times the number of parts is whole. */
  lemma RoundToParts(x: real, s: int)
    requires s >= 1
    ensures RoundTo(x, s) * s as real == HalfEven(Parts(x, s)) as real
  {
    Divides(HalfEven(Parts(x, s)) as real, s as real);
  }

  lemma RoundMonotone(x: real, y: real, digits: nat)
    requires x <= y
    ensures Round(x, digits) <= Round(y, digits)
  {
    RoundToMonotone(x, y, Scale(digits));
  }

  /** Numbers two or more apart stay apart. */
  lemma RoundApart(x: real, y: real, digits: nat)
    requires x + 2.0 <= y
    ensures Round(x, digits) < Round(y, digits)
  {
    var s := Scale(digits);
    Times(x + 2.0, y, s as real);
    Distributes(x, 2.0, s as real);
    var m, n := HalfEven(Parts(x, s)), HalfEven(Parts(y, s));
    assert m < n;
    RoundToParts(x, s);
    RoundToParts(y, s);
    if Round(y, digits) <= Round(x, digits) {
      Times(Round(y, digits), Round(x, digits), s as real);
    }
  }

  /** What a rounding returns has no digits left to round. */
  lemma RoundOnGrid(x: real, s: int)
    requires s >= 1
    ensures OnGrid(RoundTo(x, s), s)
  {
    RoundToParts(x, s);
    assert (HalfEven(Parts(x, s)) as real).Floor == HalfEven(Parts(x, s));
  }

  lemma GridFixed(r: real, s: int)
    requires s >= 1 && OnGrid(r, s)
    ensures RoundTo(r, s) == r
  {
    assert HalfEven(Parts(r, s)) as real == Parts(r, s);
    RoundToParts(r, s);
    Scaled(RoundTo(r, s), r, s as real);
    Scaled(r, RoundTo(r, s), s as real);
  }

  lemma GridSum(x: real, y: real, s: int)
    requires s >= 1 && OnGrid(x, s) && OnGrid(y, s)
    ensures OnGrid(x + y, s)
  {
    Distributes(x, y, s as real);
    WholeSum(x * s as real, y * s as real);
  }

  lemma WholeSum(x: real, y: real)
    requires x.Floor as real == x && y.Floor as real == y
    ensures (x + y).Floor as real == x + y
  {
    assert x + y == (x.Floor + y.Floor) as real;
  }

  lemma WholeOnGrid(n: int, s: int)
    requires s >= 1
    ensures OnGrid(n as real, s)
  {
    assert n as real * s as real == (n * s) as real;
  }

  /** Rounding stays within whole-numbered bounds. */
  lemma RoundWithin(x: real, low: int, high: int, digits: nat)
    requires low as real <= x <= high as real
    ensures low as real <= Round(x, digits) <= high as real
  {
    RoundMonotone(low as real, x, digits);
    RoundMonotone(x, high as real, digits);
    WholeOnGrid(low, Scale(digits));
    WholeOnGrid(high, Scale(digits));
    GridFixed(low as real, Scale(digits));
    GridFixed(high as real, Scale(digits));
  }

  lemma RoundNonNegative(x: real, digits: nat)
    requires x >= 0.0
    ensures Round(x, digits) >= 0.0
  {
    RoundMonotone(0.0, x, digits);
    WholeOnGrid(0, Scale(digits));
    GridFixed(0.0, Scale(digits));
  }

  predicate WholeNumber(x: real) {
    x.Floor as real == x
  }

  /** Rounding moves a value by at most half a part. */
  lemma RoundNear(x: real, s: int)
    requires s >= 1
    ensures WholeNumber(Parts(RoundTo(x, s), s))
    ensures -0.5 <= Parts(RoundTo(x, s), s) - Parts(x, s) <= 0.5
  {
    RoundToParts(x, s);
    WholeIs(HalfEven(Parts(x, s)));
  }

  lemma WholeIs(n: int)
    ensures WholeNumber(n as real)
  {
  }

  lemma Tenths(x: real)
    ensures var r := Round(x, 1); WholeNumber(r * 10.0) && -0.05 <= r - x <= 0.05
  {
    RoundNear(x, 10);
  }

  lemma Hundredths(x: real)
    ensures var r := Round(x, 2); WholeNumber(r * 100.0) && -0.005 <= r - x <= 0.005
  {
    assert Scale(1) == 10;
    RoundNear(x, 100);
  }

  lemma Thousandths(x: real)
    ensures var r := Round(x, 3); WholeNumber(r * 1000.0) && -0.0005 <= r - x <= 0.0005
  {
    assert Scale(1) == 10 && Scale(2) == 100;
    RoundNear(x, 1000);
  }
}
