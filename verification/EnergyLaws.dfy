/** What the integration keeps: conservation over whole runs, and indifference to interpolated samples. */
module EnergyLaws {
  import Rounding
  import opened Energy

  const WATT_SECONDS_PER_KWH: real := 3600000.0

  function Max(x: real, y: real): real {
    if x < y then y else x
  }

  function Negated(e: Event): Event {
    if e.Sample? then Sample(e.at, -e.power) else Gap
  }

  function Swapped(f: Flow): Flow {
    Flow(f.discharged, f.charged)
  }

  function Net(f: Flow): real {
    f.charged - f.discharged
  }

  /** The signed trapezoid of an interval, in kWh. */
  function SignedInterval(p: real, q: real, t: real): real {
    (p + q) / 2.0 * t / WATT_SECONDS_PER_KWH
  }

  /** The larger power of an interval held throughout, in kWh. */
  function PeakInterval(p: real, q: real, t: real): real {
    Max(Abs(p), Abs(q)) * t / WATT_SECONDS_PER_KWH
  }

  /** Two samples, the second after the first and at most an hour after it. */
  predicate WithinHour(a: Event, b: Event) {
    a.Sample? && b.Sample? && a.at < b.at <= a.at + 3600.0
  }

  /** What an interval is worth: the signed trapezoid within an hour, and nothing otherwise. */
  function SignedEnergy(a: Event, b: Event): real {
    if WithinHour(a, b) then (a.power + b.power) / 2.0 * (b.at - a.at) / 3600000.0 else 0.0
  }

  function PeakEnergy(a: Event, b: Event): real {
    if WithinHour(a, b) then PeakInterval(a.power, b.power, b.at - a.at) else 0.0
  }

  // One segment and one interval

  lemma MulNonNeg(x: real, y: real)
    requires x >= 0.0 && y >= 0.0
    ensures x * y >= 0.0
  {
  }

  /** A segment in closed form. */
  lemma SegmentIs(p: real, q: real, t: real)
    requires t >= 0.0
    ensures var avg := (p + q) / 2.0;
            SegmentFlow(p, q, t) == if avg >= 0.0 then Flow(avg * t / WATT_SECONDS_PER_KWH, 0.0)
                                    else Flow(0.0, -avg * t / WATT_SECONDS_PER_KWH)
  {
    var avg := (p + q) / 2.0;
    assert avg * (t / 3600.0) == avg * t / 3600.0;
    if avg >= 0.0 {
      MulNonNeg(avg, t);
    } else {
      MulNonNeg(-avg, t);
      assert -avg * t == -(avg * t);
    }
  }

  lemma OppositesDiffer(p: real, q: real)
    requires p * q < 0.0
    ensures p != q
  {
    SquareNonNegative(p);
  }

  lemma SquareNonNegative(x: real)
    ensures x * x >= 0.0
  {
  }

  lemma MixedSigns(x: real, y: real)
    requires x < 0.0 && y > 0.0
    ensures x * y < 0.0 && y * x < 0.0
  {
  }

  /** Where the sign changes lies within the interval. */
  lemma CrossingIs(p: real, q: real, t: real)
    requires p * q < 0.0 && t > 0.0
    ensures p - q != 0.0
    ensures var c := t * p / (p - q); 0.0 <= c <= t && c * (p - q) == t * p && (t - c) * (p - q) == -(t * q)
  {
    OppositesDiffer(p, q);
    var c := t * p / (p - q);
    assert c * (p - q) == t * p;
    assert (t - c) * (p - q) == t * (p - q) - c * (p - q) == t * p - t * q - t * p;
    if p > 0.0 {
      SignsDiffer(p, q);
      MulNonNeg(t, p);
      MulNonNeg(t, -q);
      Quotient(c, p - q, t * p);
      Quotient(t - c, p - q, t * -q);
    } else {
      assert p != 0.0;
      SignsDiffer(q, p);
      MulNonNeg(t, -p);
      MulNonNeg(t, q);
      Quotient(c, q - p, t * -p);
      Quotient(t - c, q - p, t * q);
    }
  }

  lemma SignsDiffer(p: real, q: real)
    requires p * q < 0.0 && (p > 0.0 || q < 0.0)
    ensures p > 0.0 && q < 0.0
  {
    if p > 0.0 && q >= 0.0 {
      MulNonNeg(p, q);
    }
    if q < 0.0 && p <= 0.0 {
      MulNonNeg(-p, -q);
    }
  }

  lemma Quotient(c: real, d: real, n: real)
    requires d > 0.0 && n >= 0.0 && c * d == n
    ensures c >= 0.0
  {
    if c < 0.0 {
      MixedSigns(c, d);
    }
  }

  /** Both branches of an interval in closed form: with a sign change, each side is a triangle up to the crossing. */
  lemma IntervalIs(p: real, q: real, t: real)
    requires t > 0.0
    ensures p * q < 0.0 ==>
              var c := t * p / (p - q);
              IntervalFlow(p, q, t) == if p > 0.0
                then Flow(p / 2.0 * c / WATT_SECONDS_PER_KWH, -(q / 2.0) * (t - c) / WATT_SECONDS_PER_KWH)
                else Flow(q / 2.0 * (t - c) / WATT_SECONDS_PER_KWH, -(p / 2.0) * c / WATT_SECONDS_PER_KWH)
    ensures p * q >= 0.0 ==> IntervalFlow(p, q, t) == SegmentFlow(p, q, t)
  {
    hide SegmentFlow;
    if p * q < 0.0 {
      CrossingIs(p, q, t);
      var c := t * p / (p - q);
      SegmentIs(p, 0.0, c);
      SegmentIs(0.0, q, t - c);
      if p > 0.0 {
        SignsDiffer(p, q);
      } else {
        SignsDiffer(q, p);
      }
    }
  }

  lemma Div(x: real, y: real)
    ensures x / WATT_SECONDS_PER_KWH + y / WATT_SECONDS_PER_KWH == (x + y) / WATT_SECONDS_PER_KWH
    ensures x <= y ==> x / WATT_SECONDS_PER_KWH <= y / WATT_SECONDS_PER_KWH
  {
  }

  /** No interval takes energy out of a counter. */
  lemma IntervalNonNegative(p: real, q: real, t: real)
    requires t > 0.0
    ensures var f := IntervalFlow(p, q, t); f.charged >= 0.0 && f.discharged >= 0.0
  {
  }

  /** What an interval adds to one counter and the other differs by its signed trapezoid. */
  lemma IntervalNet(p: real, q: real, t: real)
    requires t > 0.0
    ensures Net(IntervalFlow(p, q, t)) == SignedInterval(p, q, t)
  {
    hide IntervalFlow;
    IntervalIs(p, q, t);
    if p * q < 0.0 {
      CrossingIs(p, q, t);
      var c := t * p / (p - q);
      assert p * c + q * (t - c) == c * (p - q) + q * t == (p + q) * t;
      if p > 0.0 {
        Div(p / 2.0 * c, q / 2.0 * (t - c));
      } else {
        Div(q / 2.0 * (t - c), p / 2.0 * c);
      }
    } else {
      SegmentIs(p, q, t);
    }
  }

  lemma Triangles(a: real, b: real, m: real, c: real, t: real)
    requires 0.0 <= a <= m && 0.0 <= b <= m && 0.0 <= c <= t
    ensures a / 2.0 * c + b / 2.0 * (t - c) <= m * t
  {
    Rounding.Times(a, m, c);
    Rounding.Times(b, m, t - c);
    MulNonNeg(m, t);
    assert m * c + m * (t - c) == m * t;
  }

  lemma TrianglesInKwh(a: real, b: real, m: real, c: real, t: real)
    requires 0.0 <= a <= m && 0.0 <= b <= m && 0.0 <= c <= t
    ensures a / 2.0 * c / WATT_SECONDS_PER_KWH + b / 2.0 * (t - c) / WATT_SECONDS_PER_KWH
         <= m * t / WATT_SECONDS_PER_KWH
  {
    Triangles(a, b, m, c, t);
    Div(a / 2.0 * c, b / 2.0 * (t - c));
    Div(a / 2.0 * c + b / 2.0 * (t - c), m * t);
  }

  lemma CrossingNegated(p: real, q: real, t: real)
    requires t > 0.0 && p * q < 0.0 && -p * -q < 0.0
    ensures p - q != 0.0 && -p - -q != 0.0 && t * p / (p - q) == t * -p / (-p - -q)
  {
    CrossingIs(p, q, t);
    CrossingIs(-p, -q, t);
    var c, c' := t * p / (p - q), t * -p / (-p - -q);
    assert c' * (-p - -q) == -(c' * (p - q));
    assert t * -p == -(t * p);
    Cancel(c, c', p - q);
  }

  lemma SwitchNegated(p: real, q: real, t: real)
    requires t > 0.0 && p > 0.0 && q < 0.0 && p * q < 0.0 && -p * -q < 0.0
    ensures IntervalFlow(-p, -q, t) == Swapped(IntervalFlow(p, q, t))
    ensures IntervalFlow(p, q, t) == Swapped(IntervalFlow(-p, -q, t))
  {
    CrossingNegated(p, q, t);
    IntervalIs(p, q, t);
    IntervalIs(-p, -q, t);
  }

  /** Reversing the power swaps what an interval adds to the two counters. */
  lemma IntervalNegated(p: real, q: real, t: real)
    requires t > 0.0
    ensures IntervalFlow(-p, -q, t) == Swapped(IntervalFlow(p, q, t))
  {
    assert -p * -q == p * q;
    if p * q < 0.0 {
      if p > 0.0 {
        SignsDiffer(p, q);
        SwitchNegated(p, q, t);
      } else {
        SignsDiffer(q, p);
        assert -(-p) == p && -(-q) == q;
        SwitchNegated(-p, -q, t);
      }
    } else {
      SegmentIs(p, q, t);
      SegmentIs(-p, -q, t);
    }
  }

  lemma SwitchPeak(p: real, q: real, t: real)
    requires t > 0.0 && p > 0.0 && q < 0.0 && p * q < 0.0
    ensures var f := IntervalFlow(p, q, t);
            f.charged + f.discharged <= Max(p, -q) * t / WATT_SECONDS_PER_KWH
  {
    IntervalIs(p, q, t);
    CrossingIs(p, q, t);
    TrianglesInKwh(p, -q, Max(p, -q), t * p / (p - q), t);
  }

  lemma ScaleMono(x: real, y: real, t: real)
    requires x <= y && t >= 0.0
    ensures x * t / WATT_SECONDS_PER_KWH <= y * t / WATT_SECONDS_PER_KWH
  {
    Rounding.Times(x, y, t);
    Div(x * t, y * t);
  }

  lemma TrapezoidPeak(p: real, q: real, t: real)
    requires t > 0.0
    ensures var f := SegmentFlow(p, q, t);
            f.charged + f.discharged <= Max(Abs(p), Abs(q)) * t / WATT_SECONDS_PER_KWH
  {
    SegmentIs(p, q, t);
    var avg := (p + q) / 2.0;
    if avg >= 0.0 {
      ScaleMono(avg, Max(Abs(p), Abs(q)), t);
    } else {
      ScaleMono(-avg, Max(Abs(p), Abs(q)), t);
    }
  }

  lemma ChargeFirstPeak(p: real, q: real, t: real)
    requires t > 0.0 && p > 0.0 && q < 0.0 && p * q < 0.0
    ensures var f := IntervalFlow(p, q, t);
            f.charged + f.discharged <= Max(Abs(p), Abs(q)) * t / WATT_SECONDS_PER_KWH
  {
    SwitchPeak(p, q, t);
    assert Abs(p) == p && Abs(q) == -q;
  }

  lemma DischargeFirstPeak(p: real, q: real, t: real)
    requires t > 0.0 && p < 0.0 && q > 0.0 && -p * -q < 0.0
    ensures var f := IntervalFlow(p, q, t);
            f.charged + f.discharged <= Max(Abs(p), Abs(q)) * t / WATT_SECONDS_PER_KWH
  {
    ChargeFirstPeak(-p, -q, t);
    IntervalNegated(p, q, t);
    assert Abs(-p) == Abs(p) && Abs(-q) == Abs(q);
  }

  /** An interval adds no more than its larger power held throughout. */
  lemma IntervalPeak(p: real, q: real, t: real)
    requires t > 0.0
    ensures var f := IntervalFlow(p, q, t);
            f.charged + f.discharged <= PeakInterval(p, q, t)
  {
    hide SegmentFlow;
    assert -p * -q == p * q;
    if p * q >= 0.0 {
      TrapezoidPeak(p, q, t);
    } else if p > 0.0 {
      SignsDiffer(p, q);
      ChargeFirstPeak(p, q, t);
    } else {
      SignsDiffer(q, p);
      DischargeFirstPeak(p, q, t);
    }
  }

  lemma Cancel(x: real, y: real, d: real)
    requires d != 0.0 && x * d == y * d
    ensures x == y
  {
    assert (x - y) * d == 0.0;
  }

  // Splitting an interval

  function Charged(p: real, q: real, t: real): real {
    IntervalFlow(p, q, t).charged
  }

  /** Half the square of the power when it charges: the antiderivative of the charging power along a linear ramp. */
  function Ramp(p: real): real {
    (if p > 0.0 then p * p / 2.0 else 0.0) / WATT_SECONDS_PER_KWH
  }

  lemma SwitchAlongRamp(p: real, q: real, t: real)
    requires t > 0.0 && p * q < 0.0
    ensures Charged(p, q, t) * (q - p) == t * (Ramp(q) - Ramp(p))
  {
    hide IntervalFlow;
    IntervalIs(p, q, t);
    CrossingIs(p, q, t);
    var c := t * p / (p - q);
    if p > 0.0 {
      SignsDiffer(p, q);
      Triangle(p, c, p - q, t);
    } else {
      SignsDiffer(q, p);
      Triangle(q, t - c, q - p, t);
    }
  }

  lemma Triangle(p: real, c: real, d: real, t: real)
    requires c * d == t * p
    ensures p / 2.0 * c / WATT_SECONDS_PER_KWH * d == t * (p * p / 2.0 / WATT_SECONDS_PER_KWH)
  {
    assert p / 2.0 * c * d == p / 2.0 * (c * d) == p / 2.0 * (t * p) == t * (p * p / 2.0);
  }

  lemma Trapezoid(p: real, q: real, t: real)
    ensures (p + q) / 2.0 * t / WATT_SECONDS_PER_KWH * (q - p)
         == t * (q * q / 2.0 / WATT_SECONDS_PER_KWH - p * p / 2.0 / WATT_SECONDS_PER_KWH)
  {
    assert (p + q) * (q - p) == q * q - p * p;
    assert (p + q) / 2.0 * t * (q - p) == t * ((p + q) * (q - p) / 2.0);
  }

  lemma ChargedAlongRamp(p: real, q: real, t: real)
    requires t > 0.0
    ensures Charged(p, q, t) * (q - p) == t * (Ramp(q) - Ramp(p))
  {
    if p * q < 0.0 {
      SwitchAlongRamp(p, q, t);
    } else {
      SegmentIs(p, q, t);
      SameSign(p, q);
      Trapezoid(p, q, t);
    }
  }

  lemma SameSign(p: real, q: real)
    requires p * q >= 0.0
    ensures (p >= 0.0 && q >= 0.0) || (p <= 0.0 && q <= 0.0)
  {
    if p > 0.0 && q < 0.0 {
      MixedSigns(q, p);
    }
    if p < 0.0 && q > 0.0 {
      MixedSigns(p, q);
    }
  }

  /** m is the power at time a into an interval of length t, on the line from p to q. */
  predicate OnLine(p: real, m: real, q: real, a: real, t: real) {
    0.0 < a < t && (m - p) * t == (q - p) * a
  }

  function Product(x: real, y: real): real {
    x * y
  }

  /** What the split needs to know of a flow along a slope. */
  ghost predicate RampLaw(charged: (real, real, real) -> real, ramp: real -> real) {
    forall p, q, t :: t > 0.0 ==> Product(charged(p, q, t), q - p) == Product(t, ramp(q) - ramp(p))
  }

  lemma RampLawHolds()
    ensures RampLaw(Charged, Ramp)
  {
    forall p, q, t | t > 0.0
      ensures Product(Charged(p, q, t), q - p) == Product(t, Ramp(q) - Ramp(p))
    {
      ChargedAlongRamp(p, q, t);
    }
  }

  lemma SplitsOnSlope(charged: (real, real, real) -> real, ramp: real -> real, p: real, m: real, q: real, a: real, t: real)
    requires RampLaw(charged, ramp) && OnLine(p, m, q, a, t) && p != q
    ensures charged(p, m, a) + charged(m, q, t - a) == charged(p, q, t)
  {
    RampSplits(charged(p, m, a), charged(m, q, t - a), charged(p, q, t),
               p, m, q, a, t, ramp(m) - ramp(p), ramp(q) - ramp(m));
  }

  lemma SplitsWhenFlat(p: real, m: real, a: real, t: real)
    requires OnLine(p, m, p, a, t)
    ensures Charged(p, m, a) + Charged(m, p, t - a) == Charged(p, p, t)
  {
    assert (p - p) * a == 0.0;
    Cancel(m - p, 0.0, t);
    FlatCharged(p, a);
    FlatCharged(p, t - a);
    FlatCharged(p, t);
    FlatSplits(if p > 0.0 then p else 0.0, a, t);
  }

  lemma ChargedSplits(p: real, m: real, q: real, a: real, t: real)
    requires OnLine(p, m, q, a, t)
    ensures Charged(p, m, a) + Charged(m, q, t - a) == Charged(p, q, t)
  {
    if p == q {
      SplitsWhenFlat(p, m, a, t);
    } else {
      RampLawHolds();
      SplitsOnSlope(Charged, Ramp, p, m, q, a, t);
    }
  }

  lemma FlatSplits(h: real, a: real, t: real)
    ensures h * a / WATT_SECONDS_PER_KWH + h * (t - a) / WATT_SECONDS_PER_KWH == h * t / WATT_SECONDS_PER_KWH
  {
    assert h * a + h * (t - a) == h * t;
  }

  lemma RampSplits(x: real, y: real, z: real, p: real, m: real, q: real, a: real, t: real, h: real, k: real)
    requires OnLine(p, m, q, a, t) && q != p
    requires x * (m - p) == a * h && y * (q - m) == (t - a) * k && z * (q - p) == t * (h + k)
    ensures x + y == z
  {
    RestOfLine(p, m, q, a, t);
    PartOfRamp(x, m - p, q - p, a, t, h);
    PartOfRamp(y, q - m, q - p, t - a, t, k);
    SumOfParts(x, y, z, q - p, t, h, k);
  }

  lemma RestOfLine(p: real, m: real, q: real, a: real, t: real)
    requires (m - p) * t == (q - p) * a
    ensures (q - m) * t == (q - p) * (t - a)
  {
  }

  lemma SumOfParts(x: real, y: real, z: real, d: real, t: real, h: real, k: real)
    requires d != 0.0 && x * d == t * h && y * d == t * k && z * d == t * (h + k)
    ensures x + y == z
  {
    assert (x + y) * d == z * d;
    Cancel(x + y, z, d);
  }

  lemma FlatCharged(p: real, t: real)
    requires t > 0.0
    ensures IntervalFlow(p, p, t).charged == (if p > 0.0 then p else 0.0) * t / WATT_SECONDS_PER_KWH
  {
    IntervalIs(p, p, t);
    assert p * p >= 0.0;
    SegmentIs(p, p, t);
  }

  /** Energy per unit of ramp is the same on a part of an interval as on the whole of it. */
  lemma PartOfRamp(x: real, part: real, whole: real, a: real, t: real, h: real)
    requires a > 0.0 && t > 0.0 && part * t == whole * a && x * part == a * h
    ensures x * whole == t * h
  {
    assert x * whole * a == x * (whole * a) == x * (part * t) == x * part * t == a * h * t == t * h * a;
    Cancel(x * whole, t * h, a);
  }

  lemma OnLineNegated(p: real, m: real, q: real, a: real, t: real)
    requires OnLine(p, m, q, a, t)
    ensures OnLine(-p, -m, -q, a, t)
  {
    NegatedTimes(m - p, t);
    NegatedTimes(q - p, a);
    assert -m - -p == -(m - p) && -q - -p == -(q - p);
  }

  lemma NegatedTimes(x: real, y: real)
    ensures (-x) * y == -(x * y)
  {
  }

  /** An interpolated sample changes neither counter, wherever the zero crossing falls. */
  lemma IntervalSplits(p: real, m: real, q: real, a: real, t: real)
    requires OnLine(p, m, q, a, t)
    ensures IntervalFlow(p, m, a).Plus(IntervalFlow(m, q, t - a)) == IntervalFlow(p, q, t)
  {
    ChargedSplits(p, m, q, a, t);
    OnLineNegated(p, m, q, a, t);
    ChargedSplits(-p, -m, -q, a, t);
    IntervalNegated(p, m, a);
    IntervalNegated(m, q, t - a);
    IntervalNegated(p, q, t);
  }
}
