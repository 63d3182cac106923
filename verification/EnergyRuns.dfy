/** The energy counters over whole runs of samples and gaps. */
module EnergyRuns {
  import opened Energy
  import opened EnergyLaws

  type PairMeasure = (Event, Event) -> real

  /** A measure of two consecutive events, added up over a run that follows the event prev. */
  function Total(f: PairMeasure, prev: Event, events: seq<Event>): real
    decreases |events|
  {
    if events == [] then 0.0 else f(prev, events[0]) + Total(f, events[0], events[1..])
  }

  function PairCharged(a: Event, b: Event): real {
    PairFlow(a, b).charged
  }

  function PairDischarged(a: Event, b: Event): real {
    PairFlow(a, b).discharged
  }

  /** The meter after a run. */
  function Metered(m: Meter, events: seq<Event>): Meter
    decreases |events|
  {
    if events == [] then m else Metered(m.Observe(events[0]), events[1..])
  }

  function LastOf(prev: Event, events: seq<Event>): Event {
    if events == [] then prev else events[|events| - 1]
  }

  function Reversed(events: seq<Event>): seq<Event> {
    if events == [] then [] else [Negated(events[0])] + Reversed(events[1..])
  }

  lemma {:induction false} MeteredIs(m: Meter, events: seq<Event>)
    ensures Metered(m, events) == Meter(LastOf(m.last, events),
                                        Flow(m.flow.charged + Total(PairCharged, m.last, events),
                                             m.flow.discharged + Total(PairDischarged, m.last, events)))
    decreases |events|
  {
    if events != [] {
      MeteredIs(m.Observe(events[0]), events[1..]);
    }
  }

  lemma UpdateObserves(st: State, hasFile: bool, now: real, power: real, s: SaveRun)
    ensures st.AfterUpdate(hasFile, now, power, s).meter == st.meter.Observe(Sample(now, power))
  {
  }

  /** What a sample adds: when the last one is at most an hour old, the signed trapezoid between them; after a gap, after
      more than an hour or when the clock has not moved on, nothing to either counter. */
  lemma UpdateAdds(st: State, hasFile: bool, now: real, power: real, s: SaveRun)
    ensures var f, f' := st.meter.flow, st.AfterUpdate(hasFile, now, power, s).meter.flow;
            if st.meter.last.Sample? && 0.0 < now - st.meter.last.at <= 3600.0
            then Net(f') - Net(f) == (st.meter.last.power + power) / 2.0 * (now - st.meter.last.at) / 3600000.0
            else f' == f
    ensures st.AfterUpdate(hasFile, now, power, s).meter.last == Sample(now, power)
  {
    hide IntervalFlow;
    UpdateObserves(st, hasFile, now, power, s);
    PairNet(st.meter.last, Sample(now, power));
  }

  /** When it saves: within that hour, with a state file, and not before 300 seconds after the last save that went
      through. Otherwise the disk is left alone. */
  lemma UpdateSaves(st: State, hasFile: bool, now: real, power: real, s: SaveRun)
    ensures var after := st.AfterUpdate(hasFile, now, power, s);
            var due := st.lastSave.None? || now - st.lastSave.value >= 300.0;
            var counted := st.meter.last.Sample? && 0.0 < now - st.meter.last.at <= 3600.0;
            if hasFile && counted && due
            then after.disk == DiskAfter(st.disk, Saved(after.meter.flow.charged, after.meter.flow.discharged), s.steps)
                 && after.dirty == (s.steps < 3)
            else after.disk == st.disk && after.lastSave == st.lastSave && after.dirty == (st.dirty || counted)
  {
    hide IntervalFlow;
  }

  /** A flush writes what has not been saved, if there is a file to write it to, and never anything else. */
  lemma FlushSaves(st: State, hasFile: bool, s: SaveRun)
    ensures var after := st.AfterFlush(hasFile, s);
            && after.meter == st.meter
            && (if hasFile && st.dirty
                then after.disk == DiskAfter(st.disk, Saved(st.meter.flow.charged, st.meter.flow.discharged), s.steps)
                else after == st)
  {
  }

  // Laws of a pair, lifted to runs

  lemma {:induction false} TotalDominated(f: PairMeasure, g: PairMeasure, h: PairMeasure, prev: Event, events: seq<Event>)
    requires forall a, b :: f(a, b) + g(a, b) <= h(a, b)
    ensures Total(f, prev, events) + Total(g, prev, events) <= Total(h, prev, events)
    decreases |events|
  {
    if events != [] {
      TotalDominated(f, g, h, events[0], events[1..]);
    }
  }

  lemma {:induction false} TotalDifference(f: PairMeasure, g: PairMeasure, h: PairMeasure, prev: Event, events: seq<Event>)
    requires forall a, b :: f(a, b) - g(a, b) == h(a, b)
    ensures Total(f, prev, events) - Total(g, prev, events) == Total(h, prev, events)
    decreases |events|
  {
    if events != [] {
      TotalDifference(f, g, h, events[0], events[1..]);
    }
  }

  lemma {:induction false} TotalNonNegative(f: PairMeasure, prev: Event, events: seq<Event>)
    requires forall a, b :: f(a, b) >= 0.0
    ensures Total(f, prev, events) >= 0.0
    decreases |events|
  {
    if events != [] {
      TotalNonNegative(f, events[0], events[1..]);
    }
  }

  lemma {:induction false} TotalReversed(f: PairMeasure, g: PairMeasure, prev: Event, events: seq<Event>)
    requires forall a, b :: f(Negated(a), Negated(b)) == g(a, b)
    ensures Total(f, Negated(prev), Reversed(events)) == Total(g, prev, events)
    decreases |events|
  {
    if events != [] {
      TotalReversed(f, g, events[0], events[1..]);
      var r := Reversed(events);
      assert r[0] == Negated(events[0]) && r[1..] == Reversed(events[1..]);
    }
  }

  lemma {:induction false} TotalJoins(f: PairMeasure, prev: Event, a: seq<Event>, b: seq<Event>)
    ensures Total(f, prev, a + b) == Total(f, prev, a) + Total(f, LastOf(prev, a), b)
    decreases |a|
  {
    if a == [] {
      assert a + b == b;
    } else {
      TotalJoins(f, a[0], a[1..], b);
      assert (a + b)[0] == a[0] && (a + b)[1..] == a[1..] + b;
    }
  }

  lemma PairNonNegative(a: Event, b: Event)
    ensures PairCharged(a, b) >= 0.0 && PairDischarged(a, b) >= 0.0
  {
    if Counted(a, b) {
      IntervalNonNegative(a.power, b.power, b.at - a.at);
    }
  }

  lemma PairNet(a: Event, b: Event)
    ensures PairCharged(a, b) - PairDischarged(a, b) == SignedEnergy(a, b)
  {
    hide IntervalFlow;
    if Counted(a, b) {
      var p, q, t := a.power, b.power, b.at - a.at;
      IntervalNet(p, q, t);
      assert SignedEnergy(a, b) == SignedInterval(p, q, t);
    }
  }

  lemma PairPeak(a: Event, b: Event)
    ensures PairCharged(a, b) + PairDischarged(a, b) <= PeakEnergy(a, b)
  {
    if Counted(a, b) {
      IntervalPeak(a.power, b.power, b.at - a.at);
    }
  }

  lemma PairNegated(a: Event, b: Event)
    ensures PairCharged(Negated(a), Negated(b)) == PairDischarged(a, b)
    ensures PairDischarged(Negated(a), Negated(b)) == PairCharged(a, b)
  {
    if Counted(a, b) {
      IntervalNegated(a.power, b.power, b.at - a.at);
    }
  }

  /** Over any run the difference of the counters grows by the signed trapezoids of the intervals within an hour and by
      nothing else, no counter ever shrinks, and together they grow by no more than the peak power held throughout. */
  lemma {:induction false} EnergyConserved(m: Meter, events: seq<Event>)
    ensures var f, f' := m.flow, Metered(m, events).flow;
            && Net(f') - Net(f) == Total(SignedEnergy, m.last, events)
            && f'.charged >= f.charged && f'.discharged >= f.discharged
            && (f'.charged - f.charged) + (f'.discharged - f.discharged) <= Total(PeakEnergy, m.last, events)
  {
    MeteredIs(m, events);
    TotalLaws(m.last, events);
  }

  lemma {:induction false} TotalLaws(prev: Event, events: seq<Event>)
    ensures Total(PairCharged, prev, events) >= 0.0 && Total(PairDischarged, prev, events) >= 0.0
    ensures Total(PairCharged, prev, events) - Total(PairDischarged, prev, events) == Total(SignedEnergy, prev, events)
    ensures Total(PairCharged, prev, events) + Total(PairDischarged, prev, events) <= Total(PeakEnergy, prev, events)
  {
    forall a, b ensures PairCharged(a, b) >= 0.0 && PairDischarged(a, b) >= 0.0 { PairNonNegative(a, b); }
    TotalNonNegative(PairCharged, prev, events);
    TotalNonNegative(PairDischarged, prev, events);
    forall a, b ensures PairCharged(a, b) - PairDischarged(a, b) == SignedEnergy(a, b) { PairNet(a, b); }
    TotalDifference(PairCharged, PairDischarged, SignedEnergy, prev, events);
    forall a, b ensures PairCharged(a, b) + PairDischarged(a, b) <= PeakEnergy(a, b) { PairPeak(a, b); }
    TotalDominated(PairCharged, PairDischarged, PeakEnergy, prev, events);
  }

  lemma {:induction false} TotalsReversed(events: seq<Event>)
    ensures Total(PairCharged, Gap, Reversed(events)) == Total(PairDischarged, Gap, events)
    ensures Total(PairDischarged, Gap, Reversed(events)) == Total(PairCharged, Gap, events)
  {
    forall a, b
      ensures PairCharged(Negated(a), Negated(b)) == PairDischarged(a, b)
           && PairDischarged(Negated(a), Negated(b)) == PairCharged(a, b)
    {
      PairNegated(a, b);
    }
    TotalReversed(PairCharged, PairDischarged, Gap, events);
    TotalReversed(PairDischarged, PairCharged, Gap, events);
  }

  /** Reversing every sample swaps what a run adds to the two counters. */
  lemma {:induction false} ReversalSwaps(events: seq<Event>)
    ensures Metered(Meter(Gap, NO_FLOW), Reversed(events)).flow == Swapped(Metered(Meter(Gap, NO_FLOW), events).flow)
  {
    TotalsReversed(events);
    MeteredIs(Meter(Gap, NO_FLOW), events);
    MeteredIs(Meter(Gap, NO_FLOW), Reversed(events));
  }

  // Refining a run

  /** The power at time at on the line between two samples. */
  function Interpolated(a: Event, b: Event, at: real): Event
    requires a.Sample? && b.Sample? && a.at != b.at
  {
    Sample(at, a.power + (b.power - a.power) * (at - a.at) / (b.at - a.at))
  }

  datatype Insertion = Insertion(index: nat, at: real)

  /** The insertion falls between two samples at most an hour apart. */
  predicate Fits(events: seq<Event>, ins: Insertion) {
    && ins.index + 1 < |events|
    && WithinHour(events[ins.index], events[ins.index + 1])
    && events[ins.index].at < ins.at < events[ins.index + 1].at
  }

  function Inserted(events: seq<Event>, ins: Insertion): seq<Event>
    requires Fits(events, ins)
  {
    var i := ins.index;
    events[..i + 1] + [Interpolated(events[i], events[i + 1], ins.at)] + events[i + 1..]
  }

  predicate AllFit(events: seq<Event>, inserts: seq<Insertion>)
    decreases |inserts|
  {
    inserts == [] || (Fits(events, inserts[0]) && AllFit(Inserted(events, inserts[0]), inserts[1..]))
  }

  function Refined(events: seq<Event>, inserts: seq<Insertion>): seq<Event>
    requires AllFit(events, inserts)
    decreases |inserts|
  {
    if inserts == [] then events else Refined(Inserted(events, inserts[0]), inserts[1..])
  }

  lemma OnTheLine(p: real, q: real, a: real, t: real)
    requires 0.0 < a < t
    ensures OnLine(p, p + (q - p) * a / t, q, a, t)
  {
    assert (q - p) * a / t * t == (q - p) * a;
  }

  /** The measure of a pair is the sum over its two parts when an interpolated sample is put into it. */
  ghost predicate Splits(f: PairMeasure) {
    forall a, b, at :: WithinHour(a, b) && a.at < at < b.at ==>
      var m := Interpolated(a, b, at); f(a, m) + f(m, b) == f(a, b)
  }

  lemma PairSplits(a: Event, b: Event, at: real)
    requires WithinHour(a, b) && a.at < at < b.at
    ensures var m := Interpolated(a, b, at);
            && PairCharged(a, m) + PairCharged(m, b) == PairCharged(a, b)
            && PairDischarged(a, m) + PairDischarged(m, b) == PairDischarged(a, b)
  {
    var m := Interpolated(a, b, at);
    OnTheLine(a.power, b.power, at - a.at, b.at - a.at);
    IntervalSplits(a.power, m.power, b.power, at - a.at, b.at - a.at);
    assert b.at - at == (b.at - a.at) - (at - a.at);
  }

  lemma BothSplit()
    ensures Splits(PairCharged) && Splits(PairDischarged)
  {
    forall a, b, at | WithinHour(a, b) && a.at < at < b.at
      ensures var m := Interpolated(a, b, at);
              && PairCharged(a, m) + PairCharged(m, b) == PairCharged(a, b)
              && PairDischarged(a, m) + PairDischarged(m, b) == PairDischarged(a, b)
    {
      PairSplits(a, b, at);
    }
  }

  lemma {:induction false} InsertionKeepsTotal(f: PairMeasure, prev: Event, events: seq<Event>, ins: Insertion)
    requires Splits(f) && Fits(events, ins)
    ensures Total(f, prev, Inserted(events, ins)) == Total(f, prev, events)
    ensures LastOf(prev, Inserted(events, ins)) == LastOf(prev, events)
  {
    var i := ins.index;
    var head, tail := events[..i + 1], events[i + 1..];
    var m := Interpolated(events[i], events[i + 1], ins.at);
    assert events == head + tail && Inserted(events, ins) == head + ([m] + tail);
    TotalJoins(f, prev, head, tail);
    TotalJoins(f, prev, head, [m] + tail);
    assert ([m] + tail)[1..] == tail;
    assert f(events[i], m) + f(m, tail[0]) == f(events[i], tail[0]);
  }

  /** Any number of interpolated samples, put anywhere between samples at most an hour apart, changes neither counter. */
  lemma {:induction false} RefinementKeepsEnergy(m: Meter, events: seq<Event>, inserts: seq<Insertion>)
    requires AllFit(events, inserts)
    ensures Metered(m, Refined(events, inserts)) == Metered(m, events)
    decreases |inserts|
  {
    if inserts != [] {
      var finer := Inserted(events, inserts[0]);
      RefinementKeepsEnergy(m, finer, inserts[1..]);
      BothSplit();
      InsertionKeepsTotal(PairCharged, m.last, events, inserts[0]);
      InsertionKeepsTotal(PairDischarged, m.last, events, inserts[0]);
      MeteredIs(m, events);
      MeteredIs(m, finer);
    }
  }
}
