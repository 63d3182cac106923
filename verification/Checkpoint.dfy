/** What a crash can cost: the state file against the counters, over any run of the tracker. */
module Checkpoint {
  import Rounding
  import opened Wrappers
  import opened Energy
  import opened EnergyLaws
  import opened EnergyRuns

  datatype Op = Update(now: real, power: real, save: SaveRun) | Invalidate(now: real) | Flush(now: real, save: SaveRun)

  /** A tracker that has a state file, just started on a disk. */
  function Started(disk: Disk): State {
    State(Meter(Gap, Loaded(disk.state)), None, false, disk)
  }

  function Apply(st: State, op: Op): State {
    match op
    case Update(now, power, save) => st.AfterUpdate(true, now, power, save)
    case Invalidate(_) => st.AfterGap()
    case Flush(_, save) => st.AfterFlush(true, save)
  }

  function Run(disk: Disk, ops: seq<Op>): State {
    if ops == [] then Started(disk) else Apply(Run(disk, ops[..|ops| - 1]), ops[|ops| - 1])
  }

  /** The counters at the moment an operation would save them. */
  function AtSave(st: State, op: Op): State {
    if op.Update? then st.(meter := st.meter.Observe(Sample(op.now, op.power))) else st
  }

  predicate Saves(st: State, op: Op) {
    match op
    case Update(now, power, _) => Counted(st.meter.last, Sample(now, power)) && st.SaveDue(now)
    case Invalidate(_) => false
    case Flush(_, _) => st.dirty
  }

  predicate AtMost(f: Flow, g: Flow) {
    f.charged <= g.charged && f.discharged <= g.discharged
  }

  /** A restart never goes above the counters, and it is exact while nothing is dirty. */
  predicate Safe(st: State) {
    && AtMost(NO_FLOW, st.meter.flow)
    && AtMost(Loaded(st.disk.state), st.meter.flow)
    && (!st.dirty ==> Loaded(st.disk.state) == st.meter.flow)
  }

  /** Wherever a save stops, the state file is in full what it was or in full what is being saved. */
  lemma OldOrNew(d: Disk, counters: Saved, steps: nat)
    ensures var f := DiskAfter(d, counters, steps).state; f == d.state || f == Whole(counters)
    ensures steps >= SAVE_STEPS ==> DiskAfter(d, counters, steps).state == Whole(counters)
  {
  }

  /** A save opens the temporary file, which empties it, writes it in full and renames it over the state file. */
  lemma SaveRenames(d: Disk, counters: Saved, steps: nat)
    ensures DiskAfter(d, counters, 0) == d
    ensures steps == 1 || steps == 2 ==> DiskAfter(d, counters, steps).state == d.state
    ensures DiskAfter(d, counters, 1).temp == Torn && DiskAfter(d, counters, 2).temp == Whole(counters)
    ensures steps >= 3 ==> DiskAfter(d, counters, steps) == Disk(DiskAfter(d, counters, 2).temp, Missing)
  {
  }

  lemma SavedLoads(f: Flow)
    requires AtMost(NO_FLOW, f)
    ensures Loaded(Whole(Saved(f.charged, f.discharged))) == f
  {
  }

  lemma ObserveGrows(m: Meter, e: Event)
    ensures AtMost(m.flow, m.Observe(e).flow)
    ensures !Counted(m.last, e) ==> m.Observe(e).flow == m.flow
  {
    PairNonNegative(m.last, e);
  }

  /** One operation, in terms of the meter and the disk only. */
  lemma ApplyIs(st: State, op: Op)
    requires Saves(st, op)
    ensures var at := AtSave(st, op);
            && Apply(st, op).meter.flow == at.meter.flow
            && Apply(st, op).disk == DiskAfter(st.disk, at.Counters(), op.save.steps)
            && (op.save.steps >= SAVE_STEPS ==> !Apply(st, op).dirty && Apply(st, op).lastSave == Some(op.save.finished))
            && (op.save.steps < SAVE_STEPS ==> Apply(st, op).dirty && Apply(st, op).lastSave == st.lastSave)
  {
    if op.Update? {
      UpdateObserves(st, true, op.now, op.power, op.save);
    }
  }

  lemma ApplyWithoutSave(st: State, op: Op)
    requires !Saves(st, op)
    ensures Apply(st, op).meter.flow == AtSave(st, op).meter.flow
    ensures Apply(st, op).disk == st.disk && Apply(st, op).lastSave == st.lastSave
    ensures Apply(st, op).dirty == (st.dirty || (op.Update? && Counted(st.meter.last, Sample(op.now, op.power))))
  {
    if op.Update? {
      UpdateObserves(st, true, op.now, op.power, op.save);
    }
  }

  lemma AtSaveGrows(st: State, op: Op)
    ensures AtMost(st.meter.flow, AtSave(st, op).meter.flow)
    ensures !(op.Update? && Counted(st.meter.last, Sample(op.now, op.power))) ==> AtSave(st, op).meter.flow == st.meter.flow
  {
    if op.Update? {
      ObserveGrows(st.meter, Sample(op.now, op.power));
    }
  }

  lemma ApplySafe(st: State, op: Op)
    requires Safe(st)
    ensures Safe(Apply(st, op))
    ensures AtMost(Loaded(st.disk.state), Loaded(Apply(st, op).disk.state))
  {
    AtSaveGrows(st, op);
    if Saves(st, op) {
      ApplyIs(st, op);
      var at := AtSave(st, op);
      OldOrNew(st.disk, at.Counters(), op.save.steps);
      SavedLoads(at.meter.flow);
    } else {
      ApplyWithoutSave(st, op);
    }
  }

  lemma {:induction false} RunSafe(disk: Disk, ops: seq<Op>)
    ensures Safe(Run(disk, ops))
  {
    if ops != [] {
      RunSafe(disk, ops[..|ops| - 1]);
      ApplySafe(Run(disk, ops[..|ops| - 1]), ops[|ops| - 1]);
    }
  }

  /** After any run, a crash at any step of the save an operation is making leaves a state file that is whole if it
      was, and a restart on it that neither exceeds the counters nor falls below the last checkpoint. */
  lemma {:induction false} CrashSafe(disk: Disk, ops: seq<Op>, op: Op, steps: nat)
    ensures var st, at := Run(disk, ops), AtSave(Run(disk, ops), op);
            var crashed := DiskAfter(st.disk, at.Counters(), steps);
            && (crashed.state == st.disk.state || crashed.state == Whole(at.Counters()))
            && AtMost(Started(crashed).meter.flow, at.meter.flow)
            && AtMost(Loaded(st.disk.state), Started(crashed).meter.flow)
  {
    var st := Run(disk, ops);
    var at := AtSave(st, op);
    RunSafe(disk, ops);
    AtSaveGrows(st, op);
    OldOrNew(st.disk, at.Counters(), steps);
    SavedLoads(at.meter.flow);
  }

  /** A flush that goes through makes a restart exact. */
  lemma {:induction false} FlushIsExact(disk: Disk, ops: seq<Op>, now: real, save: SaveRun)
    requires save.steps >= SAVE_STEPS
    ensures var st := Run(disk, ops + [Flush(now, save)]);
            Started(st.disk).meter.flow == st.meter.flow == Run(disk, ops).meter.flow
  {
    var flush := Flush(now, save);
    assert (ops + [flush])[..|ops|] == ops;
    var st := Run(disk, ops);
    RunSafe(disk, ops);
    if st.dirty {
      ApplyIs(st, flush);
      OldOrNew(st.disk, st.Counters(), save.steps);
      SavedLoads(st.meter.flow);
    } else {
      ApplyWithoutSave(st, flush);
    }
  }

  // How much a crash can lose when saves go through

  function Unsaved(st: State): real {
    var saved := Loaded(st.disk.state);
    (st.meter.flow.charged - saved.charged) + (st.meter.flow.discharged - saved.discharged)
  }

  /** The energy of a power held for some seconds, in kWh. */
  function Held(power: real, seconds: real): real {
    power * seconds / WATT_SECONDS_PER_KWH
  }

  /** The clock after an operation: a save takes time. */
  function ClockAfter(st: State, op: Op): real {
    if Saves(st, op) then op.save.finished else op.now
  }

  /** The operation starts no earlier than clock, stays within the power, and a save in it goes through in time.
      A flush belongs to a clean shutdown, after which there is nothing to lose. */
  predicate Timely(op: Op, clock: real, power: real, delay: real) {
    && clock <= op.now
    && !op.Flush?
    && (op.Update? ==>
          Abs(op.power) <= power && op.save.steps >= SAVE_STEPS && op.now <= op.save.finished <= op.now + delay)
  }

  predicate AllTimely(disk: Disk, ops: seq<Op>, power: real, delay: real) {
    ops == []
    || (var n := |ops| - 1;
        AllTimely(disk, ops[..n], power, delay) && Timely(ops[n], Clock(disk, ops[..n]), power, delay))
  }

  function Clock(disk: Disk, ops: seq<Op>): real {
    if ops == [] then 0.0 else ClockAfter(Run(disk, ops[..|ops| - 1]), ops[|ops| - 1])
  }

  /** Until when the unsaved energy has been accruing. */
  function Reach(st: State, clock: real): real {
    if st.meter.last.Sample? then st.meter.last.at else clock
  }

  predicate Bounded(st: State, clock: real, power: real, delay: real) {
    && (st.meter.last.Sample? ==> st.meter.last.at <= clock && Abs(st.meter.last.power) <= power)
    && match st.lastSave
       case None => Unsaved(st) == 0.0
       case Some(f) =>
         && f <= clock
         && Unsaved(st) <= Held(power, Reach(st, clock) - f + delay)
         && Unsaved(st) <= Held(power, SAVE_INTERVAL_SECONDS + delay)
  }

  lemma HeldMono(power: real, x: real, y: real)
    requires power >= 0.0 && x <= y
    ensures Held(power, x) <= Held(power, y)
  {
    Rounding.Times(x, y, power);
    Div(power * x, power * y);
  }

  lemma HeldNonNegative(power: real, x: real)
    requires power >= 0.0 && x >= 0.0
    ensures Held(power, x) >= 0.0
  {
    MulNonNeg(power, x);
  }

  lemma HeldAdds(power: real, x: real, y: real)
    ensures Held(power, x) + Held(power, y) == Held(power, x + y)
  {
    assert power * x + power * y == power * (x + y);
    Div(power * x, power * y);
  }

  /** A counted interval adds no more than the power bound held throughout. */
  lemma PairWithin(a: Event, b: Event, power: real)
    requires Counted(a, b) && Abs(a.power) <= power && Abs(b.power) <= power
    ensures PairCharged(a, b) + PairDischarged(a, b) <= Held(power, b.at - a.at)
  {
    PairPeak(a, b);
    PeakWithin(a.power, b.power, b.at - a.at, power);
  }

  lemma PeakWithin(p: real, q: real, t: real, power: real)
    requires t > 0.0 && Abs(p) <= power && Abs(q) <= power
    ensures PeakInterval(p, q, t) <= Held(power, t)
  {
    ScaleMono(Max(Abs(p), Abs(q)), power, t);
  }

  lemma BoundedAfterSave(st: State, clock: real, op: Op, power: real, delay: real)
    requires power >= 0.0 && delay >= 0.0 && Safe(st) && Timely(op, clock, power, delay) && Saves(st, op)
    ensures Bounded(Apply(st, op), ClockAfter(st, op), power, delay)
  {
    ApplyIs(st, op);
    ApplySafe(st, op);
    HeldNonNegative(power, op.now - op.save.finished + delay);
    HeldNonNegative(power, SAVE_INTERVAL_SECONDS + delay);
  }

  lemma BoundedCounting(st: State, clock: real, op: Op, power: real, delay: real)
    requires power >= 0.0 && delay >= 0.0 && Bounded(st, clock, power, delay) && Timely(op, clock, power, delay)
    requires op.Update? && Counted(st.meter.last, Sample(op.now, op.power)) && !Saves(st, op)
    ensures Bounded(Apply(st, op), ClockAfter(st, op), power, delay)
  {
    ApplyWithoutSave(st, op);
    var last, e, f := st.meter.last, Sample(op.now, op.power), st.lastSave.value;
    PairWithin(last, e, power);
    HeldAdds(power, last.at - f + delay, op.now - last.at);
    assert Unsaved(Apply(st, op)) == Unsaved(st) + (PairCharged(last, e) + PairDischarged(last, e));
    HeldMono(power, op.now - f + delay, SAVE_INTERVAL_SECONDS + delay);
  }

  lemma BoundedIdle(st: State, clock: real, op: Op, power: real, delay: real)
    requires power >= 0.0 && Bounded(st, clock, power, delay) && Timely(op, clock, power, delay)
    requires !Saves(st, op) && !(op.Update? && Counted(st.meter.last, Sample(op.now, op.power)))
    ensures Bounded(Apply(st, op), ClockAfter(st, op), power, delay)
  {
    ApplyWithoutSave(st, op);
    AtSaveGrows(st, op);
    if st.lastSave.Some? {
      HeldMono(power, Reach(st, clock) - st.lastSave.value + delay, op.now - st.lastSave.value + delay);
    }
  }

  lemma {:induction false} RunBounded(disk: Disk, ops: seq<Op>, power: real, delay: real)
    requires power >= 0.0 && delay >= 0.0 && AllTimely(disk, ops, power, delay)
    ensures Bounded(Run(disk, ops), Clock(disk, ops), power, delay)
  {
    if ops != [] {
      var before, op := ops[..|ops| - 1], ops[|ops| - 1];
      var st, clock := Run(disk, before), Clock(disk, before);
      RunBounded(disk, before, power, delay);
      if Saves(st, op) {
        RunSafe(disk, before);
        BoundedAfterSave(st, clock, op, power, delay);
      } else if op.Update? && Counted(st.meter.last, Sample(op.now, op.power)) {
        BoundedCounting(st, clock, op, power, delay);
      } else {
        BoundedIdle(st, clock, op, power, delay);
      }
    }
  }

  /** When saves go through, each within delay, a crash after any run loses at most the power bound held for the
      save interval and one delay. */
  lemma {:induction false} LossBounded(disk: Disk, ops: seq<Op>, power: real, delay: real)
    requires power >= 0.0 && delay >= 0.0 && AllTimely(disk, ops, power, delay)
    ensures Unsaved(Run(disk, ops)) <= power * (300.0 + delay) / 3600000.0
  {
    RunBounded(disk, ops, power, delay);
    HeldNonNegative(power, SAVE_INTERVAL_SECONDS + delay);
  }
}
