/** EnergyTracker of src/main.py: energy counters integrated from power samples and kept in a state file. */
module Energy {
  import opened Wrappers

  const MAX_INTERVAL_SECONDS: real := 3600.0
  const SAVE_INTERVAL_SECONDS: real := 300.0

  // Integration of one interval

  datatype Flow = Flow(charged: real, discharged: real) {
    function Plus(other: Flow): Flow {
      Flow(charged + other.charged, discharged + other.discharged)
    }
  }

  const NO_FLOW := Flow(0.0, 0.0)

  function Abs(x: real): real {
    if x < 0.0 then -x else x
  }

  function SegmentFlow(startPower: real, endPower: real, seconds: real): Flow {
    var avgPower := (startPower + endPower) / 2.0;
    var kwh := Abs(avgPower * (seconds / 3600.0)) / 1000.0;
    if avgPower >= 0.0 then Flow(kwh, 0.0) else Flow(0.0, kwh)
  }

  function IntervalFlow(startPower: real, endPower: real, seconds: real): Flow {
    if startPower * endPower < 0.0 then
      var crossing := seconds * startPower / (startPower - endPower);
      SegmentFlow(startPower, 0.0, crossing).Plus(SegmentFlow(0.0, endPower, seconds - crossing))
    else SegmentFlow(startPower, endPower, seconds)
  }

  // The counters as a function of what the tracker is told

  datatype Event = Sample(at: real, power: real) | Gap

  predicate Counted(a: Event, b: Event) {
    a.Sample? && b.Sample? && 0.0 < b.at - a.at <= MAX_INTERVAL_SECONDS
  }

  /** The energy of the interval between two consecutive events. */
  function PairFlow(a: Event, b: Event): Flow {
    if Counted(a, b) then IntervalFlow(a.power, b.power, b.at - a.at) else NO_FLOW
  }

  datatype Meter = Meter(last: Event, flow: Flow) {
    function Observe(e: Event): Meter {
      Meter(e, flow.Plus(PairFlow(last, e)))
    }
  }

  // The state file

  datatype Saved = Saved(energyIn: real, energyOut: real)

  /** Torn stands for anything json and float cannot turn into two finite numbers. */
  datatype File = Missing | Torn | Whole(saved: Saved)

  datatype Disk = Disk(state: File, temp: File)

  /** The counters a tracker starts with from a state file. */
  function Loaded(f: File): Flow {
    if f.Whole? && f.saved.energyIn >= 0.0 && f.saved.energyOut >= 0.0
    then Flow(f.saved.energyIn, f.saved.energyOut)
    else NO_FLOW
  }

  const SAVE_STEPS: nat := 3

  /** The disk once the first steps of a save are through: the temporary file opened, then written and synced, then
      renamed over the state file. */
  function DiskAfter(d: Disk, counters: Saved, steps: nat): Disk {
    if steps == 0 then d
    else if steps == 1 then Disk(d.state, Torn)
    else if steps == 2 then Disk(d.state, Whole(counters))
    else Disk(Whole(counters), Missing)
  }

  /** How a save went: how many steps came through before an OSError, and the clock when it was done. */
  datatype SaveRun = SaveRun(steps: nat, finished: real)

  /** Everything a tracker is at one moment, with the disk it saves to. */
  datatype State = State(meter: Meter, lastSave: Option<real>, dirty: bool, disk: Disk) {
    function Counters(): Saved {
      Saved(meter.flow.charged, meter.flow.discharged)
    }

    function AfterSave(s: SaveRun): State {
      var d := DiskAfter(disk, Counters(), s.steps);
      if s.steps >= SAVE_STEPS then State(meter, Some(s.finished), false, d) else this.(disk := d)
    }

    predicate SaveDue(now: real) {
      lastSave.None? || now - lastSave.value >= SAVE_INTERVAL_SECONDS
    }

    function AfterUpdate(hasFile: bool, now: real, power: real, s: SaveRun): State {
      var e := Sample(now, power);
      var counted := this.(meter := Meter(meter.last, meter.flow.Plus(PairFlow(meter.last, e))));
      var saved := if Counted(meter.last, e) then
                     var touched := counted.(dirty := true);
                     if hasFile && SaveDue(now) then touched.AfterSave(s) else touched
                   else counted;
      saved.(meter := Meter(e, saved.meter.flow))
    }

    function AfterFlush(hasFile: bool, s: SaveRun): State {
      if hasFile && dirty then AfterSave(s) else this
    }

    function AfterGap(): State {
      this.(meter := Meter(Gap, meter.flow))
    }
  }

  class EnergyTracker {
    var energyIn: real
    var energyOut: real
    var lastTime: Option<real>
    var lastPower: Option<real>
    const hasFile: bool
    var lastSaveTime: Option<real>
    var dirty: bool
    /** The files the tracker writes; they outlive it. */
    var disk: Disk

    ghost predicate Valid()
      reads this
    {
      lastTime.Some? == lastPower.Some?
    }

    ghost function Last(): Event
      reads this
    {
      if lastTime.Some? && lastPower.Some? then Sample(lastTime.value, lastPower.value) else Gap
    }

    ghost function View(): State
      reads this
    {
      State(Meter(Last(), Flow(energyIn, energyOut)), lastSaveTime, dirty, disk)
    }

    constructor (hasFile: bool, disk: Disk)
      ensures Valid() && this.hasFile == hasFile
      ensures View() == State(Meter(Gap, if hasFile then Loaded(disk.state) else NO_FLOW), None, false, disk)
    {
      energyIn, energyOut := 0.0, 0.0;
      lastTime, lastPower := None, None;
      this.hasFile := hasFile;
      lastSaveTime, dirty := None, false;
      this.disk := disk;
      new;
      if hasFile && disk.state.Whole? {
        var energyIn', energyOut' := disk.state.saved.energyIn, disk.state.saved.energyOut;
        if energyIn' >= 0.0 && energyOut' >= 0.0 {
          energyIn, energyOut := energyIn', energyOut';
        }
      }
    }

    method Save(s: SaveRun)
      requires Valid()
      modifies this
      ensures Valid() && View() == old(View()).AfterSave(s)
    {
      var counters := Saved(energyIn, energyOut);
      if s.steps == 0 {
        return;
      }
      disk := disk.(temp := Torn);
      if s.steps == 1 {
        return;
      }
      disk := disk.(temp := Whole(counters));
      if s.steps == 2 {
        return;
      }
      disk := Disk(disk.temp, Missing);
      lastSaveTime := Some(s.finished);
      dirty := false;
    }

    method IntegrateSegment(startPower: real, endPower: real, seconds: real)
      modifies this`energyIn, this`energyOut
      ensures Flow(energyIn, energyOut)
           == Flow(old(energyIn), old(energyOut)).Plus(SegmentFlow(startPower, endPower, seconds))
    {
      var avgPower := (startPower + endPower) / 2.0;
      var hours := seconds / 3600.0;
      var kwh := Abs(avgPower * hours) / 1000.0;
      if avgPower >= 0.0 {
        energyIn := energyIn + kwh;
      } else {
        energyOut := energyOut + kwh;
      }
    }

    method Integrate(startPower: real, endPower: real, elapsedSeconds: real)
      modifies this`energyIn, this`energyOut
      ensures Flow(energyIn, energyOut)
           == Flow(old(energyIn), old(energyOut)).Plus(IntervalFlow(startPower, endPower, elapsedSeconds))
    {
      if startPower * endPower < 0.0 {
        var crossingSeconds := elapsedSeconds * startPower / (startPower - endPower);
        IntegrateSegment(startPower, 0.0, crossingSeconds);
        IntegrateSegment(0.0, endPower, elapsedSeconds - crossingSeconds);
      } else {
        IntegrateSegment(startPower, endPower, elapsedSeconds);
      }
    }

    method Update(now: real, power: real, s: SaveRun)
      requires Valid()
      modifies this
      ensures Valid() && View() == old(View()).AfterUpdate(hasFile, now, power, s)
    {
      hide IntervalFlow;
      if lastTime.Some? && lastPower.Some? {
        var elapsedSeconds := now - lastTime.value;
        if 0.0 < elapsedSeconds <= MAX_INTERVAL_SECONDS {
          Integrate(lastPower.value, power, elapsedSeconds);
          dirty := true;
          if hasFile && (lastSaveTime.None? || now - lastSaveTime.value >= SAVE_INTERVAL_SECONDS) {
            Save(s);
          }
        }
      }
      lastTime := Some(now);
      lastPower := Some(power);
    }

    method Flush(s: SaveRun)
      requires Valid()
      modifies this
      ensures Valid() && View() == old(View()).AfterFlush(hasFile, s)
    {
      if hasFile && dirty {
        Save(s);
      }
    }

    method InvalidateLastTime()
      requires Valid()
      modifies this
      ensures Valid() && View() == old(View()).AfterGap()
    {
      lastTime := None;
      lastPower := None;
    }
  }
}
