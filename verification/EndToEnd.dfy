/** From the poll loop to the integration: which published payloads pass the gate. */
module EndToEnd {
  import opened Wrappers
  import opened Rounding
  import opened Text
  import opened Schemas
  import opened PollLoop
  import opened PollRuns
  import opened Payload
  import C = Coordinator
  import E = Energy

  // The payload of a snapshot

  function CellJson(c: Cell): Json {
    Object(map[KeyCellId := Int(c.cellId), KeyVoltage := Float(c.voltage), KeyCurrent := Float(c.current),
               KeySoc := Int(c.soc), Other("base_state") := Str(c.baseState)])
  }

  function CellsJson(cells: seq<Cell>): (r: seq<Json>)
    ensures |r| == |cells| && forall j :: 0 <= j < |r| ==> r[j] == CellJson(cells[j])
  {
    if cells == [] then [] else [CellJson(cells[0])] + CellsJson(cells[1..])
  }

  function BatteryJson(b: Battery): Json {
    Object(map[KeySysId := Int(b.sysId), KeyVoltage := Float(b.voltage), KeyCurrent := Float(b.current),
               KeySoc := Int(b.soc), KeyPower := Float(b.power), KeyEnergyStored := Float(b.energyStored),
               Cells := List(CellsJson(b.cells)), Other("status") := Str(b.status)])
  }

  function BatteriesJson(batteries: seq<Battery>): (r: seq<Json>)
    ensures |r| == |batteries| && forall i :: 0 <= i < |r| ==> r[i] == BatteryJson(batteries[i])
  {
    if batteries == [] then [] else [BatteryJson(batteries[0])] + BatteriesJson(batteries[1..])
  }

  const SCHEMA_VERSION := 1

  /** asdict and the version; what else is in the payload, the gate does not look at. */
  function PayloadOf(s: System, rest: Dict): Dict {
    rest + map[
      SchemaVersion := Int(SCHEMA_VERSION),
      KeyVoltage := Float(s.totals.voltage), KeyCurrent := Float(s.totals.current), KeySoc := Float(s.totals.soc),
      KeyPower := Float(s.totals.power), KeyEnergyIn := Float(s.energyIn), KeyEnergyOut := Float(s.energyOut),
      KeySpec := match s.spec { case None => Null case Some(text) => Str(text) },
      Batteries := List(BatteriesJson(s.batteries))]
  }

  // What a battery must be

  predicate DistinctCells(cells: seq<Cell>) {
    forall i, j :: 0 <= i < j < |cells| ==> cells[i].cellId != cells[j].cellId
  }

  predicate Acceptable(b: Battery) {
    b.voltage >= 0.0 && 0 <= b.soc <= 100 && |b.cells| <= MAX_CELLS_PER_BATTERY && DistinctCells(b.cells)
  }

  predicate AllAcceptable(batteries: seq<Battery>) {
    forall i :: 0 <= i < |batteries| ==> Acceptable(batteries[i])
  }

  lemma CellJsonValid(c: Cell)
    ensures ValidCell(CellJson(c)) && CellIdOf(CellJson(c)) == c.cellId
  {
  }

  /** The items are objects whose ids are those of the cells. */
  predicate SameCellIds(items: seq<Json>, cells: seq<Cell>) {
    |items| == |cells| && forall j :: 0 <= j < |items| ==> ValidCell(items[j]) && CellIdOf(items[j]) == cells[j].cellId
  }

  lemma DistinctBoth(items: seq<Json>, cells: seq<Cell>)
    requires SameCellIds(items, cells)
    ensures ValidCells(List(items)) <==> |cells| <= MAX_CELLS_PER_BATTERY && DistinctCells(cells)
  {
    if ValidCells(List(items)) {
      forall i, j | 0 <= i < j < |cells|
        ensures cells[i].cellId != cells[j].cellId
      {
        assert CellIdOf(items[i]) != CellIdOf(items[j]);
      }
    }
  }

  lemma {:induction false} CellsAccepted(cells: seq<Cell>)
    ensures ValidCells(List(CellsJson(cells))) <==> |cells| <= MAX_CELLS_PER_BATTERY && DistinctCells(cells)
  {
    var items := CellsJson(cells);
    forall j | 0 <= j < |items|
      ensures ValidCell(items[j]) && CellIdOf(items[j]) == cells[j].cellId
    {
      CellJsonValid(cells[j]);
    }
    DistinctBoth(items, cells);
  }

  lemma SmallIsFloat(n: int)
    ensures 0 <= n <= 100 ==> !BeyondFloat(n)
  {
  }

  lemma BatteryNumbers(b: Battery)
    ensures HasNumbers(BatteryJson(b).fields, REQUIRED_OF_BATTERY) <==> b.voltage >= 0.0 && 0 <= b.soc <= 100
  {
    var d := BatteryJson(b).fields;
    SmallIsFloat(b.soc);
    assert HasNumber(d, REQUIRED_OF_BATTERY[0]) <==> b.voltage >= 0.0;
    assert HasNumber(d, REQUIRED_OF_BATTERY[1]) && HasNumber(d, REQUIRED_OF_BATTERY[3]);
    assert HasNumber(d, REQUIRED_OF_BATTERY[2]) <==> 0 <= b.soc <= 100;
  }

  lemma BatteryAccepted(b: Battery)
    ensures ValidBattery(BatteryJson(b)) <==> Acceptable(b)
  {
    BatteryNumbers(b);
    CellsAccepted(b.cells);
  }

  // The totals of acceptable batteries

  lemma {:induction false} SumWithin(batteries: seq<Battery>, measure: Battery -> real, low: real, high: real)
    requires forall i :: 0 <= i < |batteries| ==> low <= measure(batteries[i]) <= high
    ensures low * |batteries| as real <= Sum(batteries, measure) <= high * |batteries| as real
  {
    if batteries != [] {
      SumWithin(batteries[..|batteries| - 1], measure, low, high);
    }
  }

  lemma MeanWithin(total: real, n: nat, low: real, high: real)
    requires n >= 1 && low * n as real <= total <= high * n as real
    ensures low <= Mean(total, n) <= high
  {
    Divides(total, n as real);
    Scaled(low, Mean(total, n), n as real);
    Scaled(Mean(total, n), high, n as real);
  }

  lemma {:induction false} SumNonNegative(batteries: seq<Battery>, measure: Battery -> real)
    requires forall i :: 0 <= i < |batteries| ==> measure(batteries[i]) >= 0.0
    ensures Sum(batteries, measure) >= 0.0
  {
    if batteries != [] {
      SumNonNegative(batteries[..|batteries| - 1], measure);
    }
  }

  lemma MeanNonNegative(total: real, n: nat)
    requires n >= 1 && total >= 0.0
    ensures Mean(total, n) >= 0.0
  {
    Divides(total, n as real);
    Scaled(0.0, Mean(total, n), n as real);
  }

  /** Averaging and rounding keep acceptable values acceptable. */
  lemma TotalsAccepted(batteries: seq<Battery>)
    requires batteries != [] && AllAcceptable(batteries)
    ensures AggregatePwr(batteries).voltage >= 0.0 && 0.0 <= AggregatePwr(batteries).soc <= 100.0
  {
    var n := |batteries|;
    var volts, socs := Sum(batteries, (x: Battery) => x.voltage), Sum(batteries, (x: Battery) => x.soc as real);
    SumNonNegative(batteries, (x: Battery) => x.voltage);
    MeanNonNegative(volts, n);
    RoundNonNegative(Mean(volts, n), 2);
    SumWithin(batteries, (x: Battery) => x.soc as real, 0.0, 100.0);
    MeanWithin(socs, n, 0.0, 100.0);
    RoundWithin(Mean(socs, n), 0, 100, 1);
  }

  // The gate

  lemma SystemNumbers(s: System, rest: Dict)
    requires s.totals.voltage >= 0.0 && 0.0 <= s.totals.soc <= 100.0 && s.energyIn >= 0.0 && s.energyOut >= 0.0
    ensures HasNumbers(PayloadOf(s, rest), REQUIRED) && SupportedVersion(PayloadOf(s, rest))
  {
    var d := PayloadOf(s, rest);
    forall k | 0 <= k < |REQUIRED|
      ensures HasNumber(d, REQUIRED[k])
    {
    }
  }

  lemma BatteriesAccepted(s: System, rest: Dict)
    ensures ValidBatteries(PayloadOf(s, rest)) <==> AllAcceptable(s.batteries)
  {
    var items := BatteriesJson(s.batteries);
    forall i | 0 <= i < |items|
      ensures ValidBattery(items[i]) <==> Acceptable(s.batteries[i])
    {
      BatteryAccepted(s.batteries[i]);
    }
    if AllAcceptable(s.batteries) {
      assert ValidBatteries(PayloadOf(s, rest));
    } else {
      var i :| 0 <= i < |items| && !Acceptable(s.batteries[i]);
      assert !ValidBattery(items[i]);
    }
  }

  /** A snapshot with batteries, their totals and counters that are not negative. */
  predicate Published(s: System) {
    s.batteries != [] && s.totals == AggregatePwr(s.batteries) && s.energyIn >= 0.0 && s.energyOut >= 0.0
  }

  /** A snapshot passes the gate exactly when each of its batteries would: nothing the sidecar computes on top can make
      it fail. */
  lemma SnapshotAccepted(s: System, rest: Dict)
    requires Published(s)
    ensures ValidPayload(PayloadOf(s, rest)) <==> AllAcceptable(s.batteries)
  {
    BatteriesAccepted(s, rest);
    if AllAcceptable(s.batteries) {
      TotalsAccepted(s.batteries);
      SystemNumbers(s, rest);
    }
  }

  // Runs

  predicate AllPublished(log: seq<Publication>) {
    forall i :: 0 <= i < |log| && log[i].State? ==> Published(log[i].system)
  }

  lemma TurnPublished(l: Loop, c: Cycle, cfg: Settings, m: Loop)
    requires Turned(l, c, cfg, m) && AllPublished(l.published) && NonNegative(m.energy.meter.flow)
    ensures AllPublished(m.published)
  {
    hide Fetched;
    if Succeeds(l, c, cfg) {
      FetchedSome(c, cfg);
      RoundNonNegative(m.energy.meter.flow.charged, 3);
      RoundNonNegative(m.energy.meter.flow.discharged, 3);
      assert Published(Snapshot(l, c, cfg));
    }
  }

  lemma {:induction false} RunPublishes(loops: seq<Loop>, cycles: seq<Cycle>, cfg: Settings)
    requires IsRun(loops, cycles, cfg) && loops[0].published == [] && NonNegative(loops[0].energy.meter.flow)
    ensures AllPublished(loops[|cycles|].published)
    decreases |cycles|
  {
    if cycles != [] {
      var n := |cycles| - 1;
      RunPublishes(loops[..n + 1], cycles[..n], cfg);
      CountersNonNegative(loops, cycles, cfg);
      TurnPublished(loops[n], cycles[n], cfg, loops[n + 1]);
    }
  }

  /** For every run of the poll loop, every state payload it publishes is accepted by the integration, in any state and
      at any time, exactly when the batteries it reports have voltages that are not negative, states of charge between
      0 and 100, and at most 32 cells each, with distinct ids. */
  lemma EveryPayloadAccepted(
    loops: seq<Loop>, cycles: seq<Cycle>, cfg: Settings, i: nat, rest: Dict, at: C.State, now: real, parse: C.SpecParser)
    requires IsRun(loops, cycles, cfg) && loops[0].published == [] && NonNegative(loops[0].energy.meter.flow)
    requires i < |loops[|cycles|].published| && loops[|cycles|].published[i].State?
    ensures var s := loops[|cycles|].published[i].system;
            C.Process(at, Object(PayloadOf(s, rest)), now, parse).1 == C.Updated <==> AllAcceptable(s.batteries)
  {
    hide AllAcceptable, C.Process, ValidPayload;
    var s := loops[|cycles|].published[i].system;
    RunPublishes(loops, cycles, cfg);
    SnapshotAccepted(s, rest);
    C.GateIsExact(at, Object(PayloadOf(s, rest)), now, parse);
    assert C.SpecOf(PayloadOf(s, rest)) == match s.spec { case None => Null case Some(text) => Str(text) };
  }
}
