/** What the integration holds of what the sidecar published, and of what the emulator printed. */
module Arrival {
  import opened Wrappers
  import opened Schemas
  import opened Stub
  import opened RoundTrip
  import opened Discovery
  import opened PollLoop
  import opened PollRuns
  import opened CycleReading
  import opened EmulatorCycle
  import opened Payload
  import opened EndToEnd
  import C = Coordinator

  predicate CellArrived(item: Json, c: Cell) {
    && item.Object?
    && var d := item.fields;
       && KeyCellId in d && d[KeyCellId] == Int(c.cellId) && KeyVoltage in d && d[KeyVoltage] == Float(c.voltage)
       && KeyCurrent in d && d[KeyCurrent] == Float(c.current) && KeySoc in d && d[KeySoc] == Int(c.soc)
  }

  predicate CellsArrived(items: seq<Json>, cells: seq<Cell>) {
    |items| == |cells| && forall j :: 0 <= j < |cells| ==> CellArrived(items[j], cells[j])
  }

  predicate BatteryArrived(item: Json, b: Battery) {
    && item.Object?
    && var d := item.fields;
       && KeySysId in d && d[KeySysId] == Int(b.sysId) && KeyVoltage in d && d[KeyVoltage] == Float(b.voltage)
       && KeyCurrent in d && d[KeyCurrent] == Float(b.current) && KeySoc in d && d[KeySoc] == Int(b.soc)
       && KeyPower in d && d[KeyPower] == Float(b.power)
       && Other("status") in d && d[Other("status")] == Str(b.status)
       && Cells in d && d[Cells].List? && CellsArrived(d[Cells].items, b.cells)
  }

  /** The coordinator's data has the snapshot's totals, counters and batteries, in their order. */
  predicate Arrived(d: Dict, s: System) {
    && TotalsArrived(d, s)
    && Batteries in d && d[Batteries].List? && |d[Batteries].items| == |s.batteries|
    && forall i :: 0 <= i < |s.batteries| ==> BatteryArrived(d[Batteries].items[i], s.batteries[i])
  }

  lemma {:induction false} CellsSent(cells: seq<Cell>)
    ensures CellsArrived(CellsJson(cells), cells)
  {
  }

  lemma BatteryHas(b: Battery)
    ensures BatteryArrived(BatteryJson(b), b)
  {
    hide CellsArrived;
    CellsSent(b.cells);
  }

  lemma BatterySent(b: Battery, kept: Json)
    requires C.KeptBattery(BatteryJson(b), kept)
    ensures BatteryArrived(kept, b)
  {
    hide CellsArrived, BatteryJson;
    BatteryHas(b);
  }

  /** The totals, counters and specification. */
  predicate TotalsArrived(d: Dict, s: System) {
    && KeyVoltage in d && d[KeyVoltage] == Float(s.totals.voltage) && KeyCurrent in d && d[KeyCurrent] == Float(s.totals.current)
    && KeySoc in d && d[KeySoc] == Float(s.totals.soc) && KeyPower in d && d[KeyPower] == Float(s.totals.power)
    && KeyEnergyIn in d && d[KeyEnergyIn] == Float(s.energyIn) && KeyEnergyOut in d && d[KeyEnergyOut] == Float(s.energyOut)
    && KeySpec in d && d[KeySpec] == if s.spec.Some? then Str(s.spec.value) else Null
  }

  lemma TotalsSent(s: System, rest: Dict)
    ensures TotalsArrived(PayloadOf(s, rest), s)
    ensures Batteries in PayloadOf(s, rest) && PayloadOf(s, rest)[Batteries] == List(BatteriesJson(s.batteries))
  {
    hide BatteriesJson;
  }

  lemma TotalsKept(sent: Dict, kept: Dict, s: System)
    requires TotalsArrived(sent, s)
    requires forall k :: k in sent && k != Batteries && k != KeyEnergyStored ==> k in kept && kept[k] == sent[k]
    ensures TotalsArrived(kept, s)
  {
  }

  lemma BatteriesKept(batteries: seq<Battery>, kept: seq<Json>)
    requires C.SameBatteries(BatteriesJson(batteries), kept)
    ensures |kept| == |batteries| && forall i :: 0 <= i < |batteries| ==> BatteryArrived(kept[i], batteries[i])
  {
    hide BatteryArrived, C.KeptBattery, BatteryJson, BatteriesJson;
    forall i | 0 <= i < |batteries|
      ensures BatteryArrived(kept[i], batteries[i])
    {
      BatteryKeptAt(BatteriesJson(batteries), kept, i);
      BatterySent(batteries[i], kept[i]);
    }
  }

  lemma BatteryKeptAt(sent: seq<Json>, kept: seq<Json>, i: nat)
    requires C.SameBatteries(sent, kept) && i < |sent|
    ensures |kept| == |sent| && C.KeptBattery(sent[i], kept[i])
  {
    hide C.KeptBattery;
  }

  /** A snapshot that is accepted arrives whole, whatever was there before, with the energy each battery stores. */
  lemma SnapshotArrives(s: System, rest: Dict, at: C.State, now: real, parse: C.SpecParser)
    requires C.Process(at, Object(PayloadOf(s, rest)), now, parse).1 == C.Updated
    ensures var t := C.Process(at, Object(PayloadOf(s, rest)), now, parse).0;
            t.data.Some? && Arrived(t.data.value, s) && C.EnergiesFit(t.data.value, t.own, t.default)
  {
    hide BatteryArrived, TotalsArrived, C.SameBatteries, C.EnergiesFit, C.Process, C.HasBatteries, ValidPayload, PayloadOf,
      BatteriesJson;
    var sent := PayloadOf(s, rest);
    var t := C.Process(at, Object(sent), now, parse).0;
    C.AcceptedFits(at, Object(sent), now, parse);
    C.AcceptedIsKept(at, Object(sent), now, parse);
    ListThere(t.data.value);
    TotalsSent(s, rest);
    TotalsKept(sent, t.data.value, s);
    BatteriesKept(s.batteries, t.data.value[Batteries].items);
  }

  lemma ListThere(d: Dict)
    requires C.HasBatteries(d)
    ensures Batteries in d && d[Batteries].List?
  {
  }

  /** Where the snapshot's payload is accepted, it arrives. */
  predicate IfAccepted(s: System, rest: Dict, at: C.State, now: real, parse: C.SpecParser) {
    var (t, outcome) := C.Process(at, Object(PayloadOf(s, rest)), now, parse);
    outcome == C.Updated ==> t.data.Some? && Arrived(t.data.value, s)
  }

  /** From the emulator to the integration: a cycle that comes through publishes the batteries in the emulator's slots, and
      when the integration accepts the payload, its data are theirs. */
  lemma EmulatorArrives(
    b: Bms, l: Loop, c: PollLoop.Cycle, cfg: Settings, m: Loop, rest: Dict, at: C.State, now: real, parse: C.SpecParser)
    requires b.cfg.cells >= 1 && OnEmulator(c, b) && Printable(b) && AllFit(b) && AllBlocksFit(b) && AllCellsFit(b)
    requires exists id :: 1 <= id <= b.Count() && Present(b, id)
    requires l.infoFetched || (c.info.Ok? && (cfg.syncTime ==> c.sync.Ok?))
    requires Turned(l, c, cfg, m)
    ensures |m.published| == |l.published| + 2 && m.published[|l.published|].State?
    ensures var s := m.published[|l.published|].system;
            MirrorsAll(s.batteries, b, cfg.level) && IfAccepted(s, rest, at, now, parse)
  {
    hide OnEmulator, Present, MirrorsAll, Reads, Arrived, C.Process, Turned, AllFit, AllBlocksFit, AllCellsFit;
    EmulatedComes(b, c, cfg);
    TurnPublishes(l, c, cfg, m);
    var s := m.published[|l.published|].system;
    EmulatedCycle(b, c, cfg, s.batteries);
    if C.Process(at, Object(PayloadOf(s, rest)), now, parse).1 == C.Updated {
      SnapshotArrives(s, rest, at, now, parse);
    }
  }
}
