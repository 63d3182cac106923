/** The console emulator of scripts/pylon_stub.py as the printer of the responses the sidecar parses. */
module Stub {
  import opened Text

  datatype Firmware = OldFirmware | NewFirmware

  /** NoFault is an id without an entry in the fault dict. */
  datatype FaultKind = NoFault | OverVoltage | UnderVoltage | OverTemp | UnderTemp | OverCurrent | MarkedAbsent

  datatype Config = Config(batteries: nat, slots: nat, groups: nat, firmware: Firmware, cells: nat, capMah: nat)

  datatype BmsState = BmsState(
    soc: int, voltage: int, current: int, temperature: int, tempLow: int, tempHigh: int, voltLow: int, voltHigh: int,
    mostempr: int, cycles: nat, pwrCoulomb: int, dsgCap: int)

  /** What the seeded generator draws for a battery, and the date and clock the console prints. */
  datatype Draws = Draws(
    tlowId: nat -> int, thighId: nat -> int, vlowId: nat -> int, vhighId: nat -> int, mosOffset: nat -> int,
    cellVolt: (nat, nat) -> int, cellTemp: (nat, nat) -> int, date: string, clock: string)

  datatype Bms = Bms(cfg: Config, state: BmsState, faults: map<nat, FaultKind>, draws: Draws) {
    function FaultOf(id: nat): FaultKind {
      if id in faults then faults[id] else NoFault
    }

    function Count(): nat {
      cfg.groups * cfg.slots
    }
  }

  // Fields and rows

  /** f"{value:<width}" */
  datatype Field = Field(value: string, width: nat)

  function Render(fields: seq<Field>): string {
    if fields == [] then "" else Left(fields[0].value, fields[0].width) + Render(fields[1..])
  }

  function Num(n: int, width: nat): Field {
    Field(IntText(n), width)
  }

  function Join(rows: seq<string>): string {
    if rows == [] then "" else if |rows| == 1 then rows[0] else rows[0] + "\r\r\n" + Join(rows[1..])
  }

  /** _wrap */
  function Wrap(cmd: string, body: string, kv: bool): string {
    cmd + "\n\r@\r" + (if kv then "\n\r" else "\r\n") + body + "\r\n\r" + TAIL
  }

  const TAIL := "Command completed successfully" + "\r\n\r" + "$$" + "\r\n\r" + "pylon>"

  // What a battery shows

  function StateWord(currentMa: int): string {
    if -500 < currentMa < 500 then "Idle" else if currentMa > 0 then "Charge" else "Dischg"
  }

  function VoltWord(f: FaultKind): string {
    if f == OverVoltage then "OV" else if f == UnderVoltage then "UV" else "Normal"
  }

  function CurrWord(f: FaultKind): string {
    if f == OverCurrent then "OC" else "Normal"
  }

  function TempWord(f: FaultKind): string {
    if f == OverTemp then "OT" else if f == UnderTemp then "UT" else "Normal"
  }

  function AlarmWord(f: FaultKind): string {
    if f == NoFault || f == MarkedAbsent then "Normal" else "Alarm"
  }

  /** The status strings of the table rows are padded to eight before they are put in their columns. */
  function Padded(word: string): string {
    if word == "Normal" then "Normal  " else if word == "Alarm" then "Alarm   " else word
  }

  datatype Shown = Shown(
    voltage: int, current: int, temperature: int, tempLow: int, tempHigh: int, voltLow: int, voltHigh: int)

  /** The raw values, pushed past their threshold by a fault; the table and the vertical block cap an overcurrent
      differently, to fit their columns. */
  function ShownBy(s: BmsState, cells: int, f: FaultKind, overCurrent: int): Shown {
    var raw := Shown(s.voltage, s.current, s.temperature, s.tempLow, s.tempHigh, s.voltLow, s.voltHigh);
    match f
    case OverVoltage => raw.(voltage := 3870 * cells, voltLow := 3865, voltHigh := 3870)
    case UnderVoltage => raw.(voltage := 2750 * cells, voltLow := 2750, voltHigh := 2760)
    case OverTemp => raw.(temperature := 55000, tempHigh := 55000)
    case UnderTemp => raw.(temperature := -10000, tempLow := -10000)
    case OverCurrent => raw.(current := if s.current < 0 then -overCurrent else overCurrent)
    case _ => raw
  }

  const TABLE_OVER_CURRENT := 99999
  const BLOCK_OVER_CURRENT := 150000

  // Slots

  /** _battery_slot_status: the slot of a sequential id within its group. */
  function SlotOf(cfg: Config, id: nat): nat
    requires id >= 1 && cfg.slots >= 1
  {
    (id - 1) % cfg.slots + 1
  }

  predicate Present(b: Bms, id: nat)
    requires id >= 1
  {
    b.cfg.slots >= 1 && SlotOf(b.cfg, id) <= b.cfg.batteries && b.FaultOf(id) != MarkedAbsent
  }

  // The pwr table

  const OLD_HEADER: seq<Field> := [
    Field("Power", 6), Field("Volt", 7), Field("Curr", 7), Field("Tempr", 7), Field("Tlow", 7), Field("Thigh", 7),
    Field("Vlow", 7), Field("Vhigh", 7), Field("Base.St", 9), Field("Volt.St", 9), Field("Curr.St", 9),
    Field("Temp.St", 9), Field("Coulomb", 9), Field("Time", 21), Field("B.V.St", 9), Field("B.T.St", 8)]

  const NEW_HEADER: seq<Field> := [
    Field("Power", 6), Field("Volt", 7), Field("Curr", 7), Field("Tempr", 7), Field("Tlow", 7), Field("Tlow.Id", 8),
    Field("Thigh", 7), Field("Thigh.Id", 9), Field("Vlow", 7), Field("Vlow.Id", 9), Field("Vhigh", 7),
    Field("Vhigh.Id", 9), Field("Base.St", 9), Field("Volt.St", 9), Field("Curr.St", 9), Field("Temp.St", 9),
    Field("Coulomb", 9), Field("Time", 21), Field("B.V.St", 9), Field("B.T.St", 9), Field("MosTempr", 10),
    Field("M.T.St", 9), Field("SysAlarm.St", 11)]

  function Header(fw: Firmware): seq<Field> {
    if fw == OldFirmware then OLD_HEADER else NEW_HEADER
  }

  function PresentOld(b: Bms, id: nat): seq<Field> {
    var f := b.FaultOf(id);
    var v := ShownBy(b.state, b.cfg.cells, f, TABLE_OVER_CURRENT);
    [Num(id, 6), Num(v.voltage, 7), Num(v.current, 7), Num(v.temperature, 7),
     Num(v.tempLow, 7), Num(v.tempHigh, 7), Num(v.voltLow, 7), Num(v.voltHigh, 7),
     Field(StateWord(b.state.current), 9), Field(Padded(VoltWord(f)), 9), Field(Padded(CurrWord(f)), 9),
     Field(Padded(TempWord(f)), 9), Field(IntText(b.state.soc) + "%", 9),
     Field(b.draws.date, |b.draws.date| + 1), Field(b.draws.clock, |b.draws.clock| + 2),
     Field(Padded(VoltWord(f)), 9), Field(Padded(TempWord(f)), 8)]
  }

  function PresentNew(b: Bms, id: nat): seq<Field> {
    var f := b.FaultOf(id);
    var v := ShownBy(b.state, b.cfg.cells, f, TABLE_OVER_CURRENT);
    [Num(id, 6), Num(v.voltage, 7), Num(v.current, 7), Num(v.temperature, 7),
     Num(v.tempLow, 7), Num(b.draws.tlowId(id), 8), Num(v.tempHigh, 7), Num(b.draws.thighId(id), 9),
     Num(v.voltLow, 7), Num(b.draws.vlowId(id), 9), Num(v.voltHigh, 7), Num(b.draws.vhighId(id), 9),
     Field(StateWord(b.state.current), 9), Field(Padded(VoltWord(f)), 9), Field(Padded(CurrWord(f)), 9),
     Field(Padded(TempWord(f)), 9), Field(IntText(b.state.soc) + "%", 9),
     Field(b.draws.date, |b.draws.date| + 1), Field(b.draws.clock, |b.draws.clock| + 2),
     Field(Padded(VoltWord(f)), 9), Field(Padded(TempWord(f)), 9),
     Num(b.state.mostempr + b.draws.mosOffset(id), 10), Field("Normal", 9), Field(Padded(AlarmWord(f)), 8)]
  }

  const DASH := Field("-", 7)
  const DASH9 := Field("-", 9)

  function AbsentOld(id: nat): seq<Field> {
    [Num(id, 6), DASH, DASH, DASH, DASH, DASH, DASH, DASH, Field("Absent", 9), DASH9, DASH9, DASH9, DASH9,
     Field("-", 21), DASH9, Field("-", 8)]
  }

  function AbsentNew(id: nat): seq<Field> {
    [Num(id, 6), DASH, DASH, DASH, DASH, Field("-", 8), DASH, DASH9, DASH, DASH9, DASH, DASH9, Field("Absent", 9),
     DASH9, DASH9, DASH9, DASH9, Field("-", 21), DASH9, DASH9, Field("-", 10), DASH9, Field("-", 8)]
  }

  function SlotFields(b: Bms, id: nat, present: bool): seq<Field> {
    match b.cfg.firmware
    case OldFirmware => if present then PresentOld(b, id) else AbsentOld(id)
    case NewFirmware => if present then PresentNew(b, id) else AbsentNew(id)
  }

  /** A firmware's row, given the id and whether a battery is present. */
  type RowFormat = (nat, bool) -> string

  function Format(b: Bms): RowFormat {
    (id: nat, present: bool) => Render(SlotFields(b, id, present))
  }

  /** The table's rows for the ids up to n. */
  function RowTexts(b: Bms, row: RowFormat, n: nat): (rows: seq<string>)
    ensures |rows| == n
  {
    if n == 0 then [] else RowTexts(b, row, n - 1) + [row(n, Present(b, n))]
  }

  /** The response to "pwr" without an argument. */
  function PwrResponse(b: Bms): string {
    Wrap("pwr", Render(Header(b.cfg.firmware)) + "\r\r\n" + Join(RowTexts(b, Format(b), b.Count())), false)
  }

  lemma SlotInGroup(cfg: Config, g: nat, slot: nat)
    requires 1 <= slot <= cfg.slots
    ensures SlotOf(cfg, g * cfg.slots + slot) == slot
  {
    var n, s := g * cfg.slots + slot - 1, cfg.slots;
    assert n == s * g + (slot - 1);
    DivModUnique(n, s, g, slot - 1);
  }

  lemma DivModUnique(n: nat, d: nat, q: nat, r: nat)
    requires d >= 1 && n == d * q + r && r < d
    ensures n % d == r
  {
    assert n == d * (n / d) + n % d;
    if n / d < q {
      MulMonotone(d, n / d + 1, q);
    } else if n / d > q {
      MulMonotone(d, q + 1, n / d);
    }
  }

  lemma MulMonotone(d: nat, x: nat, y: nat)
    requires x <= y
    ensures d * x <= d * y
  {
  }

  /** The ids that follow on from base go through the slots of a group. */
  ghost predicate GroupAt(cfg: Config, base: nat) {
    forall id :: base < id <= base + cfg.slots ==> SlotOf(cfg, id) == id - base
  }

  lemma GroupStarts(cfg: Config, g: nat, base: nat)
    requires base == g * cfg.slots
    ensures GroupAt(cfg, base)
  {
    forall id | base < id <= base + cfg.slots
      ensures SlotOf(cfg, id) == id - base
    {
      SlotInGroup(cfg, g, id - base);
    }
  }

  /** The slots of one group, whose ids follow on from base: the inner loop of _resp_pwr. */
  method GroupRows(b: Bms, row: RowFormat, base: nat, before: seq<string>) returns (rows: seq<string>)
    requires GroupAt(b.cfg, base)
    requires before == RowTexts(b, row, base)
    ensures rows == RowTexts(b, row, base + b.cfg.slots)
  {
    rows := before;
    for slot := 1 to b.cfg.slots + 1
      invariant rows == RowTexts(b, row, base + slot - 1)
    {
      var id := base + slot;
      var present := slot <= b.cfg.batteries && b.FaultOf(id) != MarkedAbsent;
      rows := rows + [row(id, present)];
    }
  }

  lemma NextBase(g: nat, slots: nat)
    ensures (g + 1) * slots == g * slots + slots
  {
  }

  /** _resp_pwr: groups, then slots within a group. */
  method RespPwr(b: Bms) returns (text: string)
    ensures text == PwrResponse(b)
  {
    var cfg, row := b.cfg, Format(b);
    var rows: seq<string> := [];
    for g := 0 to cfg.groups
      invariant rows == RowTexts(b, row, g * cfg.slots)
    {
      var base := g * cfg.slots;
      GroupStarts(cfg, g, base);
      rows := GroupRows(b, row, base, rows);
      NextBase(g, cfg.slots);
    }
    text := Wrap("pwr", Render(Header(cfg.firmware)) + "\r\r\n" + Join(rows), false);
  }

  // The bat table

  const OLD_BAT_HEADER: seq<Field> := [
    Field("Battery", 9), Field("Volt", 9), Field("Curr", 9), Field("Tempr", 9), Field("Base", 5), Field("State", 8),
    Field("Volt.", 6), Field("State", 7), Field("Curr.", 6), Field("State", 7), Field("Temp.", 6), Field("State", 7),
    Field("Coulomb", 12)]

  const NEW_BAT_HEADER: seq<Field> := [
    Field("Battery", 9), Field("Volt", 9), Field("Curr", 9), Field("Tempr", 9), Field("Base", 5), Field("State", 8),
    Field("Volt.", 6), Field("State", 7), Field("Curr.", 6), Field("State", 7), Field("Temp.", 6), Field("State", 7),
    Field("SOC", 11), Field("Coulomb", 12)]

  function BatHeader(fw: Firmware): seq<Field> {
    if fw == OldFirmware then OLD_BAT_HEADER else NEW_BAT_HEADER
  }

  /** _soh_pct */
  function SohPct(cycles: nat): (pct: nat)
    ensures pct <= 100
  {
    if cycles / 50 > 100 then 0 else 100 - cycles / 50
  }

  function CellCapacity(b: Bms): nat
    requires b.cfg.cells >= 1
  {
    var faded: nat := b.cfg.capMah * SohPct(b.state.cycles) / 100;
    faded / b.cfg.cells
  }

  function CellVolt(b: Bms, id: nat, c: nat): int {
    var f := b.FaultOf(id);
    (if f == OverVoltage then 3870 else if f == UnderVoltage then 2750 else b.state.voltLow) + b.draws.cellVolt(id, c)
  }

  function CellTemp(b: Bms, id: nat, c: nat): int {
    var f := b.FaultOf(id);
    (if f == OverTemp then 55000 else if f == UnderTemp then -10000 else b.state.temperature) + b.draws.cellTemp(id, c)
  }

  function BatFields(b: Bms, id: nat, c: nat): seq<Field>
    requires b.cfg.cells >= 1
  {
    var f := b.FaultOf(id);
    var cap := IntText(CellCapacity(b));
    [Num(c, 9), Num(CellVolt(b, id, c), 9), Num(ShownBy(b.state, b.cfg.cells, f, BLOCK_OVER_CURRENT).current, 9),
     Num(CellTemp(b, id, c), 9),
     Field(StateWord(b.state.current), 13), Field(VoltWord(f), 13), Field(CurrWord(f), 13), Field(TempWord(f), 13),
     Field(IntText(b.state.soc) + "%", 11), Field(cap, |cap| + 1), Field("mAH", 3)]
  }

  function BatTexts(b: Bms, id: nat, n: nat): (rows: seq<string>)
    requires b.cfg.cells >= 1
    ensures |rows| == n
  {
    if n == 0 then [] else BatTexts(b, id, n - 1) + [Render(BatFields(b, id, n - 1))]
  }

  function BatCommand(id: int): string {
    "bat " + IntText(id)
  }

  /** The response to "bat N". */
  function BatResponse(b: Bms, id: int): string
    requires b.cfg.cells >= 1
  {
    var title := "Battery " + IntText(id);
    if id < 1 || id > b.Count() then Wrap(BatCommand(id), title + " not found", false)
    else if !Present(b, id) then Wrap(BatCommand(id), title + "\r\r\n" + "Absent", false)
    else Wrap(BatCommand(id), Render(BatHeader(b.cfg.firmware)) + "\r\r\n" + Join(BatTexts(b, id, b.cfg.cells)), false)
  }

  /** _resp_bat */
  method RespBat(b: Bms, id: int) returns (text: string)
    requires b.cfg.cells >= 1
    ensures text == BatResponse(b, id)
  {
    var title := "Battery " + IntText(id);
    if id < 1 || id > b.Count() {
      return Wrap(BatCommand(id), title + " not found", false);
    }
    if !Present(b, id) {
      return Wrap(BatCommand(id), title + "\r\r\n" + "Absent", false);
    }
    var rows: seq<string> := [];
    for c := 0 to b.cfg.cells
      invariant rows == BatTexts(b, id, c)
    {
      rows := rows + [Render(BatFields(b, id, c))];
    }
    text := Wrap(BatCommand(id), Render(BatHeader(b.cfg.firmware)) + "\r\r\n" + Join(rows), false);
  }
}