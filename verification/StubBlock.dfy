/** The emulator's vertical "pwr N" block. */
module StubBlock {
  import opened Text
  import opened Stub

  datatype BlockKey =
    | KVoltage | KSocVoltage | KCurrent | KTemperature | KCoulomb | KTotalCoulomb | KRealCoulomb | KPowerIn | KPowerOut
    | KBasic | KVolt | KCurr | KTmpr | KCoul | KBat | KCmos | KDmos | KBatEna | KPwrEna | KBatEvents | KPowerEvents
    | KSysFault | KComm

  function KeyText(k: BlockKey): string {
    match k
    case KVoltage => "Voltage"
    case KSocVoltage => "SOC Voltage"
    case KCurrent => "Current"
    case KTemperature => "Temperature"
    case KCoulomb => "Coulomb"
    case KTotalCoulomb => "Total Coulomb"
    case KRealCoulomb => "Real Coulomb"
    case KPowerIn => "Total Power In"
    case KPowerOut => "Total Power Out"
    case KBasic => "Basic Status"
    case KVolt => "Volt Status"
    case KCurr => "Current Status"
    case KTmpr => "Tmpr. Status"
    case KCoul => "Coul. Status"
    case KBat => "Bat Status"
    case KCmos => "CMOS Status"
    case KDmos => "DMOS Status"
    case KBatEna => "Bat Protect ENA"
    case KPwrEna => "Pwr Protect ENA"
    case KBatEvents => "Bat Events"
    case KPowerEvents => "Power Events"
    case KSysFault => "System Fault"
    case KComm => "COMM EX Status"
  }

  /** kv(key, value, unit) */
  datatype Entry = Entry(key: BlockKey, value: string, unit: string)

  function EntryLine(e: Entry): string {
    Left(KeyText(e.key), 16) + ": " + Left(e.value, 8) + e.unit
  }

  function CmosWord(f: FaultKind): string {
    if f == OverVoltage || f == OverTemp || f == OverCurrent then "OFF" else "ON"
  }

  function DmosWord(f: FaultKind): string {
    if f == UnderVoltage || f == UnderTemp || f == OverTemp || f == OverCurrent then "OFF" else "ON"
  }

  function BatWord(f: FaultKind): string {
    match f
    case OverVoltage => "VOV TNOR"
    case UnderVoltage => "VUV TNOR"
    case OverTemp => "VNOR TOT"
    case UnderTemp => "VNOR TUT"
    case _ => "VNOR TNOR"
  }

  function BatEventBits(f: FaultKind): string {
    match f
    case OverVoltage => "0x1"
    case UnderVoltage => "0x4"
    case OverTemp => "0x10"
    case UnderTemp => "0x40"
    case _ => "0x0"
  }

  function PowerEventBits(f: FaultKind): string {
    if f == OverCurrent then "0x1" else "0x0"
  }

  function SysFaultBits(f: FaultKind): string {
    if f == NoFault || f == MarkedAbsent then "0x0" else "0x1"
  }

  function BlockShown(b: Bms, id: nat): Shown {
    ShownBy(b.state, b.cfg.cells, b.FaultOf(id), BLOCK_OVER_CURRENT)
  }

  function RealCapacity(b: Bms): nat {
    b.cfg.capMah * SohPct(b.state.cycles) / 100
  }

  function BatteryGuards(): string {
    "OV HV LV UV SLP OT HT LT UT"
  }

  function PowerGuards(): string {
    BatteryGuards() + " COC COC2 COCA DOCA DOC DOC2 SC"
  }

  /** The block's numbers. */
  function MeasureAt(b: Bms, id: nat, i: nat): Entry {
    var v := BlockShown(b, id);
    match i
    case 0 => Entry(KVoltage, IntText(v.voltage), "mV")
    case 1 => Entry(KSocVoltage, "0", "mV")
    case 2 => Entry(KCurrent, IntText(v.current), "mA")
    case 3 => Entry(KTemperature, IntText(v.temperature), "mC")
    case 4 => Entry(KCoulomb, IntText(b.state.soc), "%")
    case 5 => Entry(KTotalCoulomb, IntText(b.cfg.capMah), "mAH")
    case 6 => Entry(KRealCoulomb, IntText(RealCapacity(b)), "mAH")
    case 7 => Entry(KPowerIn, IntText(b.state.pwrCoulomb), "AS")
    case _ => Entry(KPowerOut, IntText(b.state.dsgCap), "AS")
  }

  /** Its words of status, from place 9 on. */
  function StatusAt(b: Bms, id: nat, i: nat): Entry {
    var f := b.FaultOf(id);
    match i
    case 9 => Entry(KBasic, StateWord(b.state.current), "")
    case 10 => Entry(KVolt, VoltWord(f), "")
    case 11 => Entry(KCurr, CurrWord(f), "")
    case 12 => Entry(KTmpr, TempWord(f), "")
    case 13 => Entry(KCoul, "Normal", "")
    case 14 => Entry(KBat, BatWord(f), "")
    case 15 => Entry(KCmos, CmosWord(f), "")
    case _ => Entry(KDmos, DmosWord(f), "")
  }

  /** Its guards and events, from place 17 on. */
  function EventAt(f: FaultKind, i: nat): Entry {
    match i
    case 17 => Entry(KBatEna, BatteryGuards(), "")
    case 18 => Entry(KPwrEna, PowerGuards(), "")
    case 19 => Entry(KBatEvents, BatEventBits(f), "")
    case 20 => Entry(KPowerEvents, PowerEventBits(f), "")
    case 21 => Entry(KSysFault, SysFaultBits(f), "")
    case _ => Entry(KComm, "0x0", "")
  }

  /** The block's entry at place i. */
  function EntryAt(b: Bms, id: nat, i: nat): Entry
    requires i < ENTRY_COUNT
  {
    if i < 9 then MeasureAt(b, id, i) else if i < 17 then StatusAt(b, id, i) else EventAt(b.FaultOf(id), i)
  }

  const ENTRY_COUNT := 23

  function Entries(b: Bms, id: nat): seq<Entry> {
    seq(ENTRY_COUNT, i requires 0 <= i < ENTRY_COUNT => EntryAt(b, id, i))
  }

  const ABSENT_ENTRIES: seq<Entry> := [Entry(KBasic, "Absent", "")]

  const SEP := "----------------------------"

  function EntryLines(entries: seq<Entry>): (lines: seq<string>)
    ensures |lines| == |entries|
    ensures forall i :: 0 <= i < |entries| ==> lines[i] == EntryLine(entries[i])
  {
    if entries == [] then [] else [EntryLine(entries[0])] + EntryLines(entries[1..])
  }

  function BlockLines(id: nat, entries: seq<Entry>): seq<string> {
    [SEP, "Power " + IntText(id)] + EntryLines(entries) + [SEP]
  }

  function BlockJoin(lines: seq<string>): string {
    if lines == [] then "" else if |lines| == 1 then lines[0] else lines[0] + "\r\n\r" + BlockJoin(lines[1..])
  }

  function IndexedCommand(id: int): string {
    "pwr " + IntText(id)
  }

  /** _resp_pwr_indexed */
  function IndexedResponse(b: Bms, id: int): string {
    if id < 1 || id > b.Count() then Wrap(IndexedCommand(id), "Power " + IntText(id) + " not found", true)
    else Wrap(IndexedCommand(id),
              BlockJoin(BlockLines(id, if Present(b, id) then Entries(b, id) else ABSENT_ENTRIES)), true)
  }

  // Keys

  /** The key whose text this is; on other strings, some key. */
  function KeyOf(s: string): BlockKey
    requires |s| >= 7
  {
    var c, d := s[0], s[1];
    if |s| == 7 then (if c == 'V' then KVoltage else if d == 'u' then KCurrent else KCoulomb)
    else if |s| == 10 then (if s[4] == 'S' then KBat else KBatEvents)
    else if |s| == 11 then
      (if c == 'S' then KSocVoltage else if c == 'T' then KTemperature else if c == 'V' then KVolt
       else if c == 'C' then KCmos else KDmos)
    else if |s| == 12 then
      (if c == 'R' then KRealCoulomb else if c == 'B' then KBasic else if c == 'T' then KTmpr else if c == 'C' then KCoul
       else if c == 'P' then KPowerEvents else KSysFault)
    else if |s| == 13 then KTotalCoulomb
    else if |s| == 14 then (if c == 'T' then KPowerIn else if d == 'u' then KCurr else KComm)
    else (if c == 'T' then KPowerOut else if c == 'B' then KBatEna else KPwrEna)
  }

  /** No two keys have the same text. */
  lemma KeyTextRead(k: BlockKey)
    ensures 7 <= |KeyText(k)| <= 15 && KeyOf(KeyText(k)) == k
  {
  }
}
