/** What the emulator's battery shows, in volts, amperes and degrees, and how its tables line up. */
module EmulatorValues {
  import opened Search
  import opened Wrappers
  import opened Text
  import opened Schemas
  import opened Stub
  import opened StubBlock
  import opened PwrReading
  import opened BatRoundTrip
  import opened IndexedRoundTrip

  // Slots

  /** The ids go through the slots of each group in turn, and slot s of group g has a battery when it is among the group's
      batteries and not marked absent. */
  lemma PresentIff(b: Bms, g: nat, s: nat)
    requires 1 <= s <= b.cfg.slots
    ensures g * b.cfg.slots + s <= b.Count() <==> g < b.cfg.groups
    ensures Present(b, g * b.cfg.slots + s) <==>
              var id := g * b.cfg.slots + s; s <= b.cfg.batteries && !(id in b.faults && b.faults[id] == MarkedAbsent)
  {
    SlotInGroup(b.cfg, g, s);
    var slots := b.cfg.slots;
    if g < b.cfg.groups {
      MulMonotone(slots, g + 1, b.cfg.groups);
    } else {
      MulMonotone(slots, b.cfg.groups, g);
    }
    assert slots * (g + 1) == g * slots + slots;
  }

  /** The fault of an id, if it has one. */
  predicate Faulty(b: Bms, id: nat, f: FaultKind) {
    id in b.faults && b.faults[id] == f
  }

  // The table's values

  /** A battery's voltages and temperatures in thousandths, with what a fault puts in their place. */
  lemma VoltsShown(b: Bms, id: nat)
    ensures var r, s, cells := Reading(b, id), b.state, b.cfg.cells as real;
            && r.voltage * 1000.0 == (if Faulty(b, id, OverVoltage) then 3870.0 * cells
                                      else if Faulty(b, id, UnderVoltage) then 2750.0 * cells else s.voltage as real)
            && r.voltLow.Some? && r.voltHigh.Some?
            && r.voltLow.value * 1000.0 == (if Faulty(b, id, OverVoltage) then 3865.0
                                            else if Faulty(b, id, UnderVoltage) then 2750.0 else s.voltLow as real)
            && r.voltHigh.value * 1000.0 == (if Faulty(b, id, OverVoltage) then 3870.0
                                             else if Faulty(b, id, UnderVoltage) then 2760.0 else s.voltHigh as real)
            && IndexedReading(b, id).voltage == r.voltage
  {
    hide Power;
  }

  lemma DegreesShown(b: Bms, id: nat)
    ensures var r, s := Reading(b, id), b.state;
            && r.temperature * 1000.0 == (if Faulty(b, id, OverTemp) then 55000.0
                                          else if Faulty(b, id, UnderTemp) then -10000.0 else s.temperature as real)
            && r.tempLow.Some? && r.tempHigh.Some?
            && r.tempLow.value * 1000.0 == (if Faulty(b, id, UnderTemp) then -10000.0 else s.tempLow as real)
            && r.tempHigh.value * 1000.0 == (if Faulty(b, id, OverTemp) then 55000.0 else s.tempHigh as real)
            && IndexedReading(b, id).temperature == r.temperature
  {
    hide Power;
  }

  /** The current keeps its sign under an overcurrent, and is capped to what the column holds. */
  lemma AmperesShown(b: Bms, id: nat)
    ensures var t, k, mA := Reading(b, id).current, IndexedReading(b, id).current, b.state.current as real;
            if Faulty(b, id, OverCurrent)
            then t * 1000.0 == (if mA < 0.0 then -99999.0 else 99999.0) && k * 1000.0 == (if mA < 0.0 then -150000.0 else 150000.0)
            else t * 1000.0 == mA && k * 1000.0 == mA
  {
    hide Power;
  }

  /** Below half an ampere either way is idle. */
  lemma StateShown(b: Bms, id: nat)
    ensures var r, mA := Reading(b, id), b.state.current;
            && r.sysId == id && r.soc == b.state.soc
            && r.status == (if mA >= 500 then "Charge" else if mA <= -500 then "Dischg" else "Idle")
            && IndexedReading(b, id).status == r.status && IndexedReading(b, id).soc == r.soc && IndexedReading(b, id).sysId == id
  {
    hide Power, ShownBy;
  }

  /** Each fault shows in its own words and bits, and in no others. */
  lemma FaultShown(b: Bms, id: nat)
    ensures var r, k := Reading(b, id), IndexedReading(b, id);
            var volt := if Faulty(b, id, OverVoltage) then "OV" else if Faulty(b, id, UnderVoltage) then "UV" else "Normal";
            var curr := if Faulty(b, id, OverCurrent) then "OC" else "Normal";
            var temp := if Faulty(b, id, OverTemp) then "OT" else if Faulty(b, id, UnderTemp) then "UT" else "Normal";
            && r.voltStatus == r.battVoltStatus == k.voltStatus == Some(volt)
            && r.currStatus == k.currStatus == Some(curr)
            && r.tempStatus == r.battTempStatus == k.tempStatus == Some(temp)
            && k.coulStatus == Some("Normal")
  {
    hide Power, ShownBy;
  }

  lemma EventsShown(b: Bms, id: nat)
    ensures var k := IndexedReading(b, id);
            && k.batEvents == Some(if Faulty(b, id, OverVoltage) then 1 else if Faulty(b, id, UnderVoltage) then 4
                                   else if Faulty(b, id, OverTemp) then 16 else if Faulty(b, id, UnderTemp) then 64 else 0)
            && k.powerEvents == Some(if Faulty(b, id, OverCurrent) then 1 else 0)
            && (k.sysFault == Some(0) <==> id !in b.faults || b.faults[id] == NoFault || b.faults[id] == MarkedAbsent)
            && (k.sysFault == Some(0) || k.sysFault == Some(1))
  {
    hide Power, ShownBy;
  }

  /** A fault opens the switch for charging, the one for discharging, or both; with no fault both are closed. */
  lemma SwitchesShown(b: Bms, id: nat)
    ensures var f := b.FaultOf(id);
            && (CmosWord(f) == "OFF" <==> Faulty(b, id, OverVoltage) || Faulty(b, id, OverTemp) || Faulty(b, id, OverCurrent))
            && (DmosWord(f) == "OFF" <==>
                 Faulty(b, id, UnderVoltage) || Faulty(b, id, UnderTemp) || Faulty(b, id, OverTemp) || Faulty(b, id, OverCurrent))
            && (CmosWord(f) == "ON" && DmosWord(f) == "ON" <==> IndexedReading(b, id).sysFault == Some(0))
  {
    hide Power, ShownBy;
  }

  /** The block's battery status is made of the voltage's word and the temperature's, and the alarm of newer firmware's
      table goes with its fault bit. */
  lemma WordsShown(b: Bms, id: nat)
    ensures var f := b.FaultOf(id);
            && BatWord(f) == (if Faulty(b, id, OverVoltage) then "VOV" else if Faulty(b, id, UnderVoltage) then "VUV" else "VNOR")
                           + " "
                           + (if Faulty(b, id, OverTemp) then "TOT" else if Faulty(b, id, UnderTemp) then "TUT" else "TNOR")
            && AlarmWord(f) == (if IndexedReading(b, id).sysFault == Some(1) then "Alarm" else "Normal")
  {
    hide Power, ShownBy;
  }

  // The cells

  /** A cell's voltage and temperature, with what the generator draws for it on top, and the pack's current and words. */
  lemma CellShown(b: Bms, id: nat, c: nat)
    requires b.cfg.cells >= 1
    ensures var r, s, k := CellReading(b, id, c), b.state, IndexedReading(b, id);
            && r.cellId == c && r.soc == s.soc && r.current == k.current && r.baseState == k.status
            && r.voltStatus == k.voltStatus && r.currStatus == k.currStatus && r.tempStatus == k.tempStatus
            && r.voltage * 1000.0
               == (b.draws.cellVolt(id, c) + if Faulty(b, id, OverVoltage) then 3870
                                             else if Faulty(b, id, UnderVoltage) then 2750 else s.voltLow) as real
            && r.temperature * 1000.0
               == (b.draws.cellTemp(id, c) + if Faulty(b, id, OverTemp) then 55000
                                             else if Faulty(b, id, UnderTemp) then -10000 else s.temperature) as real
  {
    hide Power, CellCapacity;
  }

  /** One part in five thousand of the capacity is lost with every cycle, in whole percents, down to nothing. */
  lemma HealthShown(cycles: nat)
    ensures cycles >= 5000 ==> SohPct(cycles) == 0
    ensures cycles <= 5000 ==> 0 <= cycles - 50 * (100 - SohPct(cycles)) < 50
  {
  }

  /** The cells have the pack's faded capacity between them, but for less than one unit each. */
  lemma CapacityShared(b: Bms, id: nat, c: nat)
    requires b.cfg.cells >= 1
    ensures var cap := CellReading(b, id, c).capacity; cap.Some? && 0 <= RealCapacity(b) - cap.value * b.cfg.cells < b.cfg.cells
    ensures 0 <= b.cfg.capMah * SohPct(b.state.cycles) - 100 * RealCapacity(b) < 100
  {
    hide SohPct, Power, ShownBy;
    var faded, n := RealCapacity(b), b.cfg.cells;
    DivisionIs(faded, n);
    DivisionIs(b.cfg.capMah * SohPct(b.state.cycles), 100);
  }

  lemma DivisionIs(x: nat, n: nat)
    requires n >= 1
    ensures 0 <= x - (x / n) * n < n
  {
    assert x == n * (x / n) + x % n;
  }

  // Answers without cells

  /** "bat N" says "not found" of an id past the last slot, and "Absent" of an empty slot. */
  lemma CellsRefused(b: Bms, id: int)
    requires b.cfg.cells >= 1
    ensures id < 1 || id > b.Count() ==> Contains(BatResponse(b, id), "not found")
    ensures 1 <= id <= b.Count() && !Present(b, id) ==> Contains(BatResponse(b, id), "Absent")
  {
    hide IntText, Contains, Present;
    var before := BatCommand(id) + "\n\r@\r" + "\r\n" + "Battery " + IntText(id);
    if id < 1 || id > b.Count() {
      assert BatResponse(b, id) == (before + " ") + "not found" + ("\r\n\r" + TAIL);
      Within(before + " ", "not found", "\r\n\r" + TAIL);
    } else if !Present(b, id) {
      assert BatResponse(b, id) == (before + "\r\r\n") + "Absent" + ("\r\n\r" + TAIL);
      Within(before + "\r\r\n", "Absent", "\r\n\r" + TAIL);
    }
  }

  lemma Within(a: string, s: string, c: string)
    ensures Contains(a + s + c, s)
  {
    assert (a + s + c)[|a|..|a| + |s|] == s;
    Found(a + s + c, s, |a|);
  }

  // How the tables line up

  /** Where field j starts on the line. */
  function Offset(fields: seq<Field>, j: nat): nat
    requires j <= |fields|
  {
    if j == 0 then 0 else Offset(fields, j - 1) + fields[j - 1].width
  }

  lemma {:induction false} SameOffsets(a: seq<Field>, b: seq<Field>, n: nat)
    requires n <= |a| && n <= |b| && forall i :: 0 <= i < n ==> a[i].width == b[i].width
    ensures Offset(a, n) == Offset(b, n)
  {
    if n > 0 {
      SameOffsets(a, b, n - 1);
    }
  }

  lemma AbsentWidthOld(id: nat, i: nat)
    requires i < |OLD_HEADER|
    ensures |AbsentOld(id)| == |OLD_HEADER|
    ensures i < |OLD_HEADER| - 1 ==> AbsentOld(id)[i].width == OLD_HEADER[i].width
  {
    hide IntText;
  }

  lemma AbsentWidthNew(id: nat, i: nat)
    requires i < |NEW_HEADER|
    ensures |AbsentNew(id)| == |NEW_HEADER|
    ensures i < |NEW_HEADER| - 1 ==> AbsentNew(id)[i].width == NEW_HEADER[i].width
  {
    hide IntText;
  }

  /** On an empty slot's row every value starts below its column's name. */
  lemma AbsentLinesUp(b: Bms, id: nat, j: nat)
    requires j < |Header(b.cfg.firmware)|
    ensures |SlotFields(b, id, false)| == |Header(b.cfg.firmware)|
    ensures Offset(SlotFields(b, id, false), j) == Offset(Header(b.cfg.firmware), j)
  {
    hide IntText, Offset, AbsentOld, AbsentNew, OLD_HEADER, NEW_HEADER;
    var row, header := SlotFields(b, id, false), Header(b.cfg.firmware);
    if b.cfg.firmware == OldFirmware { AbsentWidthOld(id, j); } else { AbsentWidthNew(id, j); }
    forall i: nat | i < |header| - 1
      ensures row[i].width == header[i].width
    {
      if b.cfg.firmware == OldFirmware { AbsentWidthOld(id, i); } else { AbsentWidthNew(id, i); }
    }
    SameOffsets(row, header, j);
  }

  /** And on a battery's row too, when the date and the clock are a "YYYY-MM-DD" and a "HH:MM:SS" long together: the time
      has one name and two values. */
  lemma {:induction false} PresentLinesUp(b: Bms, id: nat, j: nat)
    requires j < |Header(b.cfg.firmware)| && |b.draws.date| + |b.draws.clock| == 18
    ensures var row, header := SlotFields(b, id, true), Header(b.cfg.firmware);
            var time := if b.cfg.firmware == OldFirmware then 13 else 17;
            && |row| == |header| + 1
            && Offset(row, if j <= time then j else j + 1) == Offset(header, j)
  {
    hide IntText, Offset, StateWord, Padded, VoltWord, CurrWord, TempWord, AlarmWord, ShownBy;
    var row, header := SlotFields(b, id, true), Header(b.cfg.firmware);
    var time := if b.cfg.firmware == OldFirmware then 13 else 17;
    if j <= time {
      SameOffsets(row, header, j);
    } else {
      AfterTime(b, id);
      if j > time + 1 {
        PresentLinesUp(b, id, j - 1);
        WidthsAfter(b, id, j - 1);
        NextOffset(row, j);
        NextOffset(header, j - 1);
      }
    }
  }

  lemma NextOffset(fields: seq<Field>, j: nat)
    requires j < |fields|
    ensures Offset(fields, j + 1) == Offset(fields, j) + fields[j].width
  {
  }

  lemma AfterTime(b: Bms, id: nat)
    requires |b.draws.date| + |b.draws.clock| == 18
    ensures var row, header := SlotFields(b, id, true), Header(b.cfg.firmware);
            var time := if b.cfg.firmware == OldFirmware then 13 else 17;
            |row| == |header| + 1 && time + 2 < |row| && Offset(row, time + 2) == Offset(header, time + 1)
  {
    hide IntText, Offset, StateWord, Padded, VoltWord, CurrWord, TempWord, AlarmWord, ShownBy;
    var row, header := SlotFields(b, id, true), Header(b.cfg.firmware);
    var time := if b.cfg.firmware == OldFirmware then 13 else 17;
    SameOffsets(row, header, time);
    NextOffset(row, time);
    NextOffset(row, time + 1);
    NextOffset(header, time);
  }

  lemma WidthsAfter(b: Bms, id: nat, j: nat)
    requires j < |Header(b.cfg.firmware)| - 1 && (if b.cfg.firmware == OldFirmware then 13 else 17) < j
    ensures |SlotFields(b, id, true)| == |Header(b.cfg.firmware)| + 1
    ensures SlotFields(b, id, true)[j + 1].width == Header(b.cfg.firmware)[j].width
  {
    hide IntText, StateWord, Padded, VoltWord, CurrWord, TempWord, AlarmWord, ShownBy;
  }
}
