/** The poll loop on the emulator: a cycle whose answers are the emulator's publishes what the emulator was printing. */
module EmulatorCycle {
  import opened Search
  import opened Wrappers
  import opened Text
  import opened Table
  import opened Schemas
  import opened KeyValue
  import opened Measures
  import opened Stub
  import opened Rendering
  import opened Response
  import opened StubBlock
  import opened PwrReading
  import opened RoundTrip
  import Bat = BatRoundTrip
  import opened IndexedRoundTrip
  import opened Discovery
  import opened PollLoop
  import opened CycleReading

  lemma ResponseHasHeader(b: Bms)
    requires Printable(b) && AllFit(b)
    ensures HasHeader(PwrTable(), PwrResponse(b))
  {
    hide SplitLines, Split, MatchesHeader, Wrap, FirstHeader;
    var fw := b.cfg.firmware;
    PwrEcho();
    HeaderSplits(fw);
    HeaderMatches(fw);
    HeaderQuiet(fw);
    RowsOneLine(b, b.Count());
    EchoOneLine();
    TableLines("pwr", Render(Header(fw)), RowTexts(b, Format(b), b.Count()));
    ResponseHeader(PwrTable(), "pwr", Render(Header(fw)), RowTexts(b, Format(b), b.Count()));
  }

  lemma EchoOneLine()
    ensures OneLine("pwr")
  {
  }

  lemma {:induction false} SameSocSum(batteries: seq<Battery>, soc: int)
    requires forall i :: 0 <= i < |batteries| ==> batteries[i].soc == soc
    ensures Sum(batteries, SOC) == soc as real * |batteries| as real
  {
    if batteries != [] {
      SameSocSum(batteries[..|batteries| - 1], soc);
    }
  }

  lemma {:induction false} ReadingsOf(b: Bms, n: nat)
    ensures forall i :: 0 <= i < |Readings(b, n)| ==>
              var r := Readings(b, n)[i]; 1 <= r.sysId <= n && Present(b, r.sysId) && r == Reading(b, r.sysId)
  {
    if n > 0 {
      ReadingsOf(b, n - 1);
    }
  }

  lemma ReadingSocs(b: Bms, n: nat)
    ensures forall i :: 0 <= i < |Readings(b, n)| ==> Readings(b, n)[i].soc == b.state.soc
  {
    hide Present, ShownBy, Readings;
    ReadingsOf(b, n);
  }

  lemma LimitHolds(soc: int, limit: int, n: real)
    requires -limit < soc < limit && n > 0.0
    ensures -(limit as real * n) < soc as real * n < limit as real * n
  {
    AtLeastTimes(soc as real, limit as real, n);
    AtLeastTimes(-(limit as real), soc as real, n);
    assert -(limit as real * n) == (-(limit as real)) * n;
  }

  lemma NotBeyond(rows: seq<Battery>, soc: int)
    requires -FLOAT_LIMIT < soc < FLOAT_LIMIT && forall i :: 0 <= i < |rows| ==> rows[i].soc == soc
    ensures !SocsBeyond(rows)
  {
    hide FLOAT_LIMIT, Sum;
    if rows != [] {
      SameSocSum(rows, soc);
      LimitHolds(soc, FLOAT_LIMIT, |rows| as real);
    }
  }

  lemma SocPrinted(b: Bms, id: nat)
    requires AllFit(b) && 1 <= id <= b.Count() && Present(b, id)
    ensures -FLOAT_LIMIT < b.state.soc < FLOAT_LIMIT
  {
    hide Present, Fits, SlotFields, FLOAT_LIMIT, ShortNumbers, IntText;
    assert Fits(SlotFields(b, id, true));
    FitsShort(b, id);
    ShortSoc(b, id);
    ShortIsFloat(b.state.soc);
  }

  lemma SocsWithin(b: Bms)
    requires AllFit(b)
    ensures !SocsBeyond(Readings(b, b.Count()))
  {
    hide *;
    var rows := Readings(b, b.Count());
    ReadingsOf(b, b.Count());
    ReadingSocs(b, b.Count());
    if rows == [] {
      NoneBeyond();
    } else {
      SocPrinted(b, rows[0].sysId);
      NotBeyond(rows, b.state.soc);
    }
  }

  lemma NoneBeyond()
    ensures !SocsBeyond([])
  {
  }

  lemma ShortSoc(b: Bms, id: nat)
    requires ShortNumbers(b, id)
    ensures |IntText(b.state.soc)| <= 16
  {
    hide IntText;
    assert CellTexts(b, id)[12] == IntText(b.state.soc) + "%";
  }

  predicate AllCellsFit(b: Bms)
    requires b.cfg.cells >= 1
  {
    forall id :: 1 <= id <= b.Count() && Present(b, id) ==> Bat.CellsFit(b, id)
  }

  /** The console behind the sidecar is the emulator, and every command of the cycle comes through. */
  ghost predicate OnEmulator(c: Cycle, b: Bms)
    requires b.cfg.cells >= 1
  {
    && c.pwr == Ok(PwrResponse(b)) && c.stat.Ok? && c.time.Ok?
    && (forall id :: c.indexed(id) == Ok(IndexedResponse(b, id)))
    && (forall id :: c.bat(id) == Ok(BatResponse(b, id)))
  }

  /** Battery r is the one in slot id: the table's values, from the second level on the details of its block, and at the
      highest its cells. */
  predicate Mirrors(r: Battery, b: Bms, id: nat, level: MonitoringLevel)
    requires b.cfg.cells >= 1
  {
    && MeasuresOf(r, Reading(b, id))
    && DetailsOf(r, if level == Low then Reading(b, id) else IndexedReading(b, id))
    && r.cells == if level == High then Bat.CellReadings(b, id, b.cfg.cells) else []
  }

  lemma SlotBlock(b: Bms, id: nat, c: Cycle)
    requires c.indexed(id) == Ok(IndexedResponse(b, id)) && BlockFits(b, id)
    requires 1 <= id <= b.Count() && Present(b, id)
    ensures IndexedBattery(c.indexed(id).value, id).Ok? && BlockOf(c, id) == Some(IndexedReading(b, id))
  {
    hide IndexedBattery, IndexedResponse, IndexedReading, BlockFits, Present, Contains, NOT_FOUND;
    PresentBlock(b, id);
  }

  lemma SlotCells(b: Bms, id: nat, c: Cycle)
    requires b.cfg.cells >= 1 && c.bat(id) == Ok(BatResponse(b, id)) && Bat.CellsFit(b, id)
    requires 1 <= id <= b.Count() && Present(b, id)
    ensures CellsOf(c, id) == Some(Bat.CellReadings(b, id, b.cfg.cells))
  {
    hide BatResponse, TableRows, Bat.CellReadings, Bat.CellsFit, Present;
    Bat.BatRoundTrip(b, id);
  }

  lemma SlotAnswers(b: Bms, id: nat, c: Cycle)
    requires b.cfg.cells >= 1 && OnEmulator(c, b) && AllBlocksFit(b) && AllCellsFit(b)
    requires 1 <= id <= b.Count() && Present(b, id)
    ensures IndexedBattery(c.indexed(id).value, id).Ok?
    ensures BlockOf(c, id) == Some(IndexedReading(b, id))
    ensures CellsOf(c, id) == Some(Bat.CellReadings(b, id, b.cfg.cells))
  {
    hide IndexedBattery, IndexedResponse, IndexedReading, BatResponse, Bat.CellReadings, BlockFits, Bat.CellsFit, Present,
      BlockOf, CellsOf;
    assert c.indexed(id) == Ok(IndexedResponse(b, id)) && c.bat(id) == Ok(BatResponse(b, id));
    SlotBlock(b, id, c);
    SlotCells(b, id, c);
  }

  lemma SlotCompletes(r: Battery, b: Bms, id: nat, c: Cycle, cfg: Settings)
    requires b.cfg.cells >= 1 && OnEmulator(c, b) && AllBlocksFit(b) && AllCellsFit(b)
    requires 1 <= id <= b.Count() && Present(b, id)
    ensures Completes(r, Reading(b, id), c, cfg, true) <==> Mirrors(r, b, id, cfg.level)
    ensures IndexedBattery(c.indexed(id).value, id).Ok?
  {
    hide IndexedReading, Bat.CellReadings, MeasuresOf, DetailsOf, OnEmulator, AllBlocksFit, AllCellsFit, IndexedBattery,
      BlockOf, CellsOf, Present, ShownBy, Power;
    SlotAnswers(b, id, c);
  }

  lemma RowsStart(b: Bms, c: Cycle, cfg: Settings)
    requires b.cfg.cells >= 1 && OnEmulator(c, b) && Printable(b) && AllFit(b) && Readings(b, b.Count()) != []
    ensures StartsFrom(c, cfg, true, Readings(b, b.Count()))
    ensures forall tabled, bs :: StartsFrom(c, cfg, tabled, bs) ==> tabled && bs == Readings(b, b.Count())
  {
    hide TableRows, PwrResponse, Readings, SocsBeyond, ProbeFinds, HasHeader;
    PwrRoundTrip(b);
    ResponseHasHeader(b);
    SocsWithin(b);
    assert TableText(c, PwrResponse(b)) && FromRows(PwrResponse(b), Readings(b, b.Count()));
  }

  /** The batteries of the present slots, one each, in ascending id order. */
  ghost predicate MirrorsAll(batteries: seq<Battery>, b: Bms, level: MonitoringLevel)
    requires b.cfg.cells >= 1
  {
    var rows := Readings(b, b.Count());
    |batteries| == |rows| && forall i :: 0 <= i < |rows| ==> Mirrors(batteries[i], b, rows[i].sysId, level)
  }

  /** On the emulator, with a battery in some slot, a cycle comes through and reads exactly those batteries. */
  lemma EmulatedCycle(b: Bms, c: Cycle, cfg: Settings, batteries: seq<Battery>)
    requires b.cfg.cells >= 1 && OnEmulator(c, b) && Printable(b) && AllFit(b) && AllBlocksFit(b) && AllCellsFit(b)
    requires exists id :: 1 <= id <= b.Count() && Present(b, id)
    ensures Reads(c, cfg, batteries) <==> MirrorsAll(batteries, b, cfg.level)
  {
    hide StartsFrom, Completes, Mirrors, OnEmulator, IndexedBattery, Printable, AllFit, AllBlocksFit, AllCellsFit, Reading,
      Present;
    var id :| 1 <= id <= b.Count() && Present(b, id);
    var rows := Readings(b, b.Count());
    assert Reading(b, id) in rows;
    ReadingsOf(b, b.Count());
    RowsStart(b, c, cfg);
    AnswersCome(b, c);
    forall i | 0 <= i < |rows|
      ensures IndexedBattery(c.indexed(rows[i].sysId).value, rows[i].sysId).Ok?
      ensures |batteries| == |rows| ==>
                (Completes(batteries[i], rows[i], c, cfg, true) <==> Mirrors(batteries[i], b, rows[i].sysId, cfg.level))
    {
      if |batteries| == |rows| {
        SlotCompletes(batteries[i], b, rows[i].sysId, c, cfg);
      } else {
        SlotCompletes(rows[i], b, rows[i].sysId, c, cfg);
      }
    }
  }

  lemma AnswersCome(b: Bms, c: Cycle)
    requires b.cfg.cells >= 1 && OnEmulator(c, b)
    ensures c.stat.Ok? && c.time.Ok? && forall id :: c.indexed(id).Ok?
  {
  }

  /** Such a cycle does come through. */
  lemma EmulatedComes(b: Bms, c: Cycle, cfg: Settings)
    requires b.cfg.cells >= 1 && OnEmulator(c, b) && Printable(b) && AllFit(b) && AllBlocksFit(b) && AllCellsFit(b)
    requires exists id :: 1 <= id <= b.Count() && Present(b, id)
    ensures exists batteries :: Reads(c, cfg, batteries)
  {
    hide Reads, OnEmulator, Present, AllFit, AllBlocksFit, AllCellsFit, MeasuresOf, DetailsOf;
    var rows := Readings(b, b.Count());
    var batteries := seq(|rows|, i requires 0 <= i < |rows| => Mirror(b, rows[i].sysId, cfg.level));
    ReadingsOf(b, b.Count());
    forall i | 0 <= i < |rows|
      ensures Mirrors(batteries[i], b, rows[i].sysId, cfg.level)
    {
      MirrorIs(b, rows[i].sysId, cfg.level);
    }
    EmulatedCycle(b, c, cfg, batteries);
    assert Reads(c, cfg, batteries);
  }

  /** What slot id is published as. */
  function Mirror(b: Bms, id: nat, level: MonitoringLevel): Battery
    requires b.cfg.cells >= 1
  {
    var details := if level == Low then Reading(b, id) else IndexedReading(b, id);
    Reading(b, id).(coulStatus := details.coulStatus, batEvents := details.batEvents, powerEvents := details.powerEvents,
                    sysFault := details.sysFault, cells := if level == High then Bat.CellReadings(b, id, b.cfg.cells) else [])
  }

  lemma MirrorIs(b: Bms, id: nat, level: MonitoringLevel)
    requires b.cfg.cells >= 1
    ensures Mirrors(Mirror(b, id, level), b, id, level)
  {
    hide Reading, IndexedReading, Bat.CellReadings;
  }
}
