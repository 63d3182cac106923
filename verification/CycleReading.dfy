/** What a cycle of the poll loop reads, told by what the console answered in it: the table, the probing it falls back on,
    the details and the cells. */
module CycleReading {
  import opened Search
  import opened Wrappers
  import opened Text
  import opened Table
  import opened Schemas
  import opened KeyValue
  import opened Rounding
  import opened Measures
  import opened Discovery
  import opened PollLoop

  // Probing

  /** The answer for slot id is a block, of a battery or of an empty slot. */
  predicate Answered(ask: Answers, id: nat) {
    ask(id).Ok? && !Contains(ask(id).value, "not found") && IndexedBattery(ask(id).value, id).Ok?
  }

  /** The answer for slot id says that there is no such slot. */
  predicate NotThere(ask: Answers, id: nat) {
    ask(id).Ok? && Contains(ask(id).value, "not found")
  }

  predicate AllAnswered(ask: Answers, n: nat) {
    forall id: nat :: 1 <= id <= n ==> Answered(ask, id)
  }

  /** The battery in slot id, if there is one. */
  function InSlot(ask: Answers, id: nat): seq<Battery>
    requires Answered(ask, id)
  {
    match IndexedBattery(ask(id).value, id).value
    case Some(battery) => [battery]
    case None => []
  }

  /** The batteries of the slots up to n, in order. */
  function InSlots(ask: Answers, n: nat): seq<Battery>
    requires AllAnswered(ask, n)
  {
    if n == 0 then []
    else
      assert Answered(ask, n);
      InSlots(ask, n - 1) + InSlot(ask, n)
  }

  /** Every slot up to last has a block, and last is the limit or the next slot is not there. */
  predicate StopsAfter(ask: Answers, max: nat, last: nat) {
    last <= max && AllAnswered(ask, last) && (last == max || NotThere(ask, last + 1))
  }

  ghost predicate ProbeFinds(ask: Answers, max: nat, batteries: seq<Battery>) {
    exists last: nat :: StopsAfter(ask, max, last) && batteries == InSlots(ask, last)
  }

  lemma ProbeOn(ask: Answers, max: nat, id: nat)
    requires 1 <= id <= max && Answered(ask, id)
    ensures var rest := Probe(ask, id + 1, max);
            Probe(ask, id, max) == match rest case Ok(more) => Ok(InSlot(ask, id) + more) case Err(e) => Err(e)
  {
    hide IndexedBattery, Contains;
  }

  lemma Grouped(a: seq<Battery>, b: seq<Battery>, c: seq<Battery>)
    ensures a + (b + c) == a + b + c
  {
  }

  lemma {:induction false} ProbeFrom(ask: Answers, max: nat, last: nat, id: nat)
    requires StopsAfter(ask, max, last) && 1 <= id <= last + 1
    ensures Probe(ask, 1, max).Ok? <==> Probe(ask, id, max).Ok?
    ensures Probe(ask, id, max).Ok? ==> Probe(ask, 1, max).value == InSlots(ask, id - 1) + Probe(ask, id, max).value
  {
    hide IndexedBattery, Contains, Probe, InSlot, Answered, NotThere;
    if id == 1 {
      assert Probe(ask, 1, max).Ok? ==> [] + Probe(ask, 1, max).value == Probe(ask, 1, max).value;
    } else {
      ProbeFrom(ask, max, last, id - 1);
      ProbeOn(ask, max, id - 1);
      if Probe(ask, id, max).Ok? {
        Grouped(InSlots(ask, id - 2), InSlot(ask, id - 1), Probe(ask, id, max).value);
      }
    }
  }

  lemma ProbeAtEnd(ask: Answers, max: nat, last: nat)
    requires StopsAfter(ask, max, last)
    ensures Probe(ask, last + 1, max) == Ok([])
  {
    hide IndexedBattery, Contains;
  }

  lemma {:induction false} ProbeStops(ask: Answers, max: nat, last: nat)
    requires StopsAfter(ask, max, last)
    ensures Probe(ask, 1, max) == Ok(InSlots(ask, last))
  {
    hide IndexedBattery, Contains, Probe, InSlot, Answered, NotThere;
    ProbeFrom(ask, max, last, last + 1);
    ProbeAtEnd(ask, max, last);
    assert InSlots(ask, last) + [] == InSlots(ask, last);
  }

  /** Slot id is the first whose answer fails the probing: the command failed, or the block could not be parsed. */
  predicate FailsAt(ask: Answers, max: nat, id: nat) {
    && 1 <= id <= max && AllAnswered(ask, id - 1)
    && (ask(id).Err? || (!Contains(ask(id).value, "not found") && IndexedBattery(ask(id).value, id).Err?))
  }

  lemma {:induction false} ProbeEnds(ask: Answers, max: nat, id: nat) returns (last: nat)
    requires 1 <= id <= max + 1 && AllAnswered(ask, id - 1)
    ensures if Probe(ask, id, max).Ok? then StopsAfter(ask, max, last) else FailsAt(ask, max, last)
    decreases max + 1 - id
  {
    hide IndexedBattery, Contains;
    if id > max {
      last := max;
    } else if ask(id).Err? {
      last := id;
    } else if Contains(ask(id).value, "not found") {
      last := id - 1;
    } else if IndexedBattery(ask(id).value, id).Err? {
      last := id;
    } else {
      assert Answered(ask, id);
      last := ProbeEnds(ask, max, id + 1);
    }
  }

  /** What probing finds, and exactly when it fails: a lost connection in the middle of it is not the end of the stack. */
  lemma ProbeIff(ask: Answers, max: nat, batteries: seq<Battery>)
    ensures Probe(ask, 1, max) == Ok(batteries) <==> ProbeFinds(ask, max, batteries)
    ensures Probe(ask, 1, max).Err? <==> exists id: nat :: FailsAt(ask, max, id)
  {
    hide Probe, FailsAt, InSlots, Answered, NotThere;
    var last := ProbeEnds(ask, max, 1);
    forall n: nat | StopsAfter(ask, max, n)
      ensures Probe(ask, 1, max) == Ok(InSlots(ask, n)) && forall id: nat :: !FailsAt(ask, max, id)
    {
      ProbeStops(ask, max, n);
      forall id: nat ensures !FailsAt(ask, max, id) { NeverBoth(ask, max, n, id); }
    }
  }

  lemma NeverBoth(ask: Answers, max: nat, last: nat, id: nat)
    requires StopsAfter(ask, max, last)
    ensures !FailsAt(ask, max, id)
  {
    hide IndexedBattery, Contains;
    if 1 <= id <= last {
      assert Answered(ask, id);
    } else if last < max {
      assert !Answered(ask, last + 1);
    }
  }

  // The batteries a cycle starts from

  /** The text the batteries are looked for in: the second answer, when the first has no header. */
  predicate TableText(c: Cycle, raw: string) {
    c.pwr.Ok? && if HasHeader(PwrTable(), c.pwr.value) then raw == c.pwr.value else c.pwrAgain == Ok(raw)
  }

  /** The mean state of charge is a number no float is near. */
  predicate SocsBeyond(batteries: seq<Battery>) {
    && batteries != []
    && (Sum(batteries, SOC) >= FLOAT_LIMIT as real * |batteries| as real
        || Sum(batteries, SOC) <= -(FLOAT_LIMIT as real * |batteries| as real))
  }

  lemma LimitTimes(mean: real, sum: real, n: real, limit: real)
    requires n > 0.0 && mean * n == sum
    ensures mean >= limit <==> sum >= limit * n
    ensures mean <= -limit <==> sum <= -(limit * n)
  {
    AtLeastTimes(mean, limit, n);
    AtLeastTimes(-limit, mean, n);
    assert -(limit * n) == (-limit) * n;
  }

  lemma AtLeastTimes(x: real, y: real, n: real)
    requires n > 0.0
    ensures x >= y <==> x * n >= y * n
  {
    if x >= y { Times(y, x, n); } else if x * n >= y * n { Scaled(y, x, n); }
  }

  lemma OverflowIff(batteries: seq<Battery>)
    ensures AggregateOverflows(batteries) <==> SocsBeyond(batteries)
  {
    hide Sum, Mean, FLOAT_LIMIT;
    if batteries != [] {
      MeasuresAre(batteries);
      MeanTimes(Sum(batteries, SOC), |batteries|);
      LimitTimes(Mean(Sum(batteries, SOC), |batteries|), Sum(batteries, SOC), |batteries| as real, FLOAT_LIMIT as real);
    }
  }

  /** The rows of the table, when the text has its header and at least one row. */
  predicate FromRows(raw: string, batteries: seq<Battery>) {
    HasHeader(PwrTable(), raw) && TableRows(PwrTable(), raw) == Ok(batteries)
  }

  /** The table gave no battery: it has no header, or no row that can be read. */
  predicate Rowless(raw: string) {
    HasHeader(PwrTable(), raw) ==> TableRows(PwrTable(), raw) == Ok([])
  }

  /** The batteries the cycle starts from: the table's own, or else those of the probing. */
  ghost predicate StartsFrom(c: Cycle, cfg: Settings, tabled: bool, batteries: seq<Battery>) {
    exists raw :: TableText(c, raw) && batteries != [] && !SocsBeyond(batteries)
      && if tabled then FromRows(raw, batteries)
         else Rowless(raw) && ProbeFinds(c.indexed, cfg.maxBatteries, batteries)
  }

  // Their details and cells

  /** What the battery's block says, if it has been answered with one. */
  function BlockOf(c: Cycle, id: int): Option<Battery> {
    if c.indexed(id).Ok? && IndexedBattery(c.indexed(id).value, id).Ok? then IndexedBattery(c.indexed(id).value, id).value
    else None
  }

  /** What its table of cells says, if it has been answered with one. */
  function CellsOf(c: Cycle, id: int): Option<seq<Cell>> {
    if c.bat(id).Ok? && TableRows(BatTable(), c.bat(id).value).Ok? then Some(TableRows(BatTable(), c.bat(id).value).value)
    else None
  }

  /** The four fields that only the block has. */
  predicate DetailsOf(r: Battery, b: Battery) {
    r.coulStatus == b.coulStatus && r.batEvents == b.batEvents && r.powerEvents == b.powerEvents && r.sysFault == b.sysFault
  }

  /** Everything else but the cells. */
  predicate MeasuresOf(r: Battery, b: Battery) {
    && r.sysId == b.sysId && r.voltage == b.voltage && r.current == b.current && r.temperature == b.temperature
    && r.soc == b.soc && r.status == b.status && r.power == b.power && r.energyStored == b.energyStored
    && r.tempLow == b.tempLow && r.tempHigh == b.tempHigh && r.voltLow == b.voltLow && r.voltHigh == b.voltHigh
    && r.voltStatus == b.voltStatus && r.currStatus == b.currStatus && r.tempStatus == b.tempStatus
    && r.battVoltStatus == b.battVoltStatus && r.battTempStatus == b.battTempStatus
  }

  /** Battery r is b as it was read, with the details of its block where they were asked for and answered, and at the
      highest level with its cells. */
  predicate Completes(r: Battery, b: Battery, c: Cycle, cfg: Settings, tabled: bool) {
    && MeasuresOf(r, b)
    && DetailsOf(r, if tabled && cfg.level != Low && BlockOf(c, b.sysId).Some? then BlockOf(c, b.sysId).value else b)
    && r.cells == if cfg.level == High && CellsOf(c, b.sysId).Some? then CellsOf(c, b.sysId).value else b.cells
  }

  predicate AllComplete(rs: seq<Battery>, bs: seq<Battery>, c: Cycle, cfg: Settings, tabled: bool) {
    |rs| == |bs| && forall i :: 0 <= i < |rs| ==> Completes(rs[i], bs[i], c, cfg, tabled)
  }

  /** The block of no battery raises while it is parsed. */
  predicate NoneRaises(bs: seq<Battery>, c: Cycle) {
    forall i :: 0 <= i < |bs| && c.indexed(bs[i].sysId).Ok? ==>
      IndexedBattery(c.indexed(bs[i].sysId).value, bs[i].sysId).Ok?
  }

  /** The batteries of a cycle, one for each it starts from. */
  ghost predicate Reads(c: Cycle, cfg: Settings, batteries: seq<Battery>) {
    && c.stat.Ok? && c.time.Ok?
    && exists tabled, bs ::
         StartsFrom(c, cfg, tabled, bs) && (tabled && cfg.level != Low ==> NoneRaises(bs, c))
         && AllComplete(batteries, bs, c, cfg, tabled)
  }

  // The loop reads just that

  lemma FieldsTell(r: Battery, b: Battery)
    requires MeasuresOf(r, b) && DetailsOf(r, b) && r.cells == b.cells
    ensures r == b
  {
  }

  lemma EnrichedDetails(b: Battery, c: Cycle)
    ensures Enriched(b, c.indexed).Ok? <==>
              (c.indexed(b.sysId).Ok? ==> IndexedBattery(c.indexed(b.sysId).value, b.sysId).Ok?)
    ensures Enriched(b, c.indexed).Ok? ==>
              var r := Enriched(b, c.indexed).value;
              && MeasuresOf(r, b) && r.cells == b.cells
              && DetailsOf(r, if BlockOf(c, b.sysId).Some? then BlockOf(c, b.sysId).value else b)
  {
    hide IndexedBattery;
  }

  lemma {:induction false} EnrichedAllDetails(bs: seq<Battery>, c: Cycle)
    ensures EnrichedAll(bs, c.indexed).Ok? <==> NoneRaises(bs, c)
    ensures EnrichedAll(bs, c.indexed).Ok? ==>
              var rs := EnrichedAll(bs, c.indexed).value;
              |rs| == |bs| && forall i :: 0 <= i < |rs| ==> Enriched(bs[i], c.indexed) == Ok(rs[i])
  {
    hide IndexedBattery, Enriched;
    if bs != [] {
      var n := |bs| - 1;
      EnrichedAllDetails(bs[..n], c);
      EnrichedDetails(bs[n], c);
    }
  }

  lemma WithCellsIs(b: Battery, c: Cycle)
    ensures var r := WithCells(b, c.bat);
            && MeasuresOf(r, b) && DetailsOf(r, b)
            && r.cells == if CellsOf(c, b.sysId).Some? then CellsOf(c, b.sysId).value else b.cells
  {
    hide TableRows;
  }

  lemma TableTextIs(c: Cycle, raw: string)
    ensures TableText(c, raw) <==> PwrReply(c) == Ok(raw)
  {
    hide HasHeader;
  }

  lemma FromTableIs(raw: string, rows: seq<Battery>)
    ensures rows != [] ==> (FromTable(raw) == Ok(rows) <==> FromRows(raw, rows) && !SocsBeyond(rows))
    ensures FromTable(raw) == Ok([]) <==> Rowless(raw)
  {
    hide TableRows, HasHeader;
    OverflowIff(rows);
  }

  lemma StartsIff(c: Cycle, cfg: Settings, tabled: bool, batteries: seq<Battery>)
    ensures StartsFrom(c, cfg, tabled, batteries) <==>
              PwrReply(c).Ok? && batteries != []
              && if tabled then FromTable(PwrReply(c).value) == Ok(batteries)
                 else FromTable(PwrReply(c).value) == Ok([]) && Probe(c.indexed, 1, cfg.maxBatteries) == Ok(batteries)
                      && !AggregateOverflows(batteries)
  {
    hide TableText, PwrReply, FromRows, Rowless, FromTable, Probe, ProbeFinds, AggregateOverflows, SocsBeyond;
    forall raw ensures TableText(c, raw) <==> PwrReply(c) == Ok(raw) { TableTextIs(c, raw); }
    if PwrReply(c).Ok? {
      FromTableIs(PwrReply(c).value, batteries);
    }
    OverflowIff(batteries);
    ProbeIff(c.indexed, cfg.maxBatteries, batteries);
  }

  lemma AcquiredStart(c: Cycle, cfg: Settings, tabled: bool, base: seq<Battery>)
    requires StartsFrom(c, cfg, tabled, base)
    ensures Acquired(c, cfg) == if tabled && cfg.level != Low then EnrichedAll(base, c.indexed) else Ok(base)
  {
    hide PwrReply, FromTable, Probe, AggregateOverflows, EnrichedAll, StartsFrom;
    StartsIff(c, cfg, tabled, base);
  }

  lemma StartOf(c: Cycle, cfg: Settings) returns (tabled: bool, base: seq<Battery>)
    requires Acquired(c, cfg).Ok?
    ensures StartsFrom(c, cfg, tabled, base)
  {
    hide PwrReply, FromTable, Probe, AggregateOverflows, EnrichedAll, StartsFrom;
    var rows := FromTable(PwrReply(c).value).value;
    tabled := rows != [];
    base := if tabled then rows else Probe(c.indexed, 1, cfg.maxBatteries).value;
    StartsIff(c, cfg, tabled, base);
  }

  lemma CompletedIs(base: seq<Battery>, batteries: seq<Battery>, c: Cycle, cfg: Settings, tabled: bool)
    requires Acquired(c, cfg) == if tabled && cfg.level != Low then EnrichedAll(base, c.indexed) else Ok(base)
    ensures Fetched(c, cfg) == Ok(batteries) <==>
              c.stat.Ok? && c.time.Ok? && (tabled && cfg.level != Low ==> NoneRaises(base, c))
              && AllComplete(batteries, base, c, cfg, tabled)
  {
    hide Acquired, EnrichedAll, Enriched, WithCells, NoneRaises, MeasuresOf, DetailsOf, BlockOf, CellsOf;
    EnrichedAllDetails(base, c);
    if Fetched(c, cfg).Ok? {
      var fetched := Fetched(c, cfg).value;
      forall i | 0 <= i < |base| ensures Completes(fetched[i], base[i], c, cfg, tabled) {
        CompletedAt(fetched[i], base[i], c, cfg, tabled);
      }
      if AllComplete(batteries, base, c, cfg, tabled) {
        forall i | 0 <= i < |base| ensures fetched[i] == batteries[i] {
          CompletesOnce(fetched[i], batteries[i], base[i], c, cfg, tabled);
        }
        assert fetched == batteries;
      }
    }
  }

  lemma CompletesOnce(r: Battery, s: Battery, b: Battery, c: Cycle, cfg: Settings, tabled: bool)
    requires Completes(r, b, c, cfg, tabled) && Completes(s, b, c, cfg, tabled)
    ensures r == s
  {
    hide BlockOf, CellsOf;
    FieldsTell(r, s);
  }

  lemma CompletedAt(r: Battery, b: Battery, c: Cycle, cfg: Settings, tabled: bool)
    requires var details := if tabled && cfg.level != Low then Enriched(b, c.indexed) else Ok(b);
             details.Ok? && r == if cfg.level == High then WithCells(details.value, c.bat) else details.value
    ensures Completes(r, b, c, cfg, tabled)
  {
    hide Enriched, WithCells, BlockOf, CellsOf;
    EnrichedDetails(b, c);
    var middle := if tabled && cfg.level != Low then Enriched(b, c.indexed).value else b;
    WithCellsIs(middle, c);
  }

  /** A cycle fetches these batteries exactly when it reads them. */
  lemma FetchedIff(c: Cycle, cfg: Settings, batteries: seq<Battery>)
    ensures Fetched(c, cfg) == Ok(batteries) <==> Reads(c, cfg, batteries)
  {
    hide StartsFrom, NoneRaises, AllComplete, Acquired, WithCellsAll;
    forall tabled, base | StartsFrom(c, cfg, tabled, base)
      ensures Fetched(c, cfg) == Ok(batteries) <==>
                c.stat.Ok? && c.time.Ok? && (tabled && cfg.level != Low ==> NoneRaises(base, c))
                && AllComplete(batteries, base, c, cfg, tabled)
    {
      AcquiredStart(c, cfg, tabled, base);
      CompletedIs(base, batteries, c, cfg, tabled);
    }
    if Fetched(c, cfg) == Ok(batteries) {
      var tabled, base := StartOf(c, cfg);
      assert StartsFrom(c, cfg, tabled, base);
    }
  }
}
