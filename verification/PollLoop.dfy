/** The sidecar's poll loop: what one cycle fetches, publishes and leaves behind. */
module PollLoop {
  import opened Wrappers
  import opened Table
  import opened Schemas
  import opened SchemaLaws
  import opened KeyValue
  import opened Discovery
  import opened Rounding
  import Energy
  import EnergyLaws

  type Reply = Result<string, Raised>

  datatype MonitoringLevel = Low | Medium | High

  /** specOf is the "info" parser's way with the specification: from the response and the value so far. */
  datatype Settings = Settings(
    level: MonitoringLevel, maxBatteries: nat, syncTime: bool, hasFile: bool, specOf: (string, Option<string>) -> Option<string>)

  /** Everything the world answers in one cycle; what is not asked for does not matter. */
  datatype Cycle = Cycle(
    info: Reply, sync: Reply, pwr: Reply, pwrAgain: Reply, indexed: Answers, stat: Reply, time: Reply, bat: Answers,
    now: real, save: Energy.SaveRun)

  // Batteries of a cycle

  /** _enrich_batteries_indexed, for one battery. */
  function Enriched(battery: Battery, ask: Answers): Result<Battery, Raised> {
    match ask(battery.sysId)
    case Err(_) => Ok(battery)
    case Ok(raw) =>
      match IndexedBattery(raw, battery.sysId)
      case Err(_) => Err(Unexpected)
      case Ok(None) => Ok(battery)
      case Ok(Some(more)) =>
        Ok(battery.(coulStatus := more.coulStatus, batEvents := more.batEvents, powerEvents := more.powerEvents,
                    sysFault := more.sysFault))
  }

  function EnrichedAll(batteries: seq<Battery>, ask: Answers): Result<seq<Battery>, Raised> {
    if batteries == [] then Ok([])
    else
      var n := |batteries| - 1;
      match EnrichedAll(batteries[..n], ask)
      case Err(e) => Err(e)
      case Ok(before) =>
        match Enriched(batteries[n], ask)
        case Err(e) => Err(e)
        case Ok(last) => Ok(before + [last])
  }

  /** The cells of one battery; an error there leaves it without. */
  function WithCells(battery: Battery, ask: Answers): Battery {
    match ask(battery.sysId)
    case Err(_) => battery
    case Ok(raw) =>
      match TableRows(BatTable(), raw)
      case Err(_) => battery
      case Ok(cells) => battery.(cells := cells)
  }

  function WithCellsAll(batteries: seq<Battery>, ask: Answers): (r: seq<Battery>)
    ensures |r| == |batteries| && forall i :: 0 <= i < |r| ==> r[i] == WithCells(batteries[i], ask)
  {
    if batteries == [] then []
    else var n := |batteries| - 1; WithCellsAll(batteries[..n], ask) + [WithCells(batteries[n], ask)]
  }

  /** The pwr response of the cycle: asked for once more when it has no header. */
  function PwrReply(c: Cycle): Reply {
    match c.pwr
    case Err(e) => Err(e)
    case Ok(raw) => if HasHeader(PwrTable(), raw) then Ok(raw) else c.pwrAgain
  }

  /** The batteries of a list once their totals have been taken. */
  function Totalled(batteries: seq<Battery>): Result<seq<Battery>, Raised> {
    if AggregateOverflows(batteries) then Err(Unexpected) else Ok(batteries)
  }

  function FromTable(raw: string): Result<seq<Battery>, Raised> {
    if !HasHeader(PwrTable(), raw) then Ok([])
    else
      match TableRows(PwrTable(), raw)
      case Ok(rows) => Totalled(rows)
      case Err(_) => Err(Unexpected)
  }

  /** The batteries found in a cycle: those of the table, or else those of the slots; none at all is an error. */
  function Acquired(c: Cycle, cfg: Settings): Result<seq<Battery>, Raised> {
    match PwrReply(c)
    case Err(e) => Err(e)
    case Ok(raw) =>
      match FromTable(raw)
      case Err(e) => Err(e)
      case Ok(rows) =>
        if rows != [] then (if cfg.level == Low then Ok(rows) else EnrichedAll(rows, c.indexed))
        else
          match Probe(c.indexed, 1, cfg.maxBatteries)
          case Err(e) => Err(e)
          case Ok(probed) => if probed == [] then Err(Broken) else Totalled(probed)
  }

  /** The batteries a cycle publishes, or how it fails: nothing of the cycles before has a part in it. */
  function Fetched(c: Cycle, cfg: Settings): Result<seq<Battery>, Raised> {
    match (Acquired(c, cfg), c.stat, c.time)
    case (Err(e), _, _) => Err(e)
    case (_, Err(e), _) => Err(e)
    case (_, _, Err(e)) => Err(e)
    case (Ok(batteries), Ok(_), Ok(_)) => Ok(if cfg.level == High then WithCellsAll(batteries, c.bat) else batteries)
  }

  // The loop's state

  datatype System = System(totals: Totals, energyIn: real, energyOut: real, spec: Option<string>, batteries: seq<Battery>)

  const NEW_SYSTEM := System(Totals(0.0, 0.0, 0.0, 0.0), 0.0, 0.0, None, [])

  datatype Publication = State(system: System) | Online | Offline

  datatype Loop = Loop(system: Option<System>, infoFetched: bool, energy: Energy.State, published: seq<Publication>)

  /** Whether the device info, when it is still to be fetched, comes through. */
  predicate InfoThrough(infoFetched: bool, c: Cycle, cfg: Settings) {
    infoFetched || (c.info.Ok? && (cfg.syncTime ==> c.sync.Ok?))
  }

  predicate Succeeds(l: Loop, c: Cycle, cfg: Settings) {
    InfoThrough(l.infoFetched, c, cfg) && Fetched(c, cfg).Ok?
  }

  function SpecOf(system: Option<System>): Option<string> {
    if system.Some? then system.value.spec else None
  }

  function SpecAfter(l: Loop, c: Cycle, cfg: Settings): Option<string> {
    if l.infoFetched || c.info.Err? then SpecOf(l.system) else cfg.specOf(c.info.value, SpecOf(l.system))
  }

  /** What a successful cycle publishes. */
  function Snapshot(l: Loop, c: Cycle, cfg: Settings): System
    requires Succeeds(l, c, cfg)
  {
    var batteries := Fetched(c, cfg).value;
    var totals := AggregatePwr(batteries);
    var energy := l.energy.AfterUpdate(cfg.hasFile, c.now, totals.power, c.save);
    System(totals, Round(energy.meter.flow.charged, 3), Round(energy.meter.flow.discharged, 3), SpecAfter(l, c, cfg), batteries)
  }

  /** The loop after a cycle. After a failure its system holds whatever had been read, of which only the specification
      is ever used again. */
  ghost predicate Turned(l: Loop, c: Cycle, cfg: Settings, m: Loop) {
    SpecOf(m.system) == SpecAfter(l, c, cfg)
    && if Succeeds(l, c, cfg) then
      var s := Snapshot(l, c, cfg);
      && m.system == Some(s) && m.infoFetched
      && m.energy == l.energy.AfterUpdate(cfg.hasFile, c.now, s.totals.power, c.save)
      && m.published == l.published + [State(s), Online]
    else
      && !m.infoFetched && m.energy == l.energy.AfterGap()
      && m.published == l.published + [Offline]
  }

  // Enrichment and cells leave what the totals are computed from alone

  predicate SameReadings(a: seq<Battery>, b: seq<Battery>) {
    |a| == |b| && forall i :: 0 <= i < |a| ==>
      a[i].sysId == b[i].sysId && a[i].voltage == b[i].voltage && a[i].current == b[i].current && a[i].soc == b[i].soc
      && a[i].power == b[i].power
  }

  lemma {:induction false} EnrichmentKeeps(batteries: seq<Battery>, ask: Answers)
    requires EnrichedAll(batteries, ask).Ok?
    ensures SameReadings(EnrichedAll(batteries, ask).value, batteries)
  {
    if batteries != [] {
      EnrichmentKeeps(batteries[..|batteries| - 1], ask);
    }
  }

  lemma {:induction false} CellsKeep(batteries: seq<Battery>, ask: Answers)
    ensures SameReadings(WithCellsAll(batteries, ask), batteries)
  {
  }

  lemma {:induction false} SameSums(a: seq<Battery>, b: seq<Battery>, measure: Battery -> real)
    requires |a| == |b| && forall i :: 0 <= i < |a| ==> measure(a[i]) == measure(b[i])
    ensures Sum(a, measure) == Sum(b, measure)
  {
    if a != [] {
      SameSums(a[..|a| - 1], b[..|b| - 1], measure);
    }
  }

  lemma SameAggregates(a: seq<Battery>, b: seq<Battery>)
    requires SameReadings(a, b)
    ensures AggregatePwr(a) == AggregatePwr(b)
  {
    SameSums(a, b, (x: Battery) => x.voltage);
    SameSums(a, b, (x: Battery) => x.current);
    SameSums(a, b, (x: Battery) => x.soc as real);
    SameSums(a, b, (x: Battery) => x.power);
  }

  // The loop itself

  /** The loop of _enrich_batteries_indexed. */
  method EnrichBatteries(batteries: seq<Battery>, ask: Answers) returns (r: Result<seq<Battery>, Raised>)
    ensures r == EnrichedAll(batteries, ask)
  {
    var enriched: seq<Battery> := [];
    for i := 0 to |batteries|
      invariant EnrichedAll(batteries[..i], ask) == Ok(enriched)
    {
      assert batteries[..i + 1][..i] == batteries[..i];
      var answer := ask(batteries[i].sysId);
      if answer.Err? {
        enriched := enriched + [batteries[i]];
        continue;
      }
      var indexed := ParseKeyValue(answer.value, PwrIndexed(), map[BlockSysId := Whole(batteries[i].sysId)]);
      if indexed.Err? {
        EnrichmentFails(batteries, ask, i + 1, |batteries|);
        assert batteries[..|batteries|] == batteries;
        return Err(Unexpected);
      }
      if indexed.value.None? {
        enriched := enriched + [batteries[i]];
        continue;
      }
      var more := indexed.value.value;
      enriched := enriched + [batteries[i].(coulStatus := more.coulStatus, batEvents := more.batEvents,
                                            powerEvents := more.powerEvents, sysFault := more.sysFault)];
    }
    assert batteries[..|batteries|] == batteries;
    r := Ok(enriched);
  }

  lemma {:induction false} EnrichmentFails(batteries: seq<Battery>, ask: Answers, n: nat, m: nat)
    requires n <= m <= |batteries| && EnrichedAll(batteries[..n], ask) == Err(Unexpected)
    ensures EnrichedAll(batteries[..m], ask) == Err(Unexpected)
  {
    if n < m {
      EnrichmentFails(batteries, ask, n, m - 1);
      assert batteries[..m][..m - 1] == batteries[..m - 1];
    }
  }

  /** The per-cell loop of the highest monitoring level. */
  method FetchCells(batteries: seq<Battery>, ask: Answers) returns (r: seq<Battery>)
    ensures r == WithCellsAll(batteries, ask)
  {
    r := [];
    for i := 0 to |batteries|
      invariant r == WithCellsAll(batteries[..i], ask)
    {
      assert batteries[..i + 1][..i] == batteries[..i];
      var battery, answer := batteries[i], ask(batteries[i].sysId);
      if answer.Ok? {
        BatSound();
        var cells := ParseTable(answer.value, BatTable());
        if cells.Ok? {
          battery := battery.(cells := cells.value);
        }
      }
      r := r + [battery];
    }
    assert batteries[..|batteries|] == batteries;
  }

  class Sidecar {
    var system: Option<System>
    var infoFetched: bool
    const energy: Energy.EnergyTracker
    const cfg: Settings
    /** Everything handed to the broker. */
    var published: seq<Publication>

    ghost predicate Valid()
      reads this, energy
    {
      energy.Valid() && energy.hasFile == cfg.hasFile
    }

    ghost function View(): Loop
      reads this, energy
    {
      Loop(system, infoFetched, energy.View(), published)
    }

    constructor (energy: Energy.EnergyTracker, cfg: Settings)
      requires energy.Valid() && energy.hasFile == cfg.hasFile
      ensures Valid() && this.energy == energy && this.cfg == cfg
      ensures View() == Loop(None, false, energy.View(), [])
    {
      system, infoFetched, published := None, false, [];
      this.energy, this.cfg := energy, cfg;
    }

    /** The device info, once per connection. */
    method FetchInfo(c: Cycle) returns (raised: Option<Raised>)
      modifies `system, `infoFetched
      ensures raised.None? <==> InfoThrough(old(infoFetched), c, cfg)
      ensures raised.None? ==> infoFetched
      ensures var l := Loop(old(system), old(infoFetched), energy.View(), []); SpecOf(system) == SpecAfter(l, c, cfg)
    {
      if infoFetched {
        return None;
      }
      if c.info.Err? {
        return Some(c.info.error);
      }
      var s := system.GetOr(NEW_SYSTEM);
      system := Some(s.(spec := cfg.specOf(c.info.value, s.spec)));
      infoFetched := true;
      if cfg.syncTime && c.sync.Err? {
        return Some(c.sync.error);
      }
      raised := None;
    }

    /** From the pwr command to a battery list in the system, or an error. */
    method FetchBatteries(c: Cycle) returns (raised: Option<Raised>)
      modifies `system
      ensures raised.None? <==> Acquired(c, cfg).Ok?
      ensures SpecOf(system) == SpecOf(old(system))
      ensures raised.None? ==>
                system.Some? && system.value.batteries == Acquired(c, cfg).value
                && system.value.totals == AggregatePwr(Acquired(c, cfg).value)
    {
      var reply := c.pwr;
      if reply.Ok? && !HasHeader(PwrTable(), reply.value) {
        reply := c.pwrAgain;
      }
      if reply.Err? {
        return Some(reply.error);
      }
      var s := system.GetOr(NEW_SYSTEM);
      var parsed := HasHeader(PwrTable(), reply.value);
      if parsed {
        PwrSound();
        var rows := ParseTable(reply.value, PwrTable());
        if rows.Err? || AggregateOverflows(rows.value) {
          return Some(Unexpected);
        }
        s := s.(batteries := rows.value, totals := AggregatePwr(rows.value));
      }
      system := Some(s);
      if s.batteries == [] || !parsed {
        var probed := FetchBatteriesIndexed(c.indexed, cfg.maxBatteries);
        if probed.Err? {
          return Some(probed.error);
        }
        if AggregateOverflows(probed.value) {
          return Some(Unexpected);
        }
        s := s.(batteries := probed.value, totals := AggregatePwr(probed.value));
        system := Some(s);
        if probed.value == [] {
          return Some(Broken);
        }
      } else if cfg.level != Low {
        var enriched := EnrichBatteries(s.batteries, c.indexed);
        if enriched.Err? {
          return Some(enriched.error);
        }
        EnrichmentKeeps(s.batteries, c.indexed);
        SameAggregates(enriched.value, s.batteries);
        system := Some(s.(batteries := enriched.value));
      }
      raised := None;
    }

    /** Everything a cycle reads, into the system. */
    method Fetch(c: Cycle) returns (raised: Option<Raised>)
      modifies `system, `infoFetched
      ensures raised.None? <==> InfoThrough(old(infoFetched), c, cfg) && Fetched(c, cfg).Ok?
      ensures var l := Loop(old(system), old(infoFetched), energy.View(), []); SpecOf(system) == SpecAfter(l, c, cfg)
      ensures raised.None? ==>
                infoFetched && system.Some? && system.value.batteries == Fetched(c, cfg).value
                && system.value.totals == AggregatePwr(Fetched(c, cfg).value)
    {
      hide AggregatePwr, Acquired, Enriched;
      raised := FetchInfo(c);
      if raised.Some? {
        return;
      }
      raised := FetchBatteries(c);
      if raised.Some? {
        return;
      }
      if c.stat.Err? {
        return Some(c.stat.error);
      }
      if c.time.Err? {
        return Some(c.time.error);
      }
      if cfg.level == High {
        var batteries := FetchCells(system.value.batteries, c.bat);
        CellsKeep(system.value.batteries, c.bat);
        SameAggregates(batteries, system.value.batteries);
        system := Some(system.value.(batteries := batteries));
      }
    }

    /** Counting the energy and publishing, at the end of a cycle. */
    method PublishReading(c: Cycle)
      requires Valid() && system.Some?
      modifies this, energy
      ensures Valid() && infoFetched == old(infoFetched)
      ensures energy.View() == old(energy.View()).AfterUpdate(cfg.hasFile, c.now, old(system).value.totals.power, c.save)
      ensures system == Some(old(system).value.(energyIn := Round(energy.View().meter.flow.charged, 3),
                                                energyOut := Round(energy.View().meter.flow.discharged, 3)))
      ensures published == old(published) + [State(system.value), Online]
    {
      energy.Update(c.now, system.value.totals.power, c.save);
      system := Some(system.value.(energyIn := Round(energy.energyIn, 3), energyOut := Round(energy.energyOut, 3)));
      published := published + [State(system.value)];
      published := published + [Online];
    }

    /** One turn of the poll loop. */
    method PollOnce(c: Cycle)
      requires Valid()
      modifies this, energy
      ensures Valid() && Turned(old(View()), c, cfg, View())
    {
      var raised := Fetch(c);
      if raised.Some? {
        published := published + [Offline];
        energy.InvalidateLastTime();
        infoFetched := false;
        return;
      }
      PublishReading(c);
    }
  }
}