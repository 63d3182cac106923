/** The poll loop over whole runs of cycles, with any mixture of failures. */
module PollRuns {
  import opened Wrappers
  import opened Schemas
  import opened Discovery
  import opened Rounding
  import opened Measures
  import opened CycleReading
  import opened EnergyRuns
  import opened PollLoop
  import E = Energy

  /** loops[k] is the loop before cycle k. */
  ghost predicate IsRun(loops: seq<Loop>, cycles: seq<Cycle>, cfg: Settings) {
    && |loops| == |cycles| + 1
    && forall k :: 0 <= k < |cycles| ==> Turned(loops[k], cycles[k], cfg, loops[k + 1])
  }

  // What is published

  lemma FetchedSome(c: Cycle, cfg: Settings)
    requires Fetched(c, cfg).Ok?
    ensures Fetched(c, cfg).value != []
  {
    hide FromTable, PwrReply, Enriched;
    var rows := FromTable(PwrReply(c).value).value;
    if rows != [] && cfg.level != Low {
      EnrichmentKeeps(rows, c.indexed);
    }
  }

  /** The snapshot was read in cycle c, all of it: there are batteries, they are what the cycle's responses say, and the
      totals are theirs. */
  ghost predicate ReadIn(s: System, c: Cycle, cfg: Settings) {
    s.batteries != [] && Reads(c, cfg, s.batteries) && TotalsFit(s.batteries, s.totals)
  }

  /** The device info is known or comes through, and so do the batteries. */
  ghost predicate ComesThrough(l: Loop, c: Cycle, cfg: Settings) {
    (l.infoFetched || (c.info.Ok? && (cfg.syncTime ==> c.sync.Ok?))) && exists batteries :: Reads(c, cfg, batteries)
  }

  lemma SucceedsIff(l: Loop, c: Cycle, cfg: Settings)
    ensures Succeeds(l, c, cfg) <==> ComesThrough(l, c, cfg)
  {
    hide Fetched, Reads;
    forall batteries ensures Fetched(c, cfg) == Ok(batteries) <==> Reads(c, cfg, batteries) {
      FetchedIff(c, cfg, batteries);
    }
    if Fetched(c, cfg).Ok? {
      assert Reads(c, cfg, Fetched(c, cfg).value);
    }
  }

  /** A counter in whole thousandths, to the nearest. */
  predicate Shows(counter: real, exact: real) {
    WholeNumber(counter * 1000.0) && -0.0005 <= counter - exact <= 0.0005
  }

  /** The snapshot's own numbers count: its power is the sample the tracker takes, and the counters are the
      tracker's. */
  ghost predicate Accounts(s: System, l: Loop, c: Cycle, cfg: Settings, m: Loop) {
    && m.energy.meter == l.energy.meter.Observe(E.Sample(c.now, s.totals.power))
    && Shows(s.energyIn, m.energy.meter.flow.charged) && Shows(s.energyOut, m.energy.meter.flow.discharged)
    && m.system == Some(s)
  }

  /** The specification is the last one read, and lasts over failures. */
  predicate Remembers(l: Loop, c: Cycle, cfg: Settings, m: Loop) {
    var before := if l.system.Some? then l.system.value.spec else None;
    var spec := if m.system.Some? then m.system.value.spec else None;
    spec == if !l.infoFetched && c.info.Ok? then cfg.specOf(c.info.value, before) else before
  }

  /** What one cycle does: a snapshot read in it and then "online", or else "offline" and a gap in the counting. */
  ghost predicate Adds(l: Loop, c: Cycle, cfg: Settings, m: Loop) {
    var before, after := l.published, m.published;
    && (m.infoFetched <==> ComesThrough(l, c, cfg)) && Remembers(l, c, cfg, m)
    && if ComesThrough(l, c, cfg)
       then |after| == |before| + 2 && before <= after
            && after[|before|].State? && ReadIn(after[|before|].system, c, cfg) && after[|before| + 1] == Online
            && Accounts(after[|before|].system, l, c, cfg, m)
       else after == before + [Offline] && m.energy.meter == l.energy.meter.Observe(E.Gap)
  }

  lemma SnapshotReadIn(l: Loop, c: Cycle, cfg: Settings)
    requires Succeeds(l, c, cfg)
    ensures ReadIn(Snapshot(l, c, cfg), c, cfg)
  {
    hide Fetched, Reads, TotalsFit, AggregatePwr, Round;
    FetchedSome(c, cfg);
    FetchedIff(c, cfg, Fetched(c, cfg).value);
    TotalsAre(Fetched(c, cfg).value);
  }

  lemma SnapshotAccounts(l: Loop, c: Cycle, cfg: Settings, m: Loop)
    requires Succeeds(l, c, cfg) && Turned(l, c, cfg, m)
    ensures Accounts(Snapshot(l, c, cfg), l, c, cfg, m)
  {
    hide Fetched, AggregatePwr, Round;
    var s := Snapshot(l, c, cfg);
    UpdateObserves(l.energy, cfg.hasFile, c.now, s.totals.power, c.save);
    Thousandths(m.energy.meter.flow.charged);
    Thousandths(m.energy.meter.flow.discharged);
  }

  lemma TurnPublishes(l: Loop, c: Cycle, cfg: Settings, m: Loop)
    requires Turned(l, c, cfg, m)
    ensures Adds(l, c, cfg, m)
  {
    hide Snapshot, Succeeds, ReadIn, ComesThrough, Accounts;
    SucceedsIff(l, c, cfg);
    if Succeeds(l, c, cfg) {
      SnapshotReadIn(l, c, cfg);
      SnapshotAccounts(l, c, cfg, m);
    } else {
      GapObserved(l, c, cfg, m);
    }
  }

  lemma GapObserved(l: Loop, c: Cycle, cfg: Settings, m: Loop)
    requires Turned(l, c, cfg, m) && !Succeeds(l, c, cfg)
    ensures m.energy.meter == l.energy.meter.Observe(E.Gap)
  {
  }

  /** Entry i of the log was published by cycle k, whose own reading it is. */
  ghost predicate PublishedBy(log: seq<Publication>, i: nat, loops: seq<Loop>, cycles: seq<Cycle>, cfg: Settings, k: nat)
    requires i < |log| && k < |cycles| && |loops| == |cycles| + 1
  {
    var start := |loops[k].published|;
    && start <= i < |loops[k + 1].published|
    && match log[i]
       case State(s) => i == start && ComesThrough(loops[k], cycles[k], cfg) && ReadIn(s, cycles[k], cfg)
       case Online => i == start + 1 && ComesThrough(loops[k], cycles[k], cfg) && log[start].State?
       case Offline => i == start && !ComesThrough(loops[k], cycles[k], cfg)
  }

  ghost predicate EntryOwned(log: seq<Publication>, i: nat, loops: seq<Loop>, cycles: seq<Cycle>, cfg: Settings)
    requires i < |log| && |loops| == |cycles| + 1
  {
    exists k :: 0 <= k < |cycles| && PublishedBy(log, i, loops, cycles, cfg, k)
  }

  lemma OwnedBefore(log: seq<Publication>, i: nat, loops: seq<Loop>, cycles: seq<Cycle>, cfg: Settings, n: nat)
    requires |loops| == |cycles| + 1 && n <= |cycles|
    requires loops[n].published <= log && i < |loops[n].published|
    requires EntryOwned(loops[n].published, i, loops[..n + 1], cycles[..n], cfg)
    ensures EntryOwned(log, i, loops, cycles, cfg)
  {
    var k :| 0 <= k < n && PublishedBy(loops[n].published, i, loops[..n + 1], cycles[..n], cfg, k);
    assert PublishedBy(log, i, loops, cycles, cfg, k);
  }

  lemma OwnedLast(i: nat, loops: seq<Loop>, cycles: seq<Cycle>, cfg: Settings)
    requires |loops| == |cycles| + 1 && cycles != []
    requires var n := |cycles| - 1; Adds(loops[n], cycles[n], cfg, loops[n + 1])
    requires |loops[|cycles| - 1].published| <= i < |loops[|cycles|].published|
    ensures EntryOwned(loops[|cycles|].published, i, loops, cycles, cfg)
  {
    assert PublishedBy(loops[|cycles|].published, i, loops, cycles, cfg, |cycles| - 1);
  }

  /** Over every run: every cycle adds to the log either a snapshot that was read in that very cycle, is not empty and
      has the totals of its own batteries, and right after it "online", or else "offline"; and the log is nothing else, so
      that no reading is ever published again and no "online" comes before the state of its own cycle. */
  lemma {:induction false} RunIsFresh(loops: seq<Loop>, cycles: seq<Cycle>, cfg: Settings)
    requires IsRun(loops, cycles, cfg) && loops[0].published == []
    ensures forall k :: 0 <= k < |cycles| ==>
              Adds(loops[k], cycles[k], cfg, loops[k + 1])
    ensures var log := loops[|cycles|].published;
            forall i :: 0 <= i < |log| ==> EntryOwned(log, i, loops, cycles, cfg)
    decreases |cycles|
  {
    if cycles != [] {
      var n := |cycles| - 1;
      var log := loops[n + 1].published;
      RunIsFresh(loops[..n + 1], cycles[..n], cfg);
      EachAdds(loops, cycles, cfg);
      forall i | 0 <= i < |log|
        ensures EntryOwned(log, i, loops, cycles, cfg)
      {
        if i < |loops[n].published| {
          OwnedBefore(log, i, loops, cycles, cfg, n);
        } else {
          OwnedLast(i, loops, cycles, cfg);
        }
      }
    }
  }

  lemma EachAdds(loops: seq<Loop>, cycles: seq<Cycle>, cfg: Settings)
    requires IsRun(loops, cycles, cfg)
    ensures forall k :: 0 <= k < |cycles| ==>
              Adds(loops[k], cycles[k], cfg, loops[k + 1])
  {
    forall k | 0 <= k < |cycles|
      ensures Adds(loops[k], cycles[k], cfg, loops[k + 1])
    {
      TurnPublishes(loops[k], cycles[k], cfg, loops[k + 1]);
    }
  }

  // What is counted

  /** What a cycle is to the energy tracker. */
  function EventOf(l: Loop, c: Cycle, cfg: Settings): E.Event {
    if Succeeds(l, c, cfg) then E.Sample(c.now, AggregatePwr(Fetched(c, cfg).value).power) else E.Gap
  }

  function Events(loops: seq<Loop>, cycles: seq<Cycle>, cfg: Settings): (r: seq<E.Event>)
    requires |loops| == |cycles| + 1
    ensures |r| == |cycles|
    decreases |cycles|
  {
    if cycles == [] then [] else [EventOf(loops[0], cycles[0], cfg)] + Events(loops[1..], cycles[1..], cfg)
  }

  lemma TurnObserves(l: Loop, c: Cycle, cfg: Settings, m: Loop)
    requires Turned(l, c, cfg, m)
    ensures m.energy.meter == l.energy.meter.Observe(EventOf(l, c, cfg))
  {
    if Succeeds(l, c, cfg) {
      UpdateObserves(l.energy, cfg.hasFile, c.now, AggregatePwr(Fetched(c, cfg).value).power, c.save);
    }
  }

  /** The counters of a run are those of its events: a sample for each cycle that came through, a gap for each that
      failed. */
  lemma {:induction false} RunIsMetered(loops: seq<Loop>, cycles: seq<Cycle>, cfg: Settings)
    requires IsRun(loops, cycles, cfg)
    ensures loops[|cycles|].energy.meter == Metered(loops[0].energy.meter, Events(loops, cycles, cfg))
    decreases |cycles|
  {
    if cycles != [] {
      TurnObserves(loops[0], cycles[0], cfg, loops[1]);
      RunIsMetered(loops[1..], cycles[1..], cfg);
      assert loops[1..][|cycles[1..]|] == loops[|cycles|];
    }
  }

  /** No energy is counted across a failed cycle: what is added after it is the same as from a fresh start. */
  lemma {:induction false} NothingAcrossFailure(before: seq<E.Event>, after: seq<E.Event>, start: E.Meter)
    ensures var whole, anew := Metered(start, before + [E.Gap] + after), Metered(E.Meter(E.Gap, E.NO_FLOW), after);
            whole.flow == Metered(start, before).flow.Plus(anew.flow)
  {
    MeteredIs(start, before + [E.Gap] + after);
    MeteredIs(start, before);
    MeteredIs(E.Meter(E.Gap, E.NO_FLOW), after);
    GapSplits(PairCharged, start.last, before, after);
    GapSplits(PairDischarged, start.last, before, after);
  }

  lemma {:induction false} GapSplits(f: PairMeasure, prev: E.Event, before: seq<E.Event>, after: seq<E.Event>)
    requires forall e :: f(e, E.Gap) == 0.0
    ensures Total(f, prev, before + [E.Gap] + after) == Total(f, prev, before) + Total(f, E.Gap, after)
  {
    TotalJoins(f, prev, before + [E.Gap], after);
    TotalJoins(f, prev, before, [E.Gap]);
    assert Total(f, E.Gap, []) == 0.0;
    assert Total(f, LastOf(prev, before), [E.Gap]) == f(LastOf(prev, before), E.Gap) + Total(f, E.Gap, [E.Gap][1..]);
    assert [E.Gap][1..] == [];
  }

  lemma {:induction false} GapAt(events: seq<E.Event>, k: nat, start: E.Meter)
    requires k < |events| && events[k] == E.Gap
    ensures Metered(start, events).flow
         == Metered(start, events[..k]).flow.Plus(Metered(E.Meter(E.Gap, E.NO_FLOW), events[k + 1..]).flow)
  {
    assert events == events[..k] + [E.Gap] + events[k + 1..];
    NothingAcrossFailure(events[..k], events[k + 1..], start);
  }

  lemma {:induction false} RunPart(loops: seq<Loop>, cycles: seq<Cycle>, cfg: Settings, k: nat)
    requires IsRun(loops, cycles, cfg) && k <= |cycles|
    ensures IsRun(loops[..k + 1], cycles[..k], cfg)
    ensures loops[k].energy.meter == Metered(loops[0].energy.meter, Events(loops[..k + 1], cycles[..k], cfg))
  {
    RunIsMetered(loops[..k + 1], cycles[..k], cfg);
    assert loops[..k + 1][|cycles[..k]|] == loops[k];
  }

  /** The counters of the run around a failed cycle k. */
  lemma {:induction false} FailureSplitsEnergy(loops: seq<Loop>, cycles: seq<Cycle>, cfg: Settings, k: nat)
    requires IsRun(loops, cycles, cfg) && k < |cycles| && !Succeeds(loops[k], cycles[k], cfg)
    ensures var events := Events(loops, cycles, cfg);
            loops[|cycles|].energy.meter.flow
            == loops[k].energy.meter.flow.Plus(Metered(E.Meter(E.Gap, E.NO_FLOW), events[k + 1..]).flow)
  {
    RunIsMetered(loops, cycles, cfg);
    EventsSplit(loops, cycles, cfg, k);
    RunPart(loops, cycles, cfg, k);
    GapAt(Events(loops, cycles, cfg), k, loops[0].energy.meter);
  }

  lemma {:induction false} EventsSplit(loops: seq<Loop>, cycles: seq<Cycle>, cfg: Settings, k: nat)
    requires |loops| == |cycles| + 1 && k < |cycles|
    ensures Events(loops, cycles, cfg)[..k] == Events(loops[..k + 1], cycles[..k], cfg)
    ensures Events(loops, cycles, cfg)[k] == EventOf(loops[k], cycles[k], cfg)
    decreases k
  {
    hide EventOf;
    if k > 0 {
      EventsSplit(loops[1..], cycles[1..], cfg, k - 1);
      assert loops[..k + 1][1..] == loops[1..][..k] && cycles[..k][1..] == cycles[1..][..k - 1];
    }
  }

  predicate NonNegative(f: E.Flow) {
    f.charged >= 0.0 && f.discharged >= 0.0
  }

  /** The counters never fall below zero. */
  lemma {:induction false} CountersNonNegative(loops: seq<Loop>, cycles: seq<Cycle>, cfg: Settings)
    requires IsRun(loops, cycles, cfg) && NonNegative(loops[0].energy.meter.flow)
    ensures NonNegative(loops[|cycles|].energy.meter.flow)
    decreases |cycles|
  {
    if cycles != [] {
      TurnObserves(loops[0], cycles[0], cfg, loops[1]);
      PairNonNegative(loops[0].energy.meter.last, EventOf(loops[0], cycles[0], cfg));
      CountersNonNegative(loops[1..], cycles[1..], cfg);
      assert loops[1..][|cycles[1..]|] == loops[|cycles|];
    }
  }
}
