/** The two ways to find the batteries, the aggregate pwr table and probing "pwr N" slot by slot, agree. */
module Discovery {
  import opened Search
  import opened Wrappers
  import opened Text
  import opened Table
  import opened Schemas
  import opened Rounding
  import opened Measures
  import opened KeyValue
  import opened Stub
  import opened Rendering
  import opened StubBlock
  import opened PwrReading
  import opened RoundTrip
  import opened IndexedRoundTrip

  // Probing

  /** What can come out of a send_command or a parse: a connection error, or anything else. */
  datatype Raised = Broken | Unexpected

  /** The console's answers to "pwr N". */
  type Answers = int -> Result<string, Raised>

  function Prepend(found: Option<Battery>, rest: Result<seq<Battery>, Raised>): Result<seq<Battery>, Raised> {
    match rest
    case Err(e) => Err(e)
    case Ok(more) => Ok((if found.Some? then [found.value] else []) + more)
  }

  /** The batteries probing finds from slot id on. */
  function Probe(ask: Answers, id: nat, max: nat): Result<seq<Battery>, Raised>
    decreases max + 1 - id
  {
    if id > max then Ok([])
    else
      match ask(id)
      case Err(e) => Err(e)
      case Ok(raw) =>
        if Contains(raw, NOT_FOUND) then Ok([])
        else
          match IndexedBattery(raw, id)
          case Err(_) => Err(Unexpected)
          case Ok(found) => Prepend(found, Probe(ask, id + 1, max))
  }

  /** What was found before, and then the rest. */
  function After(batteries: seq<Battery>, rest: Result<seq<Battery>, Raised>): Result<seq<Battery>, Raised> {
    match rest
    case Err(e) => Err(e)
    case Ok(more) => Ok(batteries + more)
  }

  lemma AfterPrepend(batteries: seq<Battery>, found: Option<Battery>, rest: Result<seq<Battery>, Raised>)
    ensures After(batteries, Prepend(found, rest)) == After(if found.Some? then batteries + [found.value] else batteries, rest)
  {
    if found.Some? && rest.Ok? {
      assert batteries + ([found.value] + rest.value) == batteries + [found.value] + rest.value;
    } else if rest.Ok? {
      assert [] + rest.value == rest.value;
    }
  }

  /** The loop of _fetch_batteries_indexed. */
  method FetchBatteriesIndexed(ask: Answers, max: nat) returns (r: Result<seq<Battery>, Raised>)
    ensures r == Probe(ask, 1, max)
  {
    var batteries: seq<Battery> := [];
    var id: nat := 1;
    assert Probe(ask, 1, max).Ok? ==> [] + Probe(ask, 1, max).value == Probe(ask, 1, max).value;
    while id <= max
      invariant 1 <= id <= max + 1
      invariant Probe(ask, 1, max) == After(batteries, Probe(ask, id, max))
    {
      var answer := ask(id);
      if answer.Err? {
        return Err(answer.error);
      }
      if Contains(answer.value, NOT_FOUND) {
        break;
      }
      var parsed := ParseKeyValue(answer.value, PwrIndexed(), map[BlockSysId := Whole(id)]);
      if parsed.Err? {
        return Err(Unexpected);
      }
      AfterPrepend(batteries, parsed.value, Probe(ask, id + 1, max));
      if parsed.value.Some? {
        batteries := batteries + [parsed.value.value];
      }
      id := id + 1;
    }
    assert batteries + [] == batteries;
    r := Ok(batteries);
  }

  // What probing finds on the emulator

  function Emulated(b: Bms): Answers {
    (id: int) => Ok(IndexedResponse(b, id))
  }

  /** The blocks of the present slots among the first n, in ascending id order. */
  function IndexedReadings(b: Bms, n: nat): seq<Battery> {
    if n == 0 then [] else IndexedReadings(b, n - 1) + (if Present(b, n) then [IndexedReading(b, n)] else [])
  }

  predicate AllBlocksFit(b: Bms) {
    forall id :: 1 <= id <= b.Count() && Present(b, id) ==> BlockFits(b, id)
  }

  function Least(x: nat, y: nat): nat {
    if x < y then x else y
  }

  lemma {:induction false} ProbeFrom(b: Bms, id: nat, max: nat)
    requires AllBlocksFit(b) && 1 <= id && id - 1 <= Least(max, b.Count())
    ensures After(IndexedReadings(b, id - 1), Probe(Emulated(b), id, max)) == Ok(IndexedReadings(b, Least(max, b.Count())))
    decreases max + 1 - id
  {
    var before := IndexedReadings(b, id - 1);
    assert before + [] == before;
    if id <= max && id <= b.Count() {
      ProbeFrom(b, id + 1, max);
      if Present(b, id) {
        PresentBlock(b, id);
        AfterPrepend(before, Some(IndexedReading(b, id)), Probe(Emulated(b), id + 1, max));
      } else {
        AbsentBlock(b, id);
        AfterPrepend(before, None, Probe(Emulated(b), id + 1, max));
      }
    } else if id <= max {
      LostBlock(b, id);
    }
  }

  /** Probing finds exactly the present slots up to the limit, in ascending id order, with the printed values. */
  lemma {:induction false} ProbeRoundTrip(b: Bms, max: nat)
    requires AllBlocksFit(b)
    ensures Probe(Emulated(b), 1, max) == Ok(IndexedReadings(b, Least(max, b.Count())))
  {
    ProbeFrom(b, 1, max);
    var probed := Probe(Emulated(b), 1, max);
    assert probed.Ok? ==> [] + probed.value == probed.value;
  }

  // Agreement

  function Ids(batteries: seq<Battery>): (r: seq<int>)
    ensures |r| == |batteries| && forall i :: 0 <= i < |r| ==> r[i] == batteries[i].sysId
  {
    if batteries == [] then [] else Ids(batteries[..|batteries| - 1]) + [batteries[|batteries| - 1].sysId]
  }

  lemma {:induction false} SameIdsMore(a: seq<Battery>, x: seq<Battery>, c: seq<Battery>, y: seq<Battery>)
    requires Ids(a) == Ids(c) && |x| == |y| <= 1 && (x != [] ==> x[0].sysId == y[0].sysId)
    ensures Ids(a + x) == Ids(c + y)
  {
    assert |a| == |Ids(a)| == |c|;
  }

  lemma {:induction false} SameIds(b: Bms, n: nat)
    ensures Ids(Readings(b, n)) == Ids(IndexedReadings(b, n))
  {
    hide Present, Ids;
    if n > 0 {
      SameIds(b, n - 1);
      SameIdsMore(Readings(b, n - 1), if Present(b, n) then [Reading(b, n)] else [],
                  IndexedReadings(b, n - 1), if Present(b, n) then [IndexedReading(b, n)] else []);
    }
  }

  lemma {:induction false} NoneBeyond(b: Bms, m: nat, n: nat)
    requires m <= n && forall id :: m < id <= n ==> !Present(b, id)
    ensures Readings(b, n) == Readings(b, m)
  {
    if m < n {
      NoneBeyond(b, m, n - 1);
    }
  }

  /** Both find the same ids exactly when no battery sits beyond the probing limit. */
  lemma {:induction false} SameIdsIff(b: Bms, max: nat)
    requires Printable(b) && AllFit(b) && AllBlocksFit(b)
    ensures TableRows(PwrTable(), PwrResponse(b)).Ok? && Probe(Emulated(b), 1, max).Ok?
    ensures Ids(TableRows(PwrTable(), PwrResponse(b)).value) == Ids(Probe(Emulated(b), 1, max).value)
       <==> forall id :: max < id <= b.Count() ==> !Present(b, id)
  {
    PwrRoundTrip(b);
    ProbeRoundTrip(b, max);
    IdsIff(b, max);
  }

  lemma {:induction false} IdListed(batteries: seq<Battery>, battery: Battery)
    requires battery in batteries
    ensures battery.sysId in Ids(batteries)
  {
    var i :| 0 <= i < |batteries| && batteries[i] == battery;
    assert Ids(batteries)[i] == battery.sysId;
  }

  lemma {:induction false} IdsUpTo(b: Bms, m: nat)
    ensures forall id :: id in Ids(Readings(b, m)) ==> id <= m
  {
    forall id | id in Ids(Readings(b, m))
      ensures id <= m
    {
      var i :| 0 <= i < |Ids(Readings(b, m))| && Ids(Readings(b, m))[i] == id;
      assert Readings(b, m)[i].sysId == id;
    }
  }

  lemma {:induction false} IdsIff(b: Bms, max: nat)
    ensures Ids(Readings(b, b.Count())) == Ids(IndexedReadings(b, Least(max, b.Count())))
       <==> forall id :: max < id <= b.Count() ==> !Present(b, id)
  {
    var m, n := Least(max, b.Count()), b.Count();
    SameIds(b, m);
    if forall id :: max < id <= n ==> !Present(b, id) {
      NoneBeyond(b, m, n);
    } else {
      var id :| max < id <= n && Present(b, id);
      assert Reading(b, id) in Readings(b, n);
      IdListed(Readings(b, n), Reading(b, id));
      IdsUpTo(b, m);
    }
  }

  lemma {:induction false} SumLast(batteries: seq<Battery>, last: Battery, measure: Battery -> real)
    ensures Sum(batteries + [last], measure) == Sum(batteries, measure) + measure(last)
  {
    assert (batteries + [last])[..|batteries|] == batteries;
  }

  /** The readings of the present slots among the first n, whatever a reading is. */
  function Listed(b: Bms, n: nat, reading: nat -> Battery): seq<Battery> {
    if n == 0 then [] else Listed(b, n - 1, reading) + (if Present(b, n) then [reading(n)] else [])
  }

  lemma {:induction false} ListedBoth(b: Bms, n: nat)
    ensures Readings(b, n) == Listed(b, n, (id: nat) => Reading(b, id))
    ensures IndexedReadings(b, n) == Listed(b, n, (id: nat) => IndexedReading(b, id))
  {
    if n > 0 {
      ListedBoth(b, n - 1);
    }
  }

  lemma {:induction false} SameListedSum(
    b: Bms, n: nat, one: nat -> Battery, other: nat -> Battery, measure: Battery -> real)
    requires forall id :: 1 <= id <= n && Present(b, id) ==> measure(one(id)) == measure(other(id))
    ensures Sum(Listed(b, n, one), measure) == Sum(Listed(b, n, other), measure)
    ensures |Listed(b, n, one)| == |Listed(b, n, other)|
  {
    hide Present, Sum;
    if n > 0 {
      SameListedSum(b, n - 1, one, other, measure);
      if Present(b, n) {
        SumLast(Listed(b, n - 1, one), one(n), measure);
        SumLast(Listed(b, n - 1, other), other(n), measure);
      } else {
        assert Listed(b, n, one) == Listed(b, n - 1, one) && Listed(b, n, other) == Listed(b, n - 1, other);
      }
    }
  }

  lemma {:induction false} SameSum(b: Bms, n: nat, measure: Battery -> real)
    requires forall id :: 1 <= id <= n && Present(b, id) ==> measure(Reading(b, id)) == measure(IndexedReading(b, id))
    ensures Sum(Readings(b, n), measure) == Sum(IndexedReadings(b, n), measure)
    ensures |Readings(b, n)| == |IndexedReadings(b, n)|
  {
    ListedBoth(b, n);
    SameListedSum(b, n, (id: nat) => Reading(b, id), (id: nat) => IndexedReading(b, id), measure);
  }

  /** The two readings of one battery agree on its measures exactly when it has no overcurrent fault, which the two
      responses cap differently; on voltage and state of charge they always do. */
  lemma SameMeasures(b: Bms, id: nat)
    ensures Reading(b, id).voltage == IndexedReading(b, id).voltage && Reading(b, id).soc == IndexedReading(b, id).soc
    ensures Reading(b, id).current == IndexedReading(b, id).current <==> b.FaultOf(id) != OverCurrent
    ensures b.FaultOf(id) != OverCurrent ==> Reading(b, id).power == IndexedReading(b, id).power
  {
  }

  /** No present battery up to id n has an overcurrent fault. */
  predicate NoOverCurrent(b: Bms, n: nat) {
    forall id :: 1 <= id <= n && Present(b, id) ==> b.FaultOf(id) != OverCurrent
  }

  /** Where both paths find the same batteries, they give the same system totals exactly when none of them has an
      overcurrent fault. */
  lemma {:induction false} PathsAgree(b: Bms, max: nat)
    requires Printable(b) && AllFit(b) && AllBlocksFit(b) && forall id :: max < id <= b.Count() ==> !Present(b, id)
    ensures TableRows(PwrTable(), PwrResponse(b)).Ok? && Probe(Emulated(b), 1, max).Ok?
    ensures AggregatePwr(TableRows(PwrTable(), PwrResponse(b)).value) == AggregatePwr(Probe(Emulated(b), 1, max).value)
       <==> NoOverCurrent(b, b.Count())
  {
    hide AggregatePwr, TableRows, Probe, NoOverCurrent;
    BothRead(b, max);
    SameTotalsIff(b, Least(max, b.Count()));
    FaultsInReach(b, max);
  }

  lemma FaultsInReach(b: Bms, max: nat)
    requires forall id :: max < id <= b.Count() ==> !Present(b, id)
    ensures NoOverCurrent(b, Least(max, b.Count())) <==> NoOverCurrent(b, b.Count())
  {
    hide Present;
  }

  lemma {:induction false} BothRead(b: Bms, max: nat)
    requires Printable(b) && AllFit(b) && AllBlocksFit(b) && forall id :: max < id <= b.Count() ==> !Present(b, id)
    ensures TableRows(PwrTable(), PwrResponse(b)) == Ok(Readings(b, Least(max, b.Count())))
    ensures Probe(Emulated(b), 1, max) == Ok(IndexedReadings(b, Least(max, b.Count())))
  {
    PwrRoundTrip(b);
    ProbeRoundTrip(b, max);
    NoneBeyond(b, Least(max, b.Count()), b.Count());
  }

  lemma {:induction false} SameTotalsIff(b: Bms, n: nat)
    ensures AggregatePwr(Readings(b, n)) == AggregatePwr(IndexedReadings(b, n))
       <==> NoOverCurrent(b, n)
  {
    if NoOverCurrent(b, n) {
      SameTotals(b, n);
    } else {
      var id :| 1 <= id <= n && Present(b, id) && b.FaultOf(id) == OverCurrent;
      TotalsApart(b, n, id);
    }
  }

  /** How far apart the two readings of a current are: an overcurrent is capped 50 A lower in the table. */
  lemma CurrentsApart(b: Bms, id: nat)
    ensures var gap := IndexedReading(b, id).current - Reading(b, id).current;
            if b.FaultOf(id) != OverCurrent then gap == 0.0
            else if b.state.current < 0 then gap == -50.001 else gap == 50.001
  {
  }

  function Gap(b: Bms, n: nat): real {
    Sum(IndexedReadings(b, n), CURRENT) - Sum(Readings(b, n), CURRENT)
  }

  lemma {:induction false} GapStep(b: Bms, n: nat)
    requires n > 0
    ensures Gap(b, n) == Gap(b, n - 1)
                       + (if Present(b, n) then IndexedReading(b, n).current - Reading(b, n).current else 0.0)
  {
    if Present(b, n) {
      SumLast(IndexedReadings(b, n - 1), IndexedReading(b, n), CURRENT);
      SumLast(Readings(b, n - 1), Reading(b, n), CURRENT);
    } else {
      assert IndexedReadings(b, n) == IndexedReadings(b, n - 1) && Readings(b, n) == Readings(b, n - 1);
    }
  }

  lemma {:induction false} SumsApart(b: Bms, n: nat)
    ensures var gap := Gap(b, n);
            && (b.state.current < 0 ==> gap <= 0.0) && (b.state.current >= 0 ==> gap >= 0.0)
            && forall id :: 1 <= id <= n && Present(b, id) && b.FaultOf(id) == OverCurrent ==> gap <= -50.0 || gap >= 50.0
  {
    if n > 0 {
      SumsApart(b, n - 1);
      CurrentsApart(b, n);
      GapStep(b, n);
    }
  }

  lemma {:induction false} TotalsApart(b: Bms, n: nat, id: nat)
    requires 1 <= id <= n && Present(b, id) && b.FaultOf(id) == OverCurrent
    ensures AggregatePwr(Readings(b, n)) != AggregatePwr(IndexedReadings(b, n))
  {
    SumsApart(b, n);
    SameIds(b, n);
    assert Reading(b, id) in Readings(b, n);
    var x, y := Sum(Readings(b, n), CURRENT), Sum(IndexedReadings(b, n), CURRENT);
    if x < y { RoundApart(x, y, 2); } else { RoundApart(y, x, 2); }
    CurrentTotal(Readings(b, n));
    CurrentTotal(IndexedReadings(b, n));
  }

  lemma {:induction false} CurrentTotal(batteries: seq<Battery>)
    requires batteries != []
    ensures AggregatePwr(batteries).current == Round(Sum(batteries, CURRENT), 2)
  {
    SameMeasureSum(batteries, (x: Battery) => x.current, CURRENT);
  }

  lemma {:induction false} SameTotals(b: Bms, n: nat)
    requires forall id :: 1 <= id <= n && Present(b, id) ==> b.FaultOf(id) != OverCurrent
    ensures AggregatePwr(Readings(b, n)) == AggregatePwr(IndexedReadings(b, n))
  {
    forall id | 1 <= id <= n && Present(b, id)
      ensures Reading(b, id).current == IndexedReading(b, id).current && Reading(b, id).power == IndexedReading(b, id).power
    {
      SameMeasures(b, id);
    }
    SameSum(b, n, (x: Battery) => x.voltage);
    SameSum(b, n, (x: Battery) => x.current);
    SameSum(b, n, (x: Battery) => x.soc as real);
    SameSum(b, n, (x: Battery) => x.power);
  }

  // An overcurrent fault that does part them

  const ZERO: nat -> int := (id: nat) => 0
  const NO_CELL: (nat, nat) -> int := (id: nat, c: nat) => 0

  /** One battery in one slot, with the fault. */
  const OVER_CURRENT: Bms := Bms(
    Config(1, 1, 1, OldFirmware, 15, 74000),
    BmsState(50, 48000, 1000, 20000, 19000, 21000, 3200, 3210, 25000, 0, 0, 0),
    map[1 := OverCurrent],
    Draws(ZERO, ZERO, ZERO, ZERO, ZERO, NO_CELL, NO_CELL, "24-01-01", "12:00:00"))

  lemma SixDigits(n: nat)
    requires n < 1_000_000
    ensures |IntText(n)| <= 6
    ensures n < 100_000 ==> |IntText(n)| <= 5
  {
    assert PowerOfTen(3) == 1000 && PowerOfTen(5) == 100_000 && PowerOfTen(6) == 1_000_000;
    NatTextShort(n, 6);
    if n < 100_000 {
      NatTextShort(n, 5);
    }
  }

  /** The numbers of a slot are shorter than the older firmware's columns. */
  predicate NumbersFit(b: Bms, id: nat) {
    var v := ShownBy(b.state, b.cfg.cells, b.FaultOf(id), TABLE_OVER_CURRENT);
    && |IntText(id)| < 6 && |IntText(v.voltage)| < 7 && |IntText(v.current)| < 7 && |IntText(v.temperature)| < 7
    && |IntText(v.tempLow)| < 7 && |IntText(v.tempHigh)| < 7 && |IntText(v.voltLow)| < 7 && |IntText(v.voltHigh)| < 7
    && |IntText(b.state.soc)| < 8
  }

  /** Then everything on its row is. */
  lemma OldRowFits(b: Bms, id: nat)
    requires NumbersFit(b, id)
    ensures Fits(PresentOld(b, id))
  {
    forall i | 0 <= i < |PresentOld(b, id)| - 1
      ensures |PresentOld(b, id)[i].value| < PresentOld(b, id)[i].width
    {
      OldFieldFits(b, id, i);
    }
  }

  lemma OldFieldFits(b: Bms, id: nat, i: nat)
    requires NumbersFit(b, id) && i < 16
    ensures |PresentOld(b, id)| == 17 && |PresentOld(b, id)[i].value| < PresentOld(b, id)[i].width
  {
    if i < 8 { OldNumberFits(b, id, i); } else { OldWordFits(b, id, i); }
  }

  lemma OldNumberFits(b: Bms, id: nat, i: nat)
    requires NumbersFit(b, id) && i < 8
    ensures |PresentOld(b, id)[i].value| < PresentOld(b, id)[i].width
  {
  }

  lemma OldWordFits(b: Bms, id: nat, i: nat)
    requires NumbersFit(b, id) && 8 <= i < 16
    ensures |PresentOld(b, id)[i].value| < PresentOld(b, id)[i].width
  {
  }

  lemma OverCurrentNumbers(b: Bms)
    requires b == OVER_CURRENT
    ensures NumbersFit(b, 1) && BlockFits(b, 1)
  {
    SixDigits(1);
    SixDigits(48000);
    SixDigits(99999);
    SixDigits(150000);
    SixDigits(20000);
    SixDigits(19000);
    SixDigits(21000);
    SixDigits(3200);
    SixDigits(3210);
    SixDigits(50);
  }

  lemma OverCurrentPrints(b: Bms)
    requires b == OVER_CURRENT
    ensures Printable(b) && b.Count() == 1 && Present(b, 1) && b.FaultOf(1) == OverCurrent
    ensures AllFit(b) && AllBlocksFit(b)
  {
    hide IntText;
    OverCurrentNumbers(b);
    OldRowFits(b, 1);
    OnlyOneSlot(b);
  }

  lemma OnlyOneSlot(b: Bms)
    requires b.Count() == 1 && b.cfg.firmware == OldFirmware && Fits(PresentOld(b, 1)) && BlockFits(b, 1)
    ensures AllFit(b) && AllBlocksFit(b)
  {
    forall id | 1 <= id <= b.Count() && Present(b, id)
      ensures Fits(SlotFields(b, id, true)) && BlockFits(b, id)
    {
      assert id == 1;
    }
  }

  /** Its two responses are read as different currents of the same stack. */
  lemma {:induction false} PathsDisagree(max: nat)
    requires max >= 1
    ensures TableRows(PwrTable(), PwrResponse(OVER_CURRENT)).Ok? && Probe(Emulated(OVER_CURRENT), 1, max).Ok?
    ensures AggregatePwr(TableRows(PwrTable(), PwrResponse(OVER_CURRENT)).value)
         != AggregatePwr(Probe(Emulated(OVER_CURRENT), 1, max).value)
  {
    OverCurrentPrints(OVER_CURRENT);
    PathsAgree(OVER_CURRENT, max);
  }
}
