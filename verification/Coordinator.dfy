/** The integration's coordinator: the payload gate and the energy derived from an accepted payload. */
module Coordinator {
  import opened Wrappers
  import opened Rounding
  import opened Payload

  // Stored energy

  /** What the configured and the default capacities say about a battery. */
  datatype Capacities = Capacities(own: map<int, real>, default: real) {
    function Of(id: int): real {
      if id in own then own[id] else default
    }
  }

  function StoredEnergy(capacity: real, soc: real): real {
    Round(capacity * (soc / 100.0), 3)
  }

  /** A battery without an id is passed over. */
  predicate HasNoId(d: Dict) {
    KeySysId !in d || d[KeySysId] == Null
  }

  /** What a battery entry must have for its energy to be computed. */
  predicate Computable(battery: Json) {
    battery.Object?
    && (HasNoId(battery.fields)
        || (HasId(battery.fields, KeySysId) && KeySoc in battery.fields && IsNumber(battery.fields[KeySoc])))
  }

  function EnergyOf(battery: Json, caps: Capacities): real
    requires Computable(battery)
  {
    if HasNoId(battery.fields) then 0.0
    else StoredEnergy(caps.Of(battery.fields[KeySysId].n), Number(battery.fields[KeySoc]))
  }

  function WithEnergy(battery: Json, caps: Capacities): (r: Json)
    requires Computable(battery)
    ensures Computable(r) && EnergyOf(r, caps) == EnergyOf(battery, caps)
  {
    if HasNoId(battery.fields) then battery
    else Object(battery.fields[KeyEnergyStored := Float(EnergyOf(battery, caps))])
  }

  predicate AllComputable(batteries: seq<Json>) {
    forall i :: 0 <= i < |batteries| ==> Computable(batteries[i])
  }

  /** The batteries, each with its energy. */
  function WithEnergies(batteries: seq<Json>, caps: Capacities): (r: seq<Json>)
    requires AllComputable(batteries)
    ensures |r| == |batteries| && AllComputable(r)
    ensures forall i :: 0 <= i < |r| ==> r[i] == WithEnergy(batteries[i], caps)
  {
    if batteries == [] then []
    else
      var n := |batteries| - 1;
      WithEnergies(batteries[..n], caps) + [WithEnergy(batteries[n], caps)]
  }

  /** The running total of the loop. */
  function TotalEnergy(batteries: seq<Json>, caps: Capacities): real
    requires AllComputable(batteries)
  {
    if batteries == [] then 0.0
    else
      var n := |batteries| - 1;
      TotalEnergy(batteries[..n], caps) + EnergyOf(batteries[n], caps)
  }

  /** A system whose energy can be computed: what every accepted payload becomes. */
  predicate HasBatteries(system: Dict) {
    Batteries in system && system[Batteries].List? && AllComputable(system[Batteries].items)
  }

  function Recomputed(system: Dict, caps: Capacities): (r: Dict)
    requires HasBatteries(system)
    ensures HasBatteries(r)
  {
    var batteries := system[Batteries].items;
    system[Batteries := List(WithEnergies(batteries, caps))]
          [KeyEnergyStored := Float(Round(TotalEnergy(batteries, caps), 3))]
  }

  /** The energies the batteries carry, added up. */
  function SumOfEnergies(batteries: seq<Json>): real {
    if batteries == [] then 0.0
    else
      var n := |batteries| - 1;
      var d := batteries[n];
      SumOfEnergies(batteries[..n])
      + (if d.Object? && !HasNoId(d.fields) && KeyEnergyStored in d.fields && d.fields[KeyEnergyStored].Float?
         then d.fields[KeyEnergyStored].x else 0.0)
  }

  lemma EnergyOnGrid(capacity: real, soc: real)
    ensures OnGrid(StoredEnergy(capacity, soc), Scale(3))
  {
    RoundOnGrid(capacity * (soc / 100.0), Scale(3));
  }

  lemma BatteryOnGrid(battery: Json, caps: Capacities)
    requires Computable(battery)
    ensures OnGrid(EnergyOf(battery, caps), Scale(3))
  {
    if HasNoId(battery.fields) {
      WholeOnGrid(0, Scale(3));
    } else {
      EnergyOnGrid(caps.Of(battery.fields[KeySysId].n), Number(battery.fields[KeySoc]));
    }
  }

  lemma {:induction false} TotalOnGrid(batteries: seq<Json>, caps: Capacities)
    requires AllComputable(batteries)
    ensures OnGrid(TotalEnergy(batteries, caps), Scale(3))
  {
    if batteries == [] {
      WholeOnGrid(0, Scale(3));
    } else {
      var n := |batteries| - 1;
      TotalOnGrid(batteries[..n], caps);
      BatteryOnGrid(batteries[n], caps);
      GridSum(TotalEnergy(batteries[..n], caps), EnergyOf(batteries[n], caps), Scale(3));
    }
  }

  lemma {:induction false} TotalIsSum(batteries: seq<Json>, caps: Capacities)
    requires AllComputable(batteries)
    ensures SumOfEnergies(WithEnergies(batteries, caps)) == TotalEnergy(batteries, caps)
  {
    if batteries != [] {
      var n := |batteries| - 1;
      TotalIsSum(batteries[..n], caps);
      assert WithEnergies(batteries, caps)[..n] == WithEnergies(batteries[..n], caps);
    }
  }

  /** The system's stored energy is exactly the sum of its batteries' rounded energies: the last rounding does nothing. */
  lemma StoredEnergyIsExact(system: Dict, caps: Capacities)
    requires HasBatteries(system)
    ensures var r := Recomputed(system, caps);
            KeyEnergyStored in r && r[KeyEnergyStored] == Float(SumOfEnergies(r[Batteries].items))
  {
    var batteries := system[Batteries].items;
    TotalOnGrid(batteries, caps);
    GridFixed(TotalEnergy(batteries, caps), Scale(3));
    TotalIsSum(batteries, caps);
  }

  lemma {:induction false} SameTotal(batteries: seq<Json>, caps: Capacities)
    requires AllComputable(batteries)
    ensures TotalEnergy(WithEnergies(batteries, caps), caps) == TotalEnergy(batteries, caps)
  {
    if batteries != [] {
      var n := |batteries| - 1;
      SameTotal(batteries[..n], caps);
      assert WithEnergies(batteries, caps)[..n] == WithEnergies(batteries[..n], caps);
    }
  }

  lemma EnergyTwice(battery: Json, caps: Capacities)
    requires Computable(battery)
    ensures WithEnergy(WithEnergy(battery, caps), caps) == WithEnergy(battery, caps)
  {
    if !HasNoId(battery.fields) {
      var d := WithEnergy(battery, caps).fields;
      assert d[KeyEnergyStored := Float(EnergyOf(battery, caps))] == d;
    }
  }

  lemma {:induction false} EnergyTwiceAt(batteries: seq<Json>, caps: Capacities, i: nat)
    requires AllComputable(batteries) && i < |batteries|
    ensures WithEnergy(WithEnergies(batteries, caps)[i], caps) == WithEnergies(batteries, caps)[i]
  {
    assert Computable(batteries[i]);
    EnergyTwice(batteries[i], caps);
  }

  lemma {:induction false} EnergiesTwice(batteries: seq<Json>, caps: Capacities)
    requires AllComputable(batteries)
    ensures WithEnergies(WithEnergies(batteries, caps), caps) == WithEnergies(batteries, caps)
  {
    var once := WithEnergies(batteries, caps);
    forall i | 0 <= i < |once|
      ensures WithEnergy(once[i], caps) == once[i]
    {
      EnergyTwiceAt(batteries, caps, i);
    }
    Unchanged(once, caps);
  }

  lemma {:induction false} Unchanged(batteries: seq<Json>, caps: Capacities)
    requires AllComputable(batteries) && forall i :: 0 <= i < |batteries| ==> WithEnergy(batteries[i], caps) == batteries[i]
    ensures WithEnergies(batteries, caps) == batteries
  {
  }

  /** Computing again with the same capacities changes nothing. */
  lemma RecomputeIdempotent(system: Dict, caps: Capacities)
    requires HasBatteries(system)
    ensures Recomputed(Recomputed(system, caps), caps) == Recomputed(system, caps)
  {
    SameTotal(system[Batteries].items, caps);
    EnergiesTwice(system[Batteries].items, caps);
  }

  // Deserialization

  function BatteryDefaults(battery: Json): Json
    requires battery.Object?
  {
    var d := battery.fields;
    Object(d[KeyEnergyStored := Float(0.0)][Cells := if Cells in d then d[Cells] else List([])])
  }

  function BatteriesDefaults(batteries: seq<Json>): (r: seq<Json>)
    requires forall i :: 0 <= i < |batteries| ==> batteries[i].Object?
    ensures |r| == |batteries| && forall i :: 0 <= i < |r| ==> r[i] == BatteryDefaults(batteries[i])
  {
    if batteries == [] then [] else [BatteryDefaults(batteries[0])] + BatteriesDefaults(batteries[1..])
  }

  const REQUIRED_DEFAULTS: Dict := map[
    KeyVoltage := Int(0), KeyCurrent := Int(0), KeySoc := Int(0), KeyPower := Int(0), KeyEnergyIn := Float(0.0),
    KeyEnergyOut := Float(0.0)]

  /** _deserialize */
  function Deserialized(d: Dict): (r: Dict)
    requires ValidPayload(d)
    ensures forall k :: k in d && k != Batteries && k != KeyEnergyStored ==> k in r && r[k] == d[k]
  {
    (REQUIRED_DEFAULTS + d)[KeyEnergyStored := Float(0.0)][Batteries := List(BatteriesDefaults(d[Batteries].items))]
  }

  lemma SocRequired(battery: Json)
    requires ValidBattery(battery)
    ensures Computable(battery) && Computable(BatteryDefaults(battery))
  {
    assert HasNumber(battery.fields, REQUIRED_OF_BATTERY[2]);
  }

  lemma DeserializedComputes(d: Dict)
    requires ValidPayload(d)
    ensures HasBatteries(Deserialized(d))
  {
    var batteries := d[Batteries].items;
    forall i | 0 <= i < |batteries|
      ensures Computable(BatteriesDefaults(batteries)[i])
    {
      SocRequired(batteries[i]);
    }
  }

  // Processing

  /** parse_spec_capacity on a non-empty text; None is its ValueError. */
  type SpecParser = string -> Option<real>

  predicate Truthy(v: Json) {
    match v
    case Null => false
    case Bool(b) => b
    case Int(n) => n != 0
    case Float(x) => x != 0.0
    case NonFinite => true
    case Str(s) => s != ""
    case List(items) => items != []
    case Object(fields) => fields != map[]
  }

  function SpecOf(d: Dict): Json {
    if KeySpec in d then d[KeySpec] else Null
  }

  /** The coordinator's state. */
  datatype State = State(
    data: Option<Dict>, available: bool, last: Option<real>, own: map<int, real>, default: real, derived: bool)

  datatype Outcome = Dropped | Rejected | Failed | Updated

  /** The default capacity once the payload's specification has been looked at. */
  function AfterSpec(s: State, spec: Json, parse: SpecParser): State {
    if s.derived || !Truthy(spec) || !spec.Str? || parse(spec.s).None? then s
    else s.(default := parse(spec.s).value, derived := true)
  }

  /** A specification that is neither text nor empty raises where it is searched. */
  predicate SpecRaises(s: State, spec: Json) {
    !s.derived && Truthy(spec) && !spec.Str?
  }

  function Process(s: State, payload: Json, now: real, parse: SpecParser): (State, Outcome) {
    if !payload.Object? then (s, Dropped)
    else if !ValidPayload(payload.fields) then (s, Rejected)
    else
      var system := Deserialized(payload.fields);
      DeserializedComputes(payload.fields);
      if SpecRaises(s, SpecOf(system)) then (s, Failed)
      else
        var t := AfterSpec(s, SpecOf(system), parse);
        (t.(data := Some(Recomputed(system, Capacities(t.own, t.default))), available := true, last := Some(now)), Updated)
  }

  /** A message that is not accepted changes nothing at all, and one is accepted exactly when it is a valid payload whose
      specification, if it is still looked at, is text or empty. */
  lemma GateIsExact(s: State, payload: Json, now: real, parse: SpecParser)
    ensures var (t, outcome) := Process(s, payload, now, parse);
            && (outcome != Updated ==> t == s)
            && (outcome == Dropped <==> !payload.Object?)
            && (outcome == Rejected <==> payload.Object? && !ValidPayload(payload.fields))
            && (outcome == Updated <==>
                 payload.Object? && ValidPayload(payload.fields)
                 && (s.derived || !Truthy(SpecOf(payload.fields)) || SpecOf(payload.fields).Str?))
            && (outcome == Updated ==> t.available && t.last == Some(now) && t.data.Some? && t.own == s.own)
  {
    hide ValidPayload, Recomputed;
    if payload.Object? && ValidPayload(payload.fields) {
      var d := payload.fields;
      assert KeySpec in Deserialized(d) <==> KeySpec in d;
      assert SpecOf(Deserialized(d)) == SpecOf(d);
    }
  }

  /** A valid payload with a number for its specification. */
  const NUMERIC_SPEC: Dict := map[
    SchemaVersion := Int(1), KeyVoltage := Int(50), KeyCurrent := Int(0), KeySoc := Int(50), KeyPower := Int(0),
    KeyEnergyIn := Int(0), KeyEnergyOut := Int(0), KeySpec := Int(48), Batteries := List([])]

  /** It fails as long as no specification has been taken. */
  lemma NumericSpecFails(s: State, now: real, parse: SpecParser)
    ensures ValidPayload(NUMERIC_SPEC)
    ensures Process(s, Object(NUMERIC_SPEC), now, parse).1 == if s.derived then Updated else Failed
  {
    hide Deserialized, ValidPayload;
    var d := NUMERIC_SPEC;
    NumericSpecValid();
    GateIsExact(s, Object(d), now, parse);
    assert SpecOf(Deserialized(d)) == SpecOf(d);
  }

  lemma NumericSpecValid()
    ensures ValidPayload(NUMERIC_SPEC)
    ensures SpecOf(NUMERIC_SPEC) == NUMERIC_SPEC[KeySpec]
  {
    forall k | 0 <= k < |REQUIRED|
      ensures HasNumber(NUMERIC_SPEC, REQUIRED[k])
    {
    }
  }

  /** The batteries are the same, in the same order, except for the derived energy and, where they had none, their list of
      cells. */
  predicate SameBatteries(sent: seq<Json>, kept: seq<Json>) {
    |kept| == |sent| && forall i :: 0 <= i < |sent| ==> KeptBattery(sent[i], kept[i])
  }

  predicate KeptBattery(sent: Json, kept: Json) {
    && sent.Object? && kept.Object?
    && (forall k :: k in kept.fields ==> k in sent.fields || k == KeyEnergyStored || k == Cells)
    && (Cells !in sent.fields ==> Cells in kept.fields && kept.fields[Cells] == List([]))
    && forall k :: k in sent.fields && k != KeyEnergyStored ==> k in kept.fields && kept.fields[k] == sent.fields[k]
  }

  lemma {:induction false} DefaultsKeep(batteries: seq<Json>, caps: Capacities)
    requires forall i :: 0 <= i < |batteries| ==> batteries[i].Object?
    requires AllComputable(BatteriesDefaults(batteries))
    ensures SameBatteries(batteries, WithEnergies(BatteriesDefaults(batteries), caps))
  {
    forall i | 0 <= i < |batteries|
      ensures KeptBattery(batteries[i], WithEnergies(BatteriesDefaults(batteries), caps)[i])
    {
      DefaultsKeepOne(batteries[i], caps);
    }
  }

  lemma DefaultsKeepOne(battery: Json, caps: Capacities)
    requires battery.Object? && Computable(BatteryDefaults(battery))
    ensures KeptBattery(battery, WithEnergy(BatteryDefaults(battery), caps))
  {
  }

  /** What is kept of an accepted payload: every top-level value as sent but for the derived energy, and the batteries. */
  lemma AcceptedIsKept(s: State, payload: Json, now: real, parse: SpecParser)
    requires Process(s, payload, now, parse).1 == Updated
    ensures payload.Object? && ValidPayload(payload.fields)
    ensures var d, t := payload.fields, Process(s, payload, now, parse).0;
            && t.data.Some? && HasBatteries(t.data.value)
            && (forall k :: k in d && k != Batteries && k != KeyEnergyStored ==> k in t.data.value && t.data.value[k] == d[k])
            && (forall k :: k in t.data.value ==> k in d || k == KeyEnergyStored)
            && SameBatteries(d[Batteries].items, t.data.value[Batteries].items)
  {
    hide ValidPayload, HasBatteries, SameBatteries, BatteriesDefaults, WithEnergies, TotalEnergy;
    var d, t := payload.fields, Process(s, payload, now, parse).0;
    DeserializedComputes(d);
    DeserializedKeys(d);
    RecomputedKeys(Deserialized(d), Capacities(t.own, t.default));
    BatteriesKept(d, Capacities(t.own, t.default));
  }

  lemma DeserializedKeys(d: Dict)
    requires ValidPayload(d)
    ensures forall k :: k in Deserialized(d) ==> k in d || k == KeyEnergyStored
  {
    hide ValidPayload, NotNegativeAt, PercentAt;
    ValidSpelledOut(d);
    assert NotNegativeAt(d, KeyVoltage) && PercentAt(d, KeySoc) && NotNegativeAt(d, KeyEnergyIn) && NotNegativeAt(d, KeyEnergyOut);
    KeysThere(d);
  }

  lemma KeysThere(d: Dict)
    ensures NotNegativeAt(d, KeyVoltage) ==> KeyVoltage in d
    ensures PercentAt(d, KeySoc) ==> KeySoc in d
    ensures NotNegativeAt(d, KeyEnergyIn) ==> KeyEnergyIn in d
    ensures NotNegativeAt(d, KeyEnergyOut) ==> KeyEnergyOut in d
  {
  }

  lemma RecomputedKeys(system: Dict, caps: Capacities)
    requires HasBatteries(system)
    ensures var r := Recomputed(system, caps);
            && (forall k :: k in r ==> k in system || k == KeyEnergyStored)
            && (forall k :: k in system ==> k in r)
            && (forall k :: k in system && k != Batteries && k != KeyEnergyStored ==> r[k] == system[k])
            && Batteries in r && r[Batteries] == List(WithEnergies(system[Batteries].items, caps))
  {
    hide WithEnergies, TotalEnergy, AllComputable;
  }

  lemma BatteriesKept(d: Dict, caps: Capacities)
    requires ValidPayload(d) && AllComputable(BatteriesDefaults(d[Batteries].items))
    ensures SameBatteries(d[Batteries].items, WithEnergies(BatteriesDefaults(d[Batteries].items), caps))
  {
    hide SameBatteries, BatteriesDefaults, WithEnergies, AllComputable;
    DefaultsKeep(d[Batteries].items, caps);
  }

  /** After every accepted payload the system's stored energy is the exact sum over its batteries. */
  lemma AcceptedEnergyExact(s: State, payload: Json, now: real, parse: SpecParser)
    requires Process(s, payload, now, parse).1 == Updated
    ensures var t := Process(s, payload, now, parse).0;
            && t.data.Some? && HasBatteries(t.data.value) && KeyEnergyStored in t.data.value
            && t.data.value[KeyEnergyStored] == Float(SumOfEnergies(t.data.value[Batteries].items))
            && Recomputed(t.data.value, Capacities(t.own, t.default)) == t.data.value
  {
    var t := Process(s, payload, now, parse).0;
    var caps, system := Capacities(t.own, t.default), Deserialized(payload.fields);
    DeserializedComputes(payload.fields);
    StoredEnergyIsExact(system, caps);
    RecomputeIdempotent(system, caps);
  }

  // What the energies are

  lemma Percent(capacity: real, soc: real)
    ensures capacity * (soc / 100.0) == capacity * soc / 100.0
  {
  }

  lemma StoredIs(capacity: real, soc: real)
    ensures var x := StoredEnergy(capacity, soc);
            WholeNumber(x * 1000.0) && -0.0005 <= x - capacity * soc / 100.0 <= 0.0005
  {
    hide Round;
    Thousandths(capacity * (soc / 100.0));
    Percent(capacity, soc);
  }

  /** A battery's energy is its capacity, its own or else the default, times its state of charge in percent, in whole
      watt-hours to the nearest. */
  predicate EnergyFits(battery: Json, own: map<int, real>, default: real) {
    && battery.Object? && HasId(battery.fields, KeySysId)
    && KeySoc in battery.fields && IsNumber(battery.fields[KeySoc])
    && KeyEnergyStored in battery.fields && battery.fields[KeyEnergyStored].Float?
    && var x, id := battery.fields[KeyEnergyStored].x, battery.fields[KeySysId].n;
       var capacity := if id in own then own[id] else default;
       WholeNumber(x * 1000.0) && -0.0005 <= x - capacity * Number(battery.fields[KeySoc]) / 100.0 <= 0.0005
  }

  predicate EnergiesFit(system: Dict, own: map<int, real>, default: real) {
    && Batteries in system && system[Batteries].List?
    && forall i :: 0 <= i < |system[Batteries].items| ==>
         system[Batteries].items[i].Object?
         && (HasNoId(system[Batteries].items[i].fields) || EnergyFits(system[Batteries].items[i], own, default))
  }

  lemma BatteryFits(battery: Json, own: map<int, real>, default: real)
    requires Computable(battery) && !HasNoId(battery.fields)
    ensures EnergyFits(WithEnergy(battery, Capacities(own, default)), own, default)
  {
    hide StoredEnergy;
    var id := battery.fields[KeySysId].n;
    StoredIs(if id in own then own[id] else default, Number(battery.fields[KeySoc]));
  }

  lemma RecomputedFits(system: Dict, own: map<int, real>, default: real)
    requires HasBatteries(system)
    ensures EnergiesFit(Recomputed(system, Capacities(own, default)), own, default)
  {
    hide EnergyFits;
    var caps := Capacities(own, default);
    var items := Recomputed(system, caps)[Batteries].items;
    forall i | 0 <= i < |items|
      ensures items[i].Object? && (HasNoId(items[i].fields) || EnergyFits(items[i], own, default))
    {
      var battery := system[Batteries].items[i];
      assert Computable(battery) && items[i] == WithEnergy(battery, caps);
      if !HasNoId(battery.fields) {
        BatteryFits(battery, own, default);
      }
    }
  }

  /** A battery whose id is missing or null is passed over: it stays as it is and adds nothing. */
  lemma PassedOver(battery: Json, caps: Capacities)
    requires battery.Object? && (KeySysId !in battery.fields || battery.fields[KeySysId] == Null)
    ensures Computable(battery) && WithEnergy(battery, caps) == battery && EnergyOf(battery, caps) == 0.0
  {
  }

  /** After every accepted payload each battery that was sent carries the energy of its capacity and of the state of charge
      it was sent with. */
  lemma AcceptedEnergies(s: State, payload: Json, now: real, parse: SpecParser, i: nat)
    requires Process(s, payload, now, parse).1 == Updated && payload.Object? && ValidPayload(payload.fields)
    requires i < |payload.fields[Batteries].items|
    ensures var t, sent := Process(s, payload, now, parse).0, payload.fields[Batteries].items[i];
            && t.data.Some? && Batteries in t.data.value && t.data.value[Batteries].List?
            && |t.data.value[Batteries].items| == |payload.fields[Batteries].items|
            && (var kept := t.data.value[Batteries].items[i];
                && EnergyFits(kept, t.own, t.default)
                && KeySysId in sent.fields && kept.fields[KeySysId] == sent.fields[KeySysId]
                && KeySoc in sent.fields && kept.fields[KeySoc] == sent.fields[KeySoc])
  {
    hide EnergyFits, NumberProblem;
    var t, items := Process(s, payload, now, parse).0, payload.fields[Batteries].items;
    AcceptedIsKept(s, payload, now, parse);
    DeserializedComputes(payload.fields);
    RecomputedFits(Deserialized(payload.fields), t.own, t.default);
    SocRequired(items[i]);
    assert KeptBattery(items[i], t.data.value[Batteries].items[i]);
  }

  /** So do all the batteries, with the capacities the coordinator then has. */
  lemma AcceptedFits(s: State, payload: Json, now: real, parse: SpecParser)
    requires Process(s, payload, now, parse).1 == Updated
    ensures var t := Process(s, payload, now, parse).0; t.data.Some? && EnergiesFit(t.data.value, t.own, t.default)
  {
    hide EnergyFits, NumberProblem;
    var t := Process(s, payload, now, parse).0;
    DeserializedComputes(payload.fields);
    RecomputedFits(Deserialized(payload.fields), t.own, t.default);
  }

  /** The default capacity is taken from the first specification that can be parsed, and never again; the configured ones
      stay what they are. */
  lemma CapacityTakenOnce(s: State, payload: Json, now: real, parse: SpecParser)
    ensures var (t, outcome) := Process(s, payload, now, parse);
            && t.own == s.own
            && (s.derived ==> t.derived && t.default == s.default)
            && (outcome == Updated && !s.derived ==>
                 var spec := if KeySpec in payload.fields then payload.fields[KeySpec] else Null;
                 if spec.Str? && spec.s != "" && parse(spec.s).Some?
                 then t.derived && t.default == parse(spec.s).value
                 else !t.derived && t.default == s.default)
  {
    hide ValidPayload, Recomputed;
    if payload.Object? && ValidPayload(payload.fields) {
      var d := payload.fields;
      assert KeySpec in Deserialized(d) <==> KeySpec in d;
      assert SpecOf(Deserialized(d)) == SpecOf(d);
    }
  }

  // Freshness

  const STALE_TIMEOUT := 300.0

  /** Nothing valid has arrived for longer than the timeout. */
  predicate Stale(last: Option<real>, now: real) {
    last.Some? && now - last.value > STALE_TIMEOUT
  }

  function AfterWatchdog(s: State, now: real): State {
    if s.available && Stale(s.last, now) then s.(available := false) else s
  }

  /** A library refresh: fails without data, and otherwise counts as a successful update. */
  function AfterRefresh(s: State): State
    requires s.data.Some? ==> HasBatteries(s.data.value)
  {
    match s.data
    case None => s.(available := false)
    case Some(system) => s.(data := Some(Recomputed(system, Capacities(s.own, s.default))), available := true)
  }

  /** A refresh, asked for when a capacity has been configured, brings the energies up to date and makes no message of it;
      before any payload it only makes the coordinator unavailable. */
  lemma RefreshIs(s: State)
    requires s.data.Some? ==> HasBatteries(s.data.value)
    ensures var t := AfterRefresh(s);
            && t.last == s.last && t.own == s.own && t.default == s.default && t.derived == s.derived
            && (t.available <==> s.data.Some?) && (t.data.Some? <==> s.data.Some?)
            && (t.data.Some? ==>
                 && EnergiesFit(t.data.value, s.own, s.default)
                 && (forall k :: k in s.data.value && k != Batteries && k != KeyEnergyStored ==>
                       k in t.data.value && t.data.value[k] == s.data.value[k]))
  {
    if s.data.Some? {
      RecomputedFits(s.data.value, s.own, s.default);
    }
  }

  /** One pass of the loop over the batteries. */
  method StoreEnergy(battery: Json, caps: Capacities) returns (r: Json, stored: real)
    requires Computable(battery)
    ensures r == WithEnergy(battery, caps) && stored == EnergyOf(battery, caps)
  {
    if HasNoId(battery.fields) {
      return battery, 0.0;
    }
    stored := EnergyOf(battery, caps);
    r := Object(battery.fields[KeyEnergyStored := Float(stored)]);
  }

  /** The loop of _compute_energy_stored. */
  method StoreEnergies(batteries: seq<Json>, caps: Capacities) returns (r: seq<Json>, total: real)
    requires AllComputable(batteries)
    ensures r == WithEnergies(batteries, caps) && total == TotalEnergy(batteries, caps)
  {
    r, total := [], 0.0;
    for i := 0 to |batteries|
      invariant r == WithEnergies(batteries[..i], caps) && total == TotalEnergy(batteries[..i], caps)
    {
      assert batteries[..i + 1][..i] == batteries[..i];
      var battery, stored := StoreEnergy(batteries[i], caps);
      r, total := r + [battery], total + stored;
    }
    assert batteries[..|batteries|] == batteries;
  }

  class PylontechCoordinator {
    var data: Option<Dict>
    var lastUpdateSuccess: bool
    var lastMessage: Option<real>
    var batteryCapacities: map<int, real>
    var defaultCapacity: real
    var autoCapacitySet: bool

    constructor (capacity: real)
      ensures View() == State(None, false, None, map[], capacity, false)
    {
      data, lastUpdateSuccess, lastMessage := None, false, None;
      batteryCapacities, defaultCapacity, autoCapacitySet := map[], capacity, false;
    }

    function View(): State
      reads this
    {
      State(data, lastUpdateSuccess, lastMessage, batteryCapacities, defaultCapacity, autoCapacitySet)
    }

    /** _compute_energy_stored */
    method ComputeEnergyStored(system: Dict) returns (r: Dict)
      requires HasBatteries(system)
      ensures r == Recomputed(system, Capacities(batteryCapacities, defaultCapacity))
    {
      var batteries, total := StoreEnergies(system[Batteries].items, Capacities(batteryCapacities, defaultCapacity));
      r := system[Batteries := List(batteries)][KeyEnergyStored := Float(Round(total, 3))];
    }

    /** The default capacity, taken once from the first specification that can be parsed. */
    method DeriveCapacity(spec: Json, parse: SpecParser) returns (raised: bool)
      modifies `defaultCapacity, `autoCapacitySet
      ensures raised == SpecRaises(old(View()), spec)
      ensures View() == if raised then old(View()) else AfterSpec(old(View()), spec, parse)
    {
      raised := false;
      if !autoCapacitySet && Truthy(spec) {
        if !spec.Str? {
          return true;
        }
        var capacity := parse(spec.s);
        if capacity.Some? {
          defaultCapacity := capacity.value;
          autoCapacitySet := true;
        }
      }
    }

    /** _process_payload */
    method ProcessPayload(payload: Json, now: real, parse: SpecParser) returns (outcome: Outcome)
      modifies this
      ensures (View(), outcome) == Process(old(View()), payload, now, parse)
    {
      hide ValidPayload;
      if !payload.Object? {
        return Dropped;
      }
      var problem := ValidateStatePayload(payload.fields);
      if problem.Some? {
        return Rejected;
      }
      var system := Deserialized(payload.fields);
      DeserializedComputes(payload.fields);
      var raised := DeriveCapacity(SpecOf(system), parse);
      if raised {
        return Failed;
      }
      system := ComputeEnergyStored(system);
      data, lastUpdateSuccess, lastMessage := Some(system), true, Some(now);
      outcome := Updated;
    }

    method MarkAvailable()
      modifies `lastUpdateSuccess
      ensures View() == old(View()).(available := true)
    {
      lastUpdateSuccess := true;
    }

    method MarkUnavailable()
      modifies `lastUpdateSuccess
      ensures View() == old(View()).(available := false)
    {
      lastUpdateSuccess := false;
    }

    /** _check_staleness */
    method CheckStaleness(now: real)
      modifies `lastUpdateSuccess
      ensures View() == AfterWatchdog(old(View()), now)
    {
      if !lastUpdateSuccess || lastMessage.None? {
        return;
      }
      if now - lastMessage.value > STALE_TIMEOUT {
        MarkUnavailable();
      }
    }

    /** _async_update_data, and what the library does with its result. */
    method Refresh()
      requires data.Some? ==> HasBatteries(data.value)
      modifies this
      ensures View() == AfterRefresh(old(View()))
    {
      if data.None? {
        lastUpdateSuccess := false;
        return;
      }
      var system := ComputeEnergyStored(data.value);
      data, lastUpdateSuccess := Some(system), true;
    }

    method SetBatteryCapacity(id: int, capacity: real)
      modifies `batteryCapacities
      ensures View() == old(View()).(own := old(batteryCapacities)[id := capacity])
    {
      batteryCapacities := batteryCapacities[id := capacity];
    }
  }

  // Lookups

  predicate WithId(item: Json, key: Key, id: int) {
    item.Object? && HasId(item.fields, key) && item.fields[key].n == id
  }

  /** Item i is the first with the id. */
  predicate FirstAt(items: seq<Json>, key: Key, id: int, i: nat) {
    i < |items| && WithId(items[i], key, id) && forall j :: 0 <= j < i ==> !WithId(items[j], key, id)
  }

  /** find_battery and find_cell */
  method FirstWith(items: seq<Json>, key: Key, id: int) returns (r: Option<Json>)
    ensures r.None? ==> forall i :: 0 <= i < |items| ==> !WithId(items[i], key, id)
    ensures r.Some? ==> exists i :: 0 <= i < |items| && FirstAt(items, key, id, i) && items[i] == r.value
  {
    for i := 0 to |items|
      invariant forall j :: 0 <= j < i ==> !WithId(items[j], key, id)
    {
      if WithId(items[i], key, id) {
        assert FirstAt(items, key, id, i);
        return Some(items[i]);
      }
    }
    r := None;
  }
}