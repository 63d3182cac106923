/** State payloads as decoded JSON, and the integration's validator. */
module Payload {
  import opened Wrappers
  import Text

  /** The keys the integration looks at; every other one is Other. */
  datatype Key =
    | SchemaVersion | KeyVoltage | KeyCurrent | KeySoc | KeyPower | KeyEnergyIn | KeyEnergyOut | KeyEnergyStored
    | KeySpec | Batteries | KeySysId | Cells | KeyCellId | Other(name: string)

  /** NonFinite stands for NaN and the two infinities, which Python's decoder accepts. */
  datatype Json =
    | Null | Bool(b: bool) | Int(n: int) | Float(x: real) | NonFinite | Str(s: string)
    | List(items: seq<Json>) | Object(fields: Dict)

  type Dict = map<Key, Json>

  // What a valid payload is

  datatype Bound = Bound(key: Key, low: Option<int>, high: Option<int>)

  const REQUIRED: seq<Bound> := [
    Bound(KeyVoltage, Some(0), None), Bound(KeyCurrent, None, None), Bound(KeySoc, Some(0), Some(100)),
    Bound(KeyPower, None, None), Bound(KeyEnergyIn, Some(0), None), Bound(KeyEnergyOut, Some(0), None)]

  const REQUIRED_OF_BATTERY: seq<Bound> := [
    Bound(KeyVoltage, Some(0), None), Bound(KeyCurrent, None, None), Bound(KeySoc, Some(0), Some(100)),
    Bound(KeyPower, None, None)]

  const MAX_CELLS_PER_BATTERY := 32

  predicate IsNumber(v: Json) {
    v.Int? || v.Float?
  }

  function Number(v: Json): real
    requires IsNumber(v)
  {
    if v.Int? then v.n as real else v.x
  }

  /** A number, and a whole one no larger than floats reach: math.isfinite raises OverflowError on any other. */
  predicate InBounds(v: Json, bound: Bound) {
    && IsNumber(v) && (v.Int? ==> !Text.BeyondFloat(v.n))
    && (bound.low.Some? ==> Number(v) >= bound.low.value as real)
    && (bound.high.Some? ==> Number(v) <= bound.high.value as real)
  }

  predicate HasNumber(d: Dict, bound: Bound) {
    bound.key in d && InBounds(d[bound.key], bound)
  }

  predicate HasNumbers(d: Dict, bounds: seq<Bound>) {
    forall k :: 0 <= k < |bounds| ==> HasNumber(d, bounds[k])
  }

  /** A whole number, which a JSON true or 1.0 is not. */
  predicate HasId(d: Dict, key: Key) {
    key in d && d[key].Int?
  }

  predicate ValidCell(cell: Json) {
    cell.Object? && HasId(cell.fields, KeyCellId)
  }

  function CellIdOf(cell: Json): int
    requires ValidCell(cell)
  {
    cell.fields[KeyCellId].n
  }

  predicate ValidCells(cells: Json) {
    && cells.List? && |cells.items| <= MAX_CELLS_PER_BATTERY
    && (forall j :: 0 <= j < |cells.items| ==> ValidCell(cells.items[j]))
    && (forall i, j :: 0 <= i < j < |cells.items| ==> CellIdOf(cells.items[i]) != CellIdOf(cells.items[j]))
  }

  predicate ValidBattery(battery: Json) {
    && battery.Object? && HasId(battery.fields, KeySysId) && HasNumbers(battery.fields, REQUIRED_OF_BATTERY)
    && (Cells in battery.fields ==> ValidCells(battery.fields[Cells]))
  }

  predicate ValidBatteries(d: Dict) {
    && Batteries in d && d[Batteries].List?
    && forall i :: 0 <= i < |d[Batteries].items| ==> ValidBattery(d[Batteries].items[i])
  }

  /** Python's 1 == True and 1 == 1.0 make three spellings of the supported version. */
  predicate SupportedVersion(d: Dict) {
    SchemaVersion in d && (d[SchemaVersion] == Int(1) || d[SchemaVersion] == Float(1.0) || d[SchemaVersion] == Bool(true))
  }

  predicate ValidPayload(d: Dict) {
    SupportedVersion(d) && HasNumbers(d, REQUIRED) && ValidBatteries(d)
  }

  // The validator

  /** Overflows is the OverflowError, which leaves the validator and drops the message like any other problem. */
  datatype NumberError = NotANumber | NotFinite | Overflows | BelowMinimum | AboveMaximum

  datatype BatteryError =
    | NotAnObject | BadSysId | BatteryFieldMissing(key: Key) | BatteryField(key: Key, error: NumberError)
    | CellsNotAList | TooManyCells | CellNotAnObject(j: nat) | BadCellId(j: nat) | DuplicateCellId(j: nat)

  datatype Problem =
    | WrongVersion | FieldMissing(key: Key) | BadField(key: Key, error: NumberError) | BatteriesNotAList
    | InBattery(i: nat, cause: BatteryError)

  /** _validate_number */
  function NumberProblem(v: Json, bound: Bound): (r: Option<NumberError>)
    ensures r.None? <==> InBounds(v, bound)
  {
    if v.NonFinite? then Some(NotFinite)
    else if !IsNumber(v) then Some(NotANumber)
    else if v.Int? && Text.BeyondFloat(v.n) then Some(Overflows)
    else if bound.low.Some? && Number(v) < bound.low.value as real then Some(BelowMinimum)
    else if bound.high.Some? && Number(v) > bound.high.value as real then Some(AboveMaximum)
    else None
  }

  /** Bound k is the first that the dict does not meet. */
  predicate FirstBad(d: Dict, bounds: seq<Bound>, k: nat) {
    k < |bounds| && !HasNumber(d, bounds[k]) && forall i :: 0 <= i < k ==> HasNumber(d, bounds[i])
  }

  /** The first bound not met is the key's, and this is what is wrong with its value, if it has one. */
  predicate NumberNamed(d: Dict, bounds: seq<Bound>, key: Key, error: Option<NumberError>) {
    exists k :: 0 <= k < |bounds| && FirstBad(d, bounds, k) && bounds[k].key == key
             && error == if key in d then NumberProblem(d[key], bounds[k]) else None
  }

  method CheckNumbers(d: Dict, bounds: seq<Bound>) returns (k: nat)
    ensures k <= |bounds|
    ensures if k < |bounds| then FirstBad(d, bounds, k) else HasNumbers(d, bounds)
  {
    k := 0;
    while k < |bounds| && bounds[k].key in d && NumberProblem(d[bounds[k].key], bounds[k]).None?
      invariant k <= |bounds|
      invariant forall i :: 0 <= i < k ==> HasNumber(d, bounds[i])
    {
      k := k + 1;
    }
  }

  /** Items before j are cells with distinct ids. */
  predicate CellsUpTo(items: seq<Json>, j: nat)
    requires j <= |items|
  {
    && (forall i :: 0 <= i < j ==> ValidCell(items[i]))
    && (forall i, k :: 0 <= i < k < j ==> CellIdOf(items[i]) != CellIdOf(items[k]))
  }

  /** The error is the first thing wrong with the cells. */
  predicate CellsNamed(cells: Json, error: BatteryError) {
    match error
    case CellsNotAList => !cells.List?
    case TooManyCells => cells.List? && |cells.items| > MAX_CELLS_PER_BATTERY
    case CellNotAnObject(j) => AtCell(cells, j) && !cells.items[j].Object?
    case BadCellId(j) => AtCell(cells, j) && cells.items[j].Object? && !HasId(cells.items[j].fields, KeyCellId)
    case DuplicateCellId(j) =>
      && AtCell(cells, j) && ValidCell(cells.items[j])
      && exists i :: 0 <= i < j && CellIdOf(cells.items[i]) == CellIdOf(cells.items[j])
    case _ => false
  }

  predicate AtCell(cells: Json, j: nat) {
    cells.List? && j < |cells.items| <= MAX_CELLS_PER_BATTERY && CellsUpTo(cells.items, j)
  }

  /** The error is the first thing wrong with the battery. */
  predicate BatteryNamed(battery: Json, error: BatteryError) {
    match error
    case NotAnObject => !battery.Object?
    case BadSysId => battery.Object? && !HasId(battery.fields, KeySysId)
    case BatteryFieldMissing(key) =>
      battery.Object? && HasId(battery.fields, KeySysId) && NumberNamed(battery.fields, REQUIRED_OF_BATTERY, key, None)
    case BatteryField(key, why) =>
      battery.Object? && HasId(battery.fields, KeySysId) && NumberNamed(battery.fields, REQUIRED_OF_BATTERY, key, Some(why))
    case _ =>
      && battery.Object? && HasId(battery.fields, KeySysId) && HasNumbers(battery.fields, REQUIRED_OF_BATTERY)
      && Cells in battery.fields && CellsNamed(battery.fields[Cells], error)
  }

  /** The first thing wrong with a battery's cells: the loop with the growing set of ids seen. */
  method CheckCells(cells: Json) returns (error: Option<BatteryError>)
    ensures error.None? <==> ValidCells(cells)
    ensures error.Some? ==> CellsNamed(cells, error.value)
  {
    if !cells.List? {
      return Some(CellsNotAList);
    }
    if |cells.items| > MAX_CELLS_PER_BATTERY {
      return Some(TooManyCells);
    }
    var seen: set<int> := {};
    for j := 0 to |cells.items|
      invariant CellsUpTo(cells.items, j)
      invariant forall i :: 0 <= i < j ==> CellIdOf(cells.items[i]) in seen
      invariant forall id :: id in seen ==> exists i :: 0 <= i < j && CellIdOf(cells.items[i]) == id
    {
      var cell := cells.items[j];
      if !cell.Object? {
        return Some(CellNotAnObject(j));
      }
      if !HasId(cell.fields, KeyCellId) {
        return Some(BadCellId(j));
      }
      if CellIdOf(cell) in seen {
        return Some(DuplicateCellId(j));
      }
      seen := seen + {CellIdOf(cell)};
    }
    error := None;
  }

  method CheckBattery(battery: Json) returns (error: Option<BatteryError>)
    ensures error.None? <==> ValidBattery(battery)
    ensures error.Some? ==> BatteryNamed(battery, error.value)
  {
    if !battery.Object? {
      return Some(NotAnObject);
    }
    var d := battery.fields;
    if !HasId(d, KeySysId) {
      return Some(BadSysId);
    }
    var k := CheckNumbers(d, REQUIRED_OF_BATTERY);
    if k < |REQUIRED_OF_BATTERY| {
      var bound := REQUIRED_OF_BATTERY[k];
      assert FirstBad(d, REQUIRED_OF_BATTERY, k);
      return Some(if bound.key !in d then BatteryFieldMissing(bound.key)
                  else BatteryField(bound.key, NumberProblem(d[bound.key], bound).value));
    }
    if Cells in d {
      error := CheckCells(d[Cells]);
    } else {
      error := None;
    }
  }

  /** The problem is the first thing wrong with the payload. */
  predicate Names(d: Dict, p: Problem) {
    match p
    case WrongVersion => !SupportedVersion(d)
    case FieldMissing(key) => SupportedVersion(d) && NumberNamed(d, REQUIRED, key, None)
    case BadField(key, error) => SupportedVersion(d) && NumberNamed(d, REQUIRED, key, Some(error))
    case BatteriesNotAList => SupportedVersion(d) && HasNumbers(d, REQUIRED) && !(Batteries in d && d[Batteries].List?)
    case InBattery(i, cause) =>
      && SupportedVersion(d) && HasNumbers(d, REQUIRED)
      && Batteries in d && d[Batteries].List? && i < |d[Batteries].items|
      && BatteryNamed(d[Batteries].items[i], cause)
      && forall k :: 0 <= k < i ==> ValidBattery(d[Batteries].items[k])
  }

  /** _validate_state_payload: None exactly for a valid payload, otherwise the first problem. */
  method ValidateStatePayload(d: Dict) returns (problem: Option<Problem>)
    ensures problem.None? <==> ValidPayload(d)
    ensures problem.Some? ==> Names(d, problem.value)
  {
    if !SupportedVersion(d) {
      return Some(WrongVersion);
    }
    var k := CheckNumbers(d, REQUIRED);
    if k < |REQUIRED| {
      var bound := REQUIRED[k];
      assert FirstBad(d, REQUIRED, k);
      return Some(if bound.key !in d then FieldMissing(bound.key)
                  else BadField(bound.key, NumberProblem(d[bound.key], bound).value));
    }
    if Batteries !in d || !d[Batteries].List? {
      return Some(BatteriesNotAList);
    }
    var batteries := d[Batteries].items;
    for i := 0 to |batteries|
      invariant forall k :: 0 <= k < i ==> ValidBattery(batteries[k])
    {
      var error := CheckBattery(batteries[i]);
      if error.Some? {
        return Some(InBattery(i, error.value));
      }
    }
    problem := None;
  }

  // The gate spelled out

  predicate NumberAt(d: Dict, key: Key) {
    key in d && (d[key].Float? || (d[key].Int? && !Text.BeyondFloat(d[key].n)))
  }

  predicate NotNegativeAt(d: Dict, key: Key) {
    NumberAt(d, key) && if d[key].Int? then d[key].n >= 0 else d[key].x >= 0.0
  }

  predicate PercentAt(d: Dict, key: Key) {
    NumberAt(d, key) && if d[key].Int? then 0 <= d[key].n <= 100 else 0.0 <= d[key].x <= 100.0
  }

  /** At most 32 objects, each with its own whole number. */
  predicate CellsAsAsked(cells: Json) {
    && cells.List? && |cells.items| <= 32
    && (forall i :: 0 <= i < |cells.items| ==>
          cells.items[i].Object? && KeyCellId in cells.items[i].fields && cells.items[i].fields[KeyCellId].Int?)
    && (forall i, j :: 0 <= i < |cells.items| && 0 <= j < |cells.items| && i != j ==>
          cells.items[i].fields[KeyCellId] != cells.items[j].fields[KeyCellId])
  }

  predicate BatteryAsAsked(battery: Json) {
    && battery.Object?
    && var d := battery.fields;
       && KeySysId in d && d[KeySysId].Int?
       && NotNegativeAt(d, KeyVoltage) && NumberAt(d, KeyCurrent) && PercentAt(d, KeySoc) && NumberAt(d, KeyPower)
       && (Cells in d ==> CellsAsAsked(d[Cells]))
  }

  lemma CellsSpelledOut(cells: Json)
    ensures ValidCells(cells) <==> CellsAsAsked(cells)
  {
    if cells.List? {
      if ValidCells(cells) {
        forall i | 0 <= i < |cells.items| ensures ValidCell(cells.items[i]) {}
      } else if CellsAsAsked(cells) {
        forall i | 0 <= i < |cells.items| ensures ValidCell(cells.items[i]) {}
        forall i, j | 0 <= i < j < |cells.items| ensures CellIdOf(cells.items[i]) != CellIdOf(cells.items[j]) {
          assert cells.items[i].fields[KeyCellId] != cells.items[j].fields[KeyCellId];
        }
      }
    }
  }

  lemma BatteryNumbersSpelledOut(d: Dict)
    ensures HasNumbers(d, REQUIRED_OF_BATTERY) <==>
              NotNegativeAt(d, KeyVoltage) && NumberAt(d, KeyCurrent) && PercentAt(d, KeySoc) && NumberAt(d, KeyPower)
  {
    hide Text.BeyondFloat;
    var bounds := REQUIRED_OF_BATTERY;
    assert HasNumbers(d, bounds) <==>
             HasNumber(d, bounds[0]) && HasNumber(d, bounds[1]) && HasNumber(d, bounds[2]) && HasNumber(d, bounds[3]);
  }

  lemma NumbersSpelledOut(d: Dict)
    ensures HasNumbers(d, REQUIRED) <==>
              && NotNegativeAt(d, KeyVoltage) && NumberAt(d, KeyCurrent) && PercentAt(d, KeySoc) && NumberAt(d, KeyPower)
              && NotNegativeAt(d, KeyEnergyIn) && NotNegativeAt(d, KeyEnergyOut)
  {
    hide Text.BeyondFloat;
    var bounds := REQUIRED;
    assert HasNumbers(d, bounds) <==>
             && HasNumber(d, bounds[0]) && HasNumber(d, bounds[1]) && HasNumber(d, bounds[2]) && HasNumber(d, bounds[3])
             && HasNumber(d, bounds[4]) && HasNumber(d, bounds[5]);
  }

  /** What the validator lets through, field by field. */
  lemma ValidSpelledOut(d: Dict)
    ensures ValidPayload(d) <==>
              && SchemaVersion in d
              && (d[SchemaVersion] == Int(1) || d[SchemaVersion] == Float(1.0) || d[SchemaVersion] == Bool(true))
              && NotNegativeAt(d, KeyVoltage) && NumberAt(d, KeyCurrent) && PercentAt(d, KeySoc) && NumberAt(d, KeyPower)
              && NotNegativeAt(d, KeyEnergyIn) && NotNegativeAt(d, KeyEnergyOut)
              && Batteries in d && d[Batteries].List?
              && forall i :: 0 <= i < |d[Batteries].items| ==> BatteryAsAsked(d[Batteries].items[i])
  {
    hide HasNumbers, NumberAt, NotNegativeAt, PercentAt, ValidBattery, BatteryAsAsked;
    NumbersSpelledOut(d);
    if Batteries in d && d[Batteries].List? {
      forall i | 0 <= i < |d[Batteries].items|
        ensures ValidBattery(d[Batteries].items[i]) <==> BatteryAsAsked(d[Batteries].items[i])
      {
        BatterySpelledOut(d[Batteries].items[i]);
      }
    }
  }

  lemma BatterySpelledOut(battery: Json)
    ensures ValidBattery(battery) <==> BatteryAsAsked(battery)
  {
    hide HasNumbers, NumberAt, NotNegativeAt, PercentAt, ValidCells, CellsAsAsked;
    if battery.Object? {
      BatteryNumbersSpelledOut(battery.fields);
      if Cells in battery.fields {
        CellsSpelledOut(battery.fields[Cells]);
      }
    }
  }

  /** What each complaint about a number means, for a field with bounds that do not cross. */
  lemma ComplaintMeans(v: Json, bound: Bound)
    requires bound.low.Some? && bound.high.Some? ==> bound.low.value <= bound.high.value
    ensures var p := NumberProblem(v, bound);
            var finite := v.Float? || (v.Int? && !Text.BeyondFloat(v.n));
            && (p == Some(NotFinite) <==> v.NonFinite?)
            && (p == Some(NotANumber) <==> !v.NonFinite? && !v.Int? && !v.Float?)
            && (p == Some(Overflows) <==> v.Int? && Text.BeyondFloat(v.n))
            && (p == Some(BelowMinimum) <==>
                 finite && bound.low.Some? && (if v.Int? then v.n < bound.low.value else v.x < bound.low.value as real))
            && (p == Some(AboveMaximum) <==>
                 finite && bound.high.Some? && (if v.Int? then v.n > bound.high.value else v.x > bound.high.value as real))
  {
    hide Text.BeyondFloat;
  }
}
