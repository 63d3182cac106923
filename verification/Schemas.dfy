/** The schemas of src/parser_schema.py and the records of src/structs.py they build. */
module Schemas {
  import opened Search
  import opened Wrappers
  import opened Text
  import opened Table
  import opened Rounding

  // Records

  datatype Cell = Cell(
    cellId: int, voltage: real, current: real, temperature: real, baseState: string,
    voltStatus: Option<string>, currStatus: Option<string>, tempStatus: Option<string>,
    soc: int, capacity: Option<int>)

  datatype Battery = Battery(
    sysId: int, voltage: real, current: real, temperature: real, soc: int, status: string,
    power: real, energyStored: real,
    tempLow: Option<real>, tempHigh: Option<real>, voltLow: Option<real>, voltHigh: Option<real>,
    voltStatus: Option<string>, currStatus: Option<string>, tempStatus: Option<string>,
    battVoltStatus: Option<string>, battTempStatus: Option<string>,
    coulStatus: Option<string>, batEvents: Option<int>, powerEvents: Option<int>, sysFault: Option<int>,
    cells: seq<Cell>)

  // Reading values out of a row's dict

  type Values<F> = map<F, Value>

  function GetWhole<F>(v: Values<F>, key: F): Result<int, Fault<F>> {
    if key !in v then Err(MissingKey(key)) else if v[key].Whole? then Ok(v[key].n) else Err(WrongType(key))
  }

  function GetDecimal<F>(v: Values<F>, key: F): Result<real, Fault<F>> {
    if key !in v then Err(MissingKey(key)) else if v[key].Decimal? then Ok(v[key].x) else Err(WrongType(key))
  }

  function GetWord<F>(v: Values<F>, key: F): Result<string, Fault<F>> {
    if key !in v then Err(MissingKey(key)) else if v[key].Word? then Ok(v[key].s) else Err(WrongType(key))
  }

  /** v.get(key) of a cell that is text or None. */
  function OptWord<F>(v: Values<F>, key: F): Option<string> {
    if key in v && v[key].Word? then Some(v[key].s) else None
  }

  function OptDecimal<F>(v: Values<F>, key: F): Option<real> {
    if key in v && v[key].Decimal? then Some(v[key].x) else None
  }

  function OptWhole<F>(v: Values<F>, key: F): Option<int> {
    if key in v && v[key].Whole? then Some(v[key].n) else None
  }

  // The pwr table

  datatype PwrField =
    | SysId | Voltage | Current | Temperature | TempLow | TempHigh | VoltLow | VoltHigh | Status
    | VoltStatus | CurrStatus | TempStatus | Soc | BattVoltStatus | BattTempStatus

  /** A battery's power in watts, to two decimals. */
  function Power(voltage: real, current: real): real {
    Round(voltage * current, 2)
  }

  function BuildBatteryFromPwrRow(v: Values<PwrField>): Result<Battery, Fault<PwrField>> {
    match (GetWhole(v, SysId), GetDecimal(v, Voltage), GetDecimal(v, Current), GetDecimal(v, Temperature),
           GetWhole(v, Soc), GetWord(v, Status))
    case (Ok(sysId), Ok(voltage), Ok(current), Ok(temperature), Ok(soc), Ok(status)) =>
      Ok(Battery(sysId, voltage, current, temperature, soc, status, Power(voltage, current), 0.0,
                 OptDecimal(v, TempLow), OptDecimal(v, TempHigh), OptDecimal(v, VoltLow), OptDecimal(v, VoltHigh),
                 OptWord(v, VoltStatus), OptWord(v, CurrStatus), OptWord(v, TempStatus),
                 OptWord(v, BattVoltStatus), OptWord(v, BattTempStatus), None, None, None, None, []))
    case (Err(f), _, _, _, _, _) => Err(f)
    case (_, Err(f), _, _, _, _) => Err(f)
    case (_, _, Err(f), _, _, _) => Err(f)
    case (_, _, _, Err(f), _, _) => Err(f)
    case (_, _, _, _, Err(f), _) => Err(f)
    case (_, _, _, _, _, Err(f)) => Err(f)
  }

  function Column<F>(header: Row, field: F, defaultIndex: nat, transform: Transform): ColumnSpec<F> {
    ColumnSpec(header, 1, Some(field), Some(defaultIndex), Some(transform))
  }

  const PWR_COLUMNS: seq<ColumnSpec<PwrField>> := [
    Column(["Power"], SysId, 0, RequiredInt),
    Column(["Volt"], Voltage, 1, RequiredMilli),
    Column(["Curr"], Current, 2, RequiredMilli),
    Column(["Tempr"], Temperature, 3, RequiredMilli),
    Column(["Tlow"], TempLow, 4, OptionalMilli),
    Column(["Thigh"], TempHigh, 5, OptionalMilli),
    Column(["Vlow"], VoltLow, 6, OptionalMilli),
    Column(["Vhigh"], VoltHigh, 7, OptionalMilli),
    Column(["Base.St"], Status, 8, RequiredStr),
    Column(["Volt.St"], VoltStatus, 9, OptionalStatus),
    Column(["Curr.St"], CurrStatus, 10, OptionalStatus),
    Column(["Temp.St"], TempStatus, 11, OptionalStatus),
    Column(["Coulomb"], Soc, 12, RequiredPercentInt),
    ColumnSpec(["Time"], 2, None, None, None),
    Column(["B.V.St"], BattVoltStatus, 15, OptionalStatus),
    Column(["B.T.St"], BattTempStatus, 16, OptionalStatus)]

  function NoPostprocess<F>(indices: Indices<F>, seen: Row): Result<Indices<F>, Fault<F>> {
    Ok(indices)
  }

  function PwrTable(): TableSchema<PwrField, Battery> {
    TableSchema("Power", "Coulomb", PWR_COLUMNS,
                parts => |parts| > 10 && AllDigits(parts[0]),
                BuildBatteryFromPwrRow,
                line => Contains(line, "Absent"),
                None, NoPostprocess)
  }

  // System totals

  datatype Totals = Totals(voltage: real, current: real, soc: real, power: real)

  /** The sum of a measure over batteries. */
  function Sum(batteries: seq<Battery>, measure: Battery -> real): real {
    if batteries == [] then 0.0
    else Sum(batteries[..|batteries| - 1], measure) + measure(batteries[|batteries| - 1])
  }

  function Mean(total: real, n: nat): real
    requires n >= 1
  {
    total / n as real
  }

  /** _aggregate_pwr: the fields it sets beside the battery list. */
  function AggregatePwr(batteries: seq<Battery>): Totals {
    if batteries == [] then Totals(0.0, 0.0, 0.0, 0.0)
    else
      Totals(Round(Mean(Sum(batteries, (x: Battery) => x.voltage), |batteries|), 2),
             Round(Sum(batteries, (x: Battery) => x.current), 2),
             Round(Mean(Sum(batteries, (x: Battery) => x.soc as real), |batteries|), 1),
             Round(Sum(batteries, (x: Battery) => x.power), 1))
  }

  /** The mean state of charge, of unbounded whole numbers, is beyond any float: its division raises OverflowError. */
  predicate AggregateOverflows(batteries: seq<Battery>) {
    batteries != []
    && (var mean := Mean(Sum(batteries, (x: Battery) => x.soc as real), |batteries|);
        mean >= FLOAT_LIMIT as real || mean <= -(FLOAT_LIMIT as real))
  }

  // The bat table

  datatype BatField =
    | CellId | CellVoltage | CellCurrent | CellTemperature | BaseState
    | CellVoltStatus | CellCurrStatus | CellTempStatus | CellSoc | Capacity

  function BuildCellFromBatRow(v: Values<BatField>): Result<Cell, Fault<BatField>> {
    match (GetWhole(v, CellId), GetDecimal(v, CellVoltage), GetDecimal(v, CellCurrent), GetDecimal(v, CellTemperature),
           GetWord(v, BaseState))
    case (Ok(cellId), Ok(voltage), Ok(current), Ok(temperature), Ok(baseState)) =>
      Ok(Cell(cellId, voltage, current, temperature, baseState,
              OptWord(v, CellVoltStatus), OptWord(v, CellCurrStatus), OptWord(v, CellTempStatus),
              OptWhole(v, CellSoc).GetOr(0), OptWhole(v, Capacity)))
    case (Err(f), _, _, _, _) => Err(f)
    case (_, Err(f), _, _, _) => Err(f)
    case (_, _, Err(f), _, _) => Err(f)
    case (_, _, _, Err(f), _) => Err(f)
    case (_, _, _, _, Err(f)) => Err(f)
  }

  const BAT_COLUMNS: seq<ColumnSpec<BatField>> := [
    Column(["Battery"], CellId, 0, RequiredInt),
    Column(["Volt"], CellVoltage, 1, RequiredMilli),
    Column(["Curr"], CellCurrent, 2, RequiredMilli),
    Column(["Tempr"], CellTemperature, 3, RequiredMilli),
    Column(["Base", "State"], BaseState, 4, RequiredStr),
    Column(["Volt.", "State"], CellVoltStatus, 5, OptionalStrByBounds),
    Column(["Curr.", "State"], CellCurrStatus, 6, OptionalStrByBounds),
    Column(["Temp.", "State"], CellTempStatus, 7, OptionalStrByBounds),
    Column(["SOC"], CellSoc, 8, PercentIntOrZero),
    Column(["Coulomb"], Capacity, 9, OptionalIntByBounds)]

  /** Firmware that leaves out the SOC label still prints the percentage just before the Coulomb value. */
  function BatHeaderPostprocess(indices: Indices<BatField>, seen: Row): Result<Indices<BatField>, Fault<BatField>> {
    if "SOC" in seen then Ok(indices)
    else if Capacity !in indices then Err(MissingKey(Capacity))
    else Ok(indices[CellSoc := indices[Capacity]][Capacity := indices[Capacity] + 1])
  }

  function BatTable(): TableSchema<BatField, Cell> {
    TableSchema("Battery", "Coulomb", BAT_COLUMNS,
                parts => parts != [] && AllDigits(parts[0]),
                BuildCellFromBatRow,
                line => false,
                Some(CellSoc), BatHeaderPostprocess)
  }
}
