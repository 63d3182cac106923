/** The "key: value" block engine of src/parser.py and the schema of the vertical "pwr N" response. */
module KeyValue {
  import opened Search
  import opened Wrappers
  import opened Text
  import opened Table
  import opened Schemas

  type RawFields = map<string, string>

  datatype KVField<F> = KVField(
    key: string, field: F, transform: Option<string -> Result<Value, CellError>>, required: bool, default: Value)

  datatype KeyValueSchema<!F, !T> = KeyValueSchema(
    notFoundMarker: string,
    invalidIf: RawFields -> bool,
    fields: seq<KVField<F>>,
    rowFactory: map<F, Value> -> Result<T, Fault<F>>)

  // Lines

  function UntilColon(line: string): nat {
    Until(line, (c: char) => c == ':')
  }

  /** The key of a line and the first token of its value, if it has both. */
  function LineField(line: string): Option<(string, string)> {
    var i := UntilColon(line);
    if i == |line| then None
    else
      var key, tokens := Strip(line[..i]), Split(line[i + 1..]);
      if key == "" || tokens == [] then None else Some((key, tokens[0]))
  }

  /** The dict after the lines; a repeated key keeps its last value. */
  function Fields(lines: seq<string>): RawFields {
    if lines == [] then map[]
    else
      var before, last := Fields(lines[..|lines| - 1]), LineField(lines[|lines| - 1]);
      if last.None? then before else before[last.value.0 := last.value.1]
  }

  // Values

  /** The value of one declared field; None when the whole block is to be given up or an OverflowError is raised. */
  function FieldValue<F>(kv: KVField<F>, raw: RawFields): Option<Value> {
    var read :=
      if kv.key !in raw then None
      else if kv.transform.None? then Some(Word(raw[kv.key]))
      else
        match kv.transform.value(raw[kv.key])
        case Ok(v) => Some(v)
        case Err(_) => None;
    if read.Some? then read else if kv.required || FieldOverflows(kv, raw) then None else Some(kv.default)
  }

  /** The field's transform raises OverflowError. */
  predicate FieldOverflows<F>(kv: KVField<F>, raw: RawFields) {
    kv.key in raw && kv.transform.Some? && kv.transform.value(raw[kv.key]) == Err(TooLarge)
  }

  function BlockValues<F>(fields: seq<KVField<F>>, raw: RawFields, extra: map<F, Value>, n: nat): Option<map<F, Value>>
    requires n <= |fields|
  {
    if n == 0 then Some(extra)
    else
      var before := BlockValues(fields, raw, extra, n - 1);
      if before.None? then None
      else
        match FieldValue(fields[n - 1], raw)
        case None => None
        case Some(v) => Some(before.value[fields[n - 1].field := v])
  }

  /** The first of the first n fields without a value raised OverflowError. */
  predicate BlockOverflows<F>(fields: seq<KVField<F>>, raw: RawFields, extra: map<F, Value>, n: nat)
    requires n <= |fields|
  {
    n > 0
    && if BlockValues(fields, raw, extra, n - 1).None? then BlockOverflows(fields, raw, extra, n - 1)
       else FieldOverflows(fields[n - 1], raw)
  }

  /** The object of a block, or None. */
  function Block<F, T>(schema: KeyValueSchema<F, T>, text: string, extra: map<F, Value>): Result<Option<T>, Fault<F>> {
    var raw := Fields(SplitLines(text));
    if Contains(text, schema.notFoundMarker) || raw == map[] || schema.invalidIf(raw) then Ok(None)
    else
      match BlockValues(schema.fields, raw, extra, |schema.fields|)
      case None => if BlockOverflows(schema.fields, raw, extra, |schema.fields|) then Err(Overflow) else Ok(None)
      case Some(values) =>
        match schema.rowFactory(values)
        case Ok(row) => Ok(Some(row))
        case Err(fault) => Err(fault)
  }

  // The loops

  method ReadFields(lines: seq<string>) returns (raw: RawFields)
    ensures raw == Fields(lines)
  {
    raw := map[];
    for i := 0 to |lines|
      invariant raw == Fields(lines[..i])
    {
      var field := LineField(lines[i]);
      assert lines[..i + 1][..i] == lines[..i];
      if field.Some? {
        raw := raw[field.value.0 := field.value.1];
      }
    }
    assert lines[..|lines|] == lines;
  }

  method ReadValues<F>(fields: seq<KVField<F>>, raw: RawFields, extra: map<F, Value>)
    returns (r: Option<map<F, Value>>, overflow: bool)
    ensures r == BlockValues(fields, raw, extra, |fields|)
    ensures overflow == (r.None? && BlockOverflows(fields, raw, extra, |fields|))
  {
    var values := extra;
    for n := 0 to |fields|
      invariant BlockValues(fields, raw, extra, n) == Some(values)
    {
      var v := FieldValue(fields[n], raw);
      if v.None? {
        BlockValuesFail(fields, raw, extra, n + 1, |fields|);
        return None, FieldOverflows(fields[n], raw);
      }
      values := values[fields[n].field := v.value];
    }
    r, overflow := Some(values), false;
  }

  lemma {:induction false} BlockValuesFail<F>(fields: seq<KVField<F>>, raw: RawFields, extra: map<F, Value>, n: nat, m: nat)
    requires n <= m <= |fields| && BlockValues(fields, raw, extra, n).None?
    ensures BlockValues(fields, raw, extra, m).None?
    ensures BlockOverflows(fields, raw, extra, m) == BlockOverflows(fields, raw, extra, n)
  {
    if n < m {
      BlockValuesFail(fields, raw, extra, n, m - 1);
    }
  }

  /** parse_keyvalue */
  method ParseKeyValue<F, T>(text: string, schema: KeyValueSchema<F, T>, extra: map<F, Value>)
    returns (r: Result<Option<T>, Fault<F>>)
    ensures r == Block(schema, text, extra)
  {
    if Contains(text, schema.notFoundMarker) {
      return Ok(None);
    }
    var raw := ReadFields(SplitLines(text));
    if raw == map[] || schema.invalidIf(raw) {
      return Ok(None);
    }
    var values, overflow := ReadValues(schema.fields, raw, extra);
    if overflow {
      return Err(Overflow);
    }
    if values.None? {
      return Ok(None);
    }
    match schema.rowFactory(values.value) {
      case Ok(row) => r := Ok(Some(row));
      case Err(fault) => r := Err(fault);
    }
  }

  // The vertical pwr block

  datatype BlockField =
    | BlockSysId | BlockVoltage | BlockCurrent | BlockTemperature | BlockSoc | BlockStatus | BlockVoltStatus
    | BlockCurrStatus | BlockTempStatus | BlockCoulStatus | BlockBatEvents | BlockPowerEvents | BlockSysFault

  function MilliText(s: string): Result<Value, CellError> {
    MilliCell(s)
  }

  function PercentText(s: string): Result<Value, CellError> {
    IntCell(WithoutPercent(s))
  }

  predicate IsHexDigit(c: char) {
    IsDigit(c) || 'a' <= c <= 'f' || 'A' <= c <= 'F'
  }

  function HexDigit(c: char): nat
    requires IsHexDigit(c)
  {
    if IsDigit(c) then c as int - '0' as int else LowerChar(c) as int - 'a' as int + 10
  }

  /** Hexadecimal digits with single underscores before or between them. */
  function ParseHex(s: string, after: bool, acc: nat): Option<nat> {
    if s == "" then (if after then Some(acc) else None)
    else if s[0] == '_' && after && |s| > 1 && s[1] != '_' then ParseHex(s[1..], false, acc)
    else if IsHexDigit(s[0]) then ParseHex(s[1..], true, 16 * acc + HexDigit(s[0]))
    else None
  }

  /** parse_number: never fails. */
  function NumberText(s: string): Result<Value, CellError> {
    var t := Strip(s);
    if t == "" || t == "-" then Ok(Absent)
    else if |t| >= 2 && t[0] == '0' && LowerChar(t[1]) == 'x' then
      (match if |t| == 2 then None else ParseHex(t[2..], true, 0)
       case Some(n) => Ok(Whole(n))
       case None => Ok(Absent))
    else
      match ParseInt(t)
      case Some(n) => Ok(Whole(n))
      case None => Ok(Absent)
  }

  const INDEXED_FIELDS: seq<KVField<BlockField>> := [
    KVField("Voltage", BlockVoltage, Some(MilliText), true, Absent),
    KVField("Current", BlockCurrent, Some(MilliText), true, Absent),
    KVField("Temperature", BlockTemperature, Some(MilliText), true, Absent),
    KVField("Coulomb", BlockSoc, Some(PercentText), true, Absent),
    KVField("Basic Status", BlockStatus, None, false, Word("")),
    KVField("Volt Status", BlockVoltStatus, None, false, Absent),
    KVField("Current Status", BlockCurrStatus, None, false, Absent),
    KVField("Tmpr. Status", BlockTempStatus, None, false, Absent),
    KVField("Coul. Status", BlockCoulStatus, None, false, Absent),
    KVField("Bat Events", BlockBatEvents, Some(NumberText), false, Absent),
    KVField("Power Events", BlockPowerEvents, Some(NumberText), false, Absent),
    KVField("System Fault", BlockSysFault, Some(NumberText), false, Absent)]

  function BuildBatteryFromPwrIndexed(v: Values<BlockField>): Result<Battery, Fault<BlockField>> {
    match (GetWhole(v, BlockSysId), GetDecimal(v, BlockVoltage), GetDecimal(v, BlockCurrent),
           GetDecimal(v, BlockTemperature), GetWhole(v, BlockSoc), GetWord(v, BlockStatus))
    case (Ok(sysId), Ok(voltage), Ok(current), Ok(temperature), Ok(soc), Ok(status)) =>
      Ok(Battery(sysId, voltage, current, temperature, soc, status, Power(voltage, current), 0.0, None, None, None, None,
                 OptWord(v, BlockVoltStatus), OptWord(v, BlockCurrStatus), OptWord(v, BlockTempStatus), None, None,
                 OptWord(v, BlockCoulStatus), OptWhole(v, BlockBatEvents), OptWhole(v, BlockPowerEvents),
                 OptWhole(v, BlockSysFault), []))
    case (Err(f), _, _, _, _, _) => Err(f)
    case (_, Err(f), _, _, _, _) => Err(f)
    case (_, _, Err(f), _, _, _) => Err(f)
    case (_, _, _, Err(f), _, _) => Err(f)
    case (_, _, _, _, Err(f), _) => Err(f)
    case (_, _, _, _, _, Err(f)) => Err(f)
  }

  const NOT_FOUND := "not found"

  function PwrIndexed(): KeyValueSchema<BlockField, Battery> {
    KeyValueSchema(NOT_FOUND,
                   fields => "Basic Status" in fields && Lower(fields["Basic Status"]) == "absent",
                   INDEXED_FIELDS, BuildBatteryFromPwrIndexed)
  }

  /** What "pwr N" says about battery id. */
  function IndexedBattery(text: string, id: int): Result<Option<Battery>, Fault<BlockField>> {
    Block(PwrIndexed(), text, map[BlockSysId := Whole(id)])
  }
}
