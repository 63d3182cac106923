/** What a "pwr N" block is read as, key by key. */
module BlockReading {
  import opened Search
  import opened Wrappers
  import opened Text
  import opened Table
  import opened Schemas
  import opened KeyValue
  import opened IndexedRoundTrip
  import opened Spelling

  // Lines

  /** Before its first colon the line has the key, and after it the value is the first token. */
  predicate LineSays(line: string, key: string, value: string) {
    exists c :: 0 <= c < |line| && ColonAt(line, c) && key == Strip(line[..c]) != ""
      && Split(line[c + 1..]) != [] && value == Split(line[c + 1..])[0]
  }

  predicate ColonAt(line: string, c: nat)
    requires c < |line|
  {
    line[c] == ':' && forall j :: 0 <= j < c ==> line[j] != ':'
  }

  lemma LineFieldIff(line: string, key: string, value: string)
    ensures LineField(line) == Some((key, value)) <==> LineSays(line, key, value)
  {
    hide Strip, Split;
    var i := UntilColon(line);
    if i < |line| {
      assert ColonAt(line, i);
    }
  }

  /** Line i has the key and the value, and no later line has the key. */
  predicate LastSays(lines: seq<string>, i: nat, key: string, value: string) {
    && i < |lines| && LineField(lines[i]) == Some((key, value))
    && forall j :: i < j < |lines| ==> LineField(lines[j]).None? || LineField(lines[j]).value.0 != key
  }

  /** The dict has the key's last value, and no others. */
  lemma {:induction false} FieldsIff(lines: seq<string>, key: string, value: string)
    ensures key in Fields(lines) && Fields(lines)[key] == value <==> exists i :: 0 <= i < |lines| && LastSays(lines, i, key, value)
  {
    hide LineField;
    if lines != [] {
      var n := |lines| - 1;
      FieldsIff(lines[..n], key, value);
      var last := LineField(lines[n]);
      if last.Some? && last.value.0 == key {
        if last.value.1 == value { assert LastSays(lines, n, key, value); }
        forall i | 0 <= i < n ensures !LastSays(lines, i, key, value) {}
      } else {
        forall i | 0 <= i < n
          ensures LastSays(lines, i, key, value) <==> LastSays(lines[..n], i, key, value)
        {
          LastBefore(lines, i, key, value);
        }
        if i :| 0 <= i < n && LastSays(lines[..n], i, key, value) { assert LastSays(lines, i, key, value); }
      }
    }
  }

  lemma LastBefore(lines: seq<string>, i: nat, key: string, value: string)
    requires i < |lines| - 1
    requires LineField(lines[|lines| - 1]).None? || LineField(lines[|lines| - 1]).value.0 != key
    ensures LastSays(lines, i, key, value) <==> LastSays(lines[..|lines| - 1], i, key, value)
  {
    hide LineField;
    var front := lines[..|lines| - 1];
    if LastSays(front, i, key, value) {
      forall j | i < j < |lines| ensures LineField(lines[j]).None? || LineField(lines[j]).value.0 != key {
        if j < |front| { assert lines[j] == front[j]; }
      }
    }
  }

  // Values

  /** The key's value is a whole number of thousandths, which a float reaches. */
  ghost predicate MilliOf(raw: RawFields, key: string, x: real) {
    key in raw && exists n :: Denotes(raw[key], n) && !BeyondFloat(n) && x * 1000.0 == n as real
  }

  predicate PercentOf(raw: RawFields, key: string, n: int) {
    key in raw && Denotes(WithoutPercent(raw[key]), n)
  }

  predicate WordOf(raw: RawFields, key: string, s: Option<string>) {
    s == if key in raw then Some(raw[key]) else None
  }

  /** The number the key's value is, in decimals or in hexadecimals, if it is any. */
  predicate NumberOf(raw: RawFields, key: string, n: Option<int>) {
    if key in raw then NumberText(raw[key]) == Ok(if n.Some? then Whole(n.value) else Absent) else n.None?
  }

  lemma MilliField(kv: KVField<BlockField>, raw: RawFields, x: real)
    requires kv.transform == Some(MilliText) && kv.required
    ensures FieldValue(kv, raw) == Some(Decimal(x)) <==> MilliOf(raw, kv.key, x)
    ensures FieldValue(kv, raw).Some? ==> FieldValue(kv, raw).value.Decimal?
  {
    hide Denotes, ParseInt, BeyondFloat;
    if kv.key in raw {
      forall n ensures ParseInt(raw[kv.key]) == Some(n) <==> Denotes(raw[kv.key], n) { ParseIntIff(raw[kv.key], n); }
    }
  }

  lemma PercentField(kv: KVField<BlockField>, raw: RawFields, n: int)
    requires kv.transform == Some(PercentText) && kv.required
    ensures FieldValue(kv, raw) == Some(Whole(n)) <==> PercentOf(raw, kv.key, n)
    ensures FieldValue(kv, raw).Some? ==> FieldValue(kv, raw).value.Whole?
  {
    hide Denotes, ParseInt;
    if kv.key in raw {
      ParseIntIff(WithoutPercent(raw[kv.key]), n);
    }
  }

  lemma WordField(kv: KVField<BlockField>, raw: RawFields)
    requires kv.transform == None && !kv.required
    ensures FieldValue(kv, raw) == Some(if kv.key in raw then Word(raw[kv.key]) else kv.default)
  {
  }

  lemma NumberField(kv: KVField<BlockField>, raw: RawFields, n: Option<int>)
    requires kv.transform == Some(NumberText) && !kv.required && kv.default == Absent
    ensures FieldValue(kv, raw) == Some(if n.Some? then Whole(n.value) else Absent) <==> NumberOf(raw, kv.key, n)
    ensures FieldValue(kv, raw).Some? && (FieldValue(kv, raw).value.Whole? || FieldValue(kv, raw).value.Absent?)
  {
    hide ParseInt, ParseHex, Strip;
  }

  // The declared keys

  function KeyAt(k: nat): string
    requires k < 12
  {
    match k
    case 0 => "Voltage" case 1 => "Current" case 2 => "Temperature" case 3 => "Coulomb" case 4 => "Basic Status"
    case 5 => "Volt Status" case 6 => "Current Status" case 7 => "Tmpr. Status" case 8 => "Coul. Status"
    case 9 => "Bat Events" case 10 => "Power Events" case _ => "System Fault"
  }

  function BlockFieldAt(k: nat): BlockField
    requires k < 12
  {
    match k
    case 0 => BlockVoltage case 1 => BlockCurrent case 2 => BlockTemperature case 3 => BlockSoc case 4 => BlockStatus
    case 5 => BlockVoltStatus case 6 => BlockCurrStatus case 7 => BlockTempStatus case 8 => BlockCoulStatus
    case 9 => BlockBatEvents case 10 => BlockPowerEvents case _ => BlockSysFault
  }

  lemma DeclaredIs(k: nat)
    requires k < 12
    ensures |INDEXED_FIELDS| == 12
    ensures var kv := INDEXED_FIELDS[k];
            && kv.key == KeyAt(k) && kv.field == BlockFieldAt(k) && (kv.required <==> k < 4)
            && (k == 4 ==> kv.default == Word("")) && (k > 4 ==> kv.default == Absent)
  {
  }

  lemma TransformIs(k: nat)
    requires k < 12
    ensures |INDEXED_FIELDS| == 12
    ensures INDEXED_FIELDS[k].transform
         == if k < 3 then Some(MilliText) else if k == 3 then Some(PercentText) else if k < 9 then None else Some(NumberText)
  {
  }

  /** The value of the k-th declared key. */
  function ValueAt(raw: RawFields, k: nat): Option<Value>
    requires k < 12 && |INDEXED_FIELDS| == 12
  {
    FieldValue(INDEXED_FIELDS[k], raw)
  }

  /** What a block must have. */
  ghost predicate MeasuresIn(raw: RawFields, b: Battery) {
    && MilliOf(raw, KeyAt(0), b.voltage) && MilliOf(raw, KeyAt(1), b.current) && MilliOf(raw, KeyAt(2), b.temperature)
    && PercentOf(raw, KeyAt(3), b.soc)
  }

  predicate WordsIn(raw: RawFields, b: Battery) {
    && b.status == (if KeyAt(4) in raw then raw[KeyAt(4)] else "")
    && WordOf(raw, KeyAt(5), b.voltStatus) && WordOf(raw, KeyAt(6), b.currStatus) && WordOf(raw, KeyAt(7), b.tempStatus)
    && WordOf(raw, KeyAt(8), b.coulStatus)
  }

  predicate EventsIn(raw: RawFields, b: Battery) {
    && NumberOf(raw, KeyAt(9), b.batEvents) && NumberOf(raw, KeyAt(10), b.powerEvents)
    && NumberOf(raw, KeyAt(11), b.sysFault)
  }

  /** What a block does not say, and what follows from what it says. */
  predicate OthersIs(b: Battery, id: int) {
    && b.sysId == id && b.power == Power(b.voltage, b.current) && b.energyStored == 0.0 && b.cells == []
    && b.tempLow == None && b.tempHigh == None && b.voltLow == None && b.voltHigh == None
    && b.battVoltStatus == None && b.battTempStatus == None
  }

  lemma MeasuresRead(raw: RawFields, b: Battery)
    ensures |INDEXED_FIELDS| == 12
    ensures MeasuresIn(raw, b) <==>
              && ValueAt(raw, 0) == Some(Decimal(b.voltage)) && ValueAt(raw, 1) == Some(Decimal(b.current))
              && ValueAt(raw, 2) == Some(Decimal(b.temperature)) && ValueAt(raw, 3) == Some(Whole(b.soc))
    ensures forall k :: 0 <= k < 3 && ValueAt(raw, k).Some? ==> ValueAt(raw, k).value.Decimal?
    ensures ValueAt(raw, 3).Some? ==> ValueAt(raw, 3).value.Whole?
  {
    hide INDEXED_FIELDS, MilliOf, PercentOf, FieldValue, KeyAt, MilliText, PercentText, NumberText;
    DeclaredIs(0);
    forall k: nat | k < 4
      ensures |INDEXED_FIELDS| == 12
      ensures INDEXED_FIELDS[k].key == KeyAt(k) && INDEXED_FIELDS[k].required
      ensures INDEXED_FIELDS[k].transform == if k < 3 then Some(MilliText) else Some(PercentText)
    {
      DeclaredIs(k);
      TransformIs(k);
    }
    MilliField(INDEXED_FIELDS[0], raw, b.voltage);
    MilliField(INDEXED_FIELDS[1], raw, b.current);
    MilliField(INDEXED_FIELDS[2], raw, b.temperature);
    PercentField(INDEXED_FIELDS[3], raw, b.soc);
  }

  lemma WordsRead(raw: RawFields, k: nat)
    requires 4 <= k < 9
    ensures |INDEXED_FIELDS| == 12
    ensures ValueAt(raw, k) == Some(if KeyAt(k) in raw then Word(raw[KeyAt(k)]) else if k == 4 then Word("") else Absent)
  {
    hide INDEXED_FIELDS, FieldValue, KeyAt, MilliText, PercentText, NumberText;
    DeclaredIs(k);
    TransformIs(k);
    WordField(INDEXED_FIELDS[k], raw);
  }

  lemma EventsRead(raw: RawFields, k: nat, n: Option<int>)
    requires 9 <= k < 12
    ensures |INDEXED_FIELDS| == 12
    ensures ValueAt(raw, k) == Some(if n.Some? then Whole(n.value) else Absent) <==> NumberOf(raw, KeyAt(k), n)
    ensures ValueAt(raw, k).Some? && (ValueAt(raw, k).value.Whole? || ValueAt(raw, k).value.Absent?)
  {
    hide INDEXED_FIELDS, FieldValue, KeyAt, MilliText, PercentText, NumberText;
    DeclaredIs(k);
    TransformIs(k);
    NumberField(INDEXED_FIELDS[k], raw, n);
  }

  /** The dict has the id and the value of every declared key. */
  predicate HasAll(v: Values<BlockField>, raw: RawFields, id: int)
    requires |INDEXED_FIELDS| == 12
  {
    && BlockSysId in v && v[BlockSysId] == Whole(id)
    && forall k :: 0 <= k < 12 ==> ValueAt(raw, k).Some? && BlockFieldAt(k) in v && v[BlockFieldAt(k)] == ValueAt(raw, k).value
  }

  lemma {:induction false} ValuesHeld(raw: RawFields, id: int)
    ensures |INDEXED_FIELDS| == 12
    ensures var r := BlockValues(INDEXED_FIELDS, raw, map[BlockSysId := Whole(id)], 12);
            && (r.Some? <==> forall k :: 0 <= k < 12 ==> ValueAt(raw, k).Some?)
            && (r.Some? ==> HasAll(r.value, raw, id))
  {
    hide INDEXED_FIELDS, FieldValue, BlockValues, BlockFieldAt;
    DeclaredIs(0);
    var extra := map[BlockSysId := Whole(id)];
    BlockValuesIff(INDEXED_FIELDS, raw, extra, 12);
    IndexedDistinct();
    assert forall k :: 0 <= k < 12 ==> ValueAt(raw, k) == FieldValue(INDEXED_FIELDS[k], raw);
    if BlockValues(INDEXED_FIELDS, raw, extra, 12).Some? {
      ExtraKept(INDEXED_FIELDS, raw, extra, 12, BlockSysId);
      AllHeld(INDEXED_FIELDS, raw, extra);
      forall k: nat | k < 12
        ensures INDEXED_FIELDS[k].field == BlockFieldAt(k)
      {
        DeclaredIs(k);
      }
    }
  }

  /** The record and the dict agree. */
  predicate SameBlock(v: Values<BlockField>, b: Battery) {
    && (forall f: BlockField :: f in v)
    && v[BlockSysId] == Whole(b.sysId) && v[BlockVoltage] == Decimal(b.voltage) && v[BlockCurrent] == Decimal(b.current)
    && v[BlockTemperature] == Decimal(b.temperature) && v[BlockSoc] == Whole(b.soc) && v[BlockStatus] == Word(b.status)
  }

  predicate SameDetails(v: Values<BlockField>, b: Battery) {
    && b.voltStatus == OptWord(v, BlockVoltStatus) && b.currStatus == OptWord(v, BlockCurrStatus)
    && b.tempStatus == OptWord(v, BlockTempStatus) && b.coulStatus == OptWord(v, BlockCoulStatus)
    && b.batEvents == OptWhole(v, BlockBatEvents) && b.powerEvents == OptWhole(v, BlockPowerEvents)
    && b.sysFault == OptWhole(v, BlockSysFault)
  }

  lemma BuiltParts(v: Values<BlockField>, id: int)
    requires (forall f: BlockField :: f in v) && v[BlockSysId] == Whole(id) && BuildBatteryFromPwrIndexed(v).Ok?
    ensures var b := BuildBatteryFromPwrIndexed(v).value; SameBlock(v, b) && SameDetails(v, b) && OthersIs(b, id)
  {
    hide Power;
  }

  lemma BuiltIs(v: Values<BlockField>, id: int, b: Battery)
    requires (forall f: BlockField :: f in v) && v[BlockSysId] == Whole(id)
    ensures BuildBatteryFromPwrIndexed(v) == Ok(b) <==> SameBlock(v, b) && SameDetails(v, b) && OthersIs(b, id)
  {
    hide Power;
    var r := BuildBatteryFromPwrIndexed(v);
    if r.Ok? {
      BuiltParts(v, id);
    } else if SameBlock(v, b) {
      assert false;
    }
  }

  /** A block is read as this battery exactly when it does not say "not found", nor that the slot is empty, and its keys'
      values are the battery's, of which the four measures must be there. */
  lemma IndexedReadIff(text: string, id: int, b: Battery)
    ensures IndexedBattery(text, id) == Ok(Some(b)) <==>
              var raw := Fields(SplitLines(text));
              && !Contains(text, "not found")
              && !("Basic Status" in raw && Lower(raw["Basic Status"]) == "absent")
              && MeasuresIn(raw, b) && WordsIn(raw, b) && EventsIn(raw, b) && OthersIs(b, id)
  {
    hide INDEXED_FIELDS, FieldValue, BlockValues, BlockFieldAt, KeyAt, Contains, SplitLines, Fields, BuildBatteryFromPwrIndexed,
      MeasuresIn, WordsIn, EventsIn, OthersIs, BlockOverflows, HasAll;
    var raw := Fields(SplitLines(text));
    ValuesHeld(raw, id);
    if forall k :: 0 <= k < 12 ==> ValueAt(raw, k).Some? {
      HeldBuilds(BlockValues(INDEXED_FIELDS, raw, map[BlockSysId := Whole(id)], 12).value, raw, id, b);
    } else if MeasuresIn(raw, b) {
      MeasuresThere(raw, b);
    }
    if raw == map[] { NothingIn(raw, b); }
  }

  lemma NothingIn(raw: RawFields, b: Battery)
    requires raw == map[]
    ensures !MeasuresIn(raw, b)
  {
  }

  lemma MeasuresThere(raw: RawFields, b: Battery)
    requires MeasuresIn(raw, b)
    ensures |INDEXED_FIELDS| == 12 && forall k :: 0 <= k < 12 ==> ValueAt(raw, k).Some?
  {
    hide INDEXED_FIELDS, FieldValue, KeyAt, NumberOf;
    MeasuresRead(raw, b);
    forall k: nat | 4 <= k < 12
      ensures ValueAt(raw, k).Some?
    {
      if k < 9 { WordsRead(raw, k); } else { EventsRead(raw, k, None); }
    }
  }

  lemma HeldBuilds(v: Values<BlockField>, raw: RawFields, id: int, b: Battery)
    requires |INDEXED_FIELDS| == 12 && HasAll(v, raw, id)
    ensures BuildBatteryFromPwrIndexed(v) == Ok(b) <==>
              MeasuresIn(raw, b) && WordsIn(raw, b) && EventsIn(raw, b) && OthersIs(b, id)
  {
    hide INDEXED_FIELDS, FieldValue, MeasuresIn, WordsIn, EventsIn, OthersIs, SameBlock, SameDetails;
    EveryField(v, raw, id);
    BuiltIs(v, id, b);
    AgreesIff(v, raw, id, b);
  }

  lemma EveryField(v: Values<BlockField>, raw: RawFields, id: int)
    requires |INDEXED_FIELDS| == 12 && HasAll(v, raw, id)
    ensures forall f: BlockField :: f in v
    ensures v[BlockSysId] == Whole(id)
    ensures Some(v[BlockVoltage]) == ValueAt(raw, 0) && Some(v[BlockCurrent]) == ValueAt(raw, 1)
    ensures Some(v[BlockTemperature]) == ValueAt(raw, 2) && Some(v[BlockSoc]) == ValueAt(raw, 3)
    ensures Some(v[BlockStatus]) == ValueAt(raw, 4) && Some(v[BlockVoltStatus]) == ValueAt(raw, 5)
    ensures Some(v[BlockCurrStatus]) == ValueAt(raw, 6) && Some(v[BlockTempStatus]) == ValueAt(raw, 7)
    ensures Some(v[BlockCoulStatus]) == ValueAt(raw, 8) && Some(v[BlockBatEvents]) == ValueAt(raw, 9)
    ensures Some(v[BlockPowerEvents]) == ValueAt(raw, 10) && Some(v[BlockSysFault]) == ValueAt(raw, 11)
  {
    hide INDEXED_FIELDS, FieldValue;
    assert BlockFieldAt(0) in v && BlockFieldAt(1) in v && BlockFieldAt(2) in v && BlockFieldAt(3) in v;
    assert BlockFieldAt(4) in v && BlockFieldAt(5) in v && BlockFieldAt(6) in v && BlockFieldAt(7) in v;
    assert BlockFieldAt(8) in v && BlockFieldAt(9) in v && BlockFieldAt(10) in v && BlockFieldAt(11) in v;
    forall f: BlockField
      ensures f in v
    {
      match f {
        case BlockSysId => case BlockVoltage => case BlockCurrent => case BlockTemperature => case BlockSoc =>
        case BlockStatus => case BlockVoltStatus => case BlockCurrStatus => case BlockTempStatus => case BlockCoulStatus =>
        case BlockBatEvents => case BlockPowerEvents => case BlockSysFault =>
      }
    }
  }

  lemma WordsAgree(v: Values<BlockField>, raw: RawFields, b: Battery)
    requires |INDEXED_FIELDS| == 12 && forall f: BlockField :: f in v
    requires Some(v[BlockStatus]) == ValueAt(raw, 4) && Some(v[BlockVoltStatus]) == ValueAt(raw, 5)
    requires Some(v[BlockCurrStatus]) == ValueAt(raw, 6) && Some(v[BlockTempStatus]) == ValueAt(raw, 7)
    requires Some(v[BlockCoulStatus]) == ValueAt(raw, 8)
    ensures WordsIn(raw, b) <==>
              && v[BlockStatus] == Word(b.status) && b.voltStatus == OptWord(v, BlockVoltStatus)
              && b.currStatus == OptWord(v, BlockCurrStatus) && b.tempStatus == OptWord(v, BlockTempStatus)
              && b.coulStatus == OptWord(v, BlockCoulStatus)
  {
    hide INDEXED_FIELDS, KeyAt, ValueAt;
    WordsRead(raw, 4);
    WordsRead(raw, 5);
    WordsRead(raw, 6);
    WordsRead(raw, 7);
    WordsRead(raw, 8);
  }

  lemma EventsAgree(v: Values<BlockField>, raw: RawFields, b: Battery)
    requires |INDEXED_FIELDS| == 12 && forall f: BlockField :: f in v
    requires Some(v[BlockBatEvents]) == ValueAt(raw, 9) && Some(v[BlockPowerEvents]) == ValueAt(raw, 10)
    requires Some(v[BlockSysFault]) == ValueAt(raw, 11)
    ensures EventsIn(raw, b) <==>
              && b.batEvents == OptWhole(v, BlockBatEvents) && b.powerEvents == OptWhole(v, BlockPowerEvents)
              && b.sysFault == OptWhole(v, BlockSysFault)
  {
    hide INDEXED_FIELDS, KeyAt, ValueAt, NumberOf;
    EventsRead(raw, 9, b.batEvents);
    EventsRead(raw, 10, b.powerEvents);
    EventsRead(raw, 11, b.sysFault);
  }

  lemma AgreesIff(v: Values<BlockField>, raw: RawFields, id: int, b: Battery)
    requires |INDEXED_FIELDS| == 12 && HasAll(v, raw, id)
    ensures SameBlock(v, b) && SameDetails(v, b) && OthersIs(b, id) <==>
              MeasuresIn(raw, b) && WordsIn(raw, b) && EventsIn(raw, b) && OthersIs(b, id)
  {
    hide INDEXED_FIELDS, MeasuresIn, WordsIn, EventsIn, HasAll, ValueAt;
    EveryField(v, raw, id);
    MeasuresRead(raw, b);
    WordsAgree(v, raw, b);
    EventsAgree(v, raw, b);
  }
}
