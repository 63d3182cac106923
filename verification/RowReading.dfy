/** What one line of a table is read as, column by column, and where the columns are without a header. */
module RowReading {
  import opened Search
  import opened Wrappers
  import opened Rounding
  import opened Text
  import opened Table
  import opened Schemas
  import opened SchemaLaws
  import opened Spelling

  // Cells

  /** Token i is there and is the whole number. */
  predicate WholeAt(parts: Row, i: nat, n: int) {
    i < |parts| && Denotes(parts[i], n)
  }

  /** Token i is there and is a whole number of thousandths, which a float reaches. */
  ghost predicate MilliAt(parts: Row, i: nat, x: real) {
    i < |parts| && exists n :: Denotes(parts[i], n) && !BeyondFloat(n) && x * 1000.0 == n as real
  }

  predicate PercentAt(parts: Row, i: nat, n: int) {
    i < |parts| && Denotes(WithoutPercent(parts[i]), n)
  }

  predicate TextAt(parts: Row, i: nat, s: string) {
    i < |parts| && parts[i] == s
  }

  /** Thousandths, or nothing for a dash or past the end. */
  ghost predicate MaybeMilliAt(parts: Row, i: nat, x: Option<real>) {
    if i < |parts| && parts[i] != "-" then x.Some? && MilliAt(parts, i, x.value) else x.None?
  }

  /** A token, or nothing for a dash or past the end. */
  predicate MaybeStatusAt(parts: Row, i: nat, s: Option<string>) {
    s == if i < |parts| && Strip(parts[i]) != "-" then Some(Strip(parts[i])) else None
  }

  /** A token, or nothing past the end. */
  predicate MaybeTextAt(parts: Row, i: nat, s: Option<string>) {
    s == if i < |parts| then Some(parts[i]) else None
  }

  predicate MaybeWholeAt(parts: Row, i: nat, n: Option<int>) {
    if i < |parts| then n.Some? && WholeAt(parts, i, n.value) else n.None?
  }

  predicate PercentOrZeroAt(parts: Row, i: nat, n: int) {
    if i < |parts| then PercentAt(parts, i, n) else n == 0
  }

  lemma {:induction false} PercentsDropped(s: string, t: string)
    ensures WithoutPercent(s + t) == WithoutPercent(s) + WithoutPercent(t)
  {
    if s == "" {
      assert s + t == t;
    } else {
      PercentsDropped(s[1..], t);
      assert (s + t)[1..] == s[1..] + t && (s + t)[0] == s[0];
      Grouped(if s[0] == '%' then "" else [s[0]], WithoutPercent(s[1..]), WithoutPercent(t));
    }
  }

  lemma Grouped(a: string, b: string, c: string)
    ensures a + (b + c) == a + b + c
  {
  }

  lemma PercentDropped(c: char)
    ensures WithoutPercent([c]) == if c == '%' then "" else [c]
  {
    assert [c][1..] == "";
  }

  lemma WholeIff(parts: Row, i: nat, n: int)
    ensures RequiredInt(parts, i) == Ok(Whole(n)) <==> WholeAt(parts, i, n)
    ensures RequiredPercentInt(parts, i) == Ok(Whole(n)) <==> PercentAt(parts, i, n)
  {
    hide Denotes, ParseInt;
    if i < |parts| {
      ParseIntIff(parts[i], n);
      ParseIntIff(WithoutPercent(parts[i]), n);
    }
  }

  lemma OptionalWholeIff(parts: Row, i: nat, n: int)
    ensures OptionalIntByBounds(parts, i) == Ok(Whole(n)) <==> MaybeWholeAt(parts, i, Some(n))
    ensures OptionalIntByBounds(parts, i) == Ok(Absent) <==> MaybeWholeAt(parts, i, None)
  {
    hide Denotes, ParseInt;
    if i < |parts| {
      ParseIntIff(parts[i], n);
    }
  }

  lemma PercentOrZeroIff(parts: Row, i: nat, n: int)
    ensures PercentIntOrZero(parts, i) == Ok(Whole(n)) <==> PercentOrZeroAt(parts, i, n)
  {
    hide Denotes, ParseInt;
    if i < |parts| {
      ParseIntIff(WithoutPercent(parts[i]), n);
    }
  }

  lemma MilliIff(parts: Row, i: nat, x: real)
    ensures RequiredMilli(parts, i) == Ok(Decimal(x)) <==> MilliAt(parts, i, x)
    ensures OptionalMilli(parts, i) == Ok(Decimal(x)) <==> MaybeMilliAt(parts, i, Some(x)) && i < |parts|
    ensures OptionalMilli(parts, i) == Ok(Absent) <==> MaybeMilliAt(parts, i, None)
  {
    hide Denotes, ParseInt, BeyondFloat;
    if i < |parts| {
      forall n ensures ParseInt(parts[i]) == Some(n) <==> Denotes(parts[i], n) { ParseIntIff(parts[i], n); }
    }
  }

  /** A cell that came out of its transform is of the transform's kind. */
  lemma CellKinds(parts: Row, i: nat)
    ensures RequiredInt(parts, i).Ok? ==> RequiredInt(parts, i).value.Whole?
    ensures RequiredPercentInt(parts, i).Ok? ==> RequiredPercentInt(parts, i).value.Whole?
    ensures RequiredMilli(parts, i).Ok? ==> RequiredMilli(parts, i).value.Decimal?
    ensures OptionalMilli(parts, i).Ok? ==> OptionalMilli(parts, i).value.Decimal? || OptionalMilli(parts, i).value.Absent?
    ensures OptionalIntByBounds(parts, i).Ok? ==>
              OptionalIntByBounds(parts, i).value.Whole? || OptionalIntByBounds(parts, i).value.Absent?
    ensures PercentIntOrZero(parts, i).Ok? ==> PercentIntOrZero(parts, i).value.Whole?
  {
    hide ParseInt, BeyondFloat;
  }

  // A row of the pwr table

  /** Every field of the table has an index. */
  predicate Everywhere(at: Indices<PwrField>) {
    forall f: PwrField :: f in at
  }

  /** The four measures and what else a row must have. */
  ghost predicate MeasuresAt(parts: Row, at: Indices<PwrField>, r: Battery)
    requires Everywhere(at)
  {
    && WholeAt(parts, at[SysId], r.sysId) && MilliAt(parts, at[Voltage], r.voltage) && MilliAt(parts, at[Current], r.current)
    && MilliAt(parts, at[Temperature], r.temperature) && PercentAt(parts, at[Soc], r.soc)
    && TextAt(parts, at[Status], r.status)
  }

  ghost predicate ExtremesAt(parts: Row, at: Indices<PwrField>, r: Battery)
    requires Everywhere(at)
  {
    && MaybeMilliAt(parts, at[TempLow], r.tempLow) && MaybeMilliAt(parts, at[TempHigh], r.tempHigh)
    && MaybeMilliAt(parts, at[VoltLow], r.voltLow) && MaybeMilliAt(parts, at[VoltHigh], r.voltHigh)
  }

  predicate StatesAt(parts: Row, at: Indices<PwrField>, r: Battery)
    requires Everywhere(at)
  {
    && MaybeStatusAt(parts, at[VoltStatus], r.voltStatus) && MaybeStatusAt(parts, at[CurrStatus], r.currStatus)
    && MaybeStatusAt(parts, at[TempStatus], r.tempStatus) && MaybeStatusAt(parts, at[BattVoltStatus], r.battVoltStatus)
    && MaybeStatusAt(parts, at[BattTempStatus], r.battTempStatus)
  }

  /** What a row of the table does not say, and what follows from what it says. */
  predicate RestIs(r: Battery) {
    && r.power == Power(r.voltage, r.current) && r.energyStored == 0.0 && r.cells == []
    && r.coulStatus == None && r.batEvents == None && r.powerEvents == None && r.sysFault == None
  }

  /** The transform of the field's column. */
  function CellOf(parts: Row, at: Indices<PwrField>, f: PwrField): Result<Value, CellError>
    requires Everywhere(at)
  {
    match f
    case SysId => RequiredInt(parts, at[f])
    case Voltage | Current | Temperature => RequiredMilli(parts, at[f])
    case TempLow | TempHigh | VoltLow | VoltHigh => OptionalMilli(parts, at[f])
    case Status => RequiredStr(parts, at[f])
    case Soc => RequiredPercentInt(parts, at[f])
    case _ => OptionalStatus(parts, at[f])
  }

  /** Where the field's column stands in the schema. */
  function PlaceOf(f: PwrField): (k: nat)
    ensures k < 16 && k != 13
  {
    match f
    case SysId => 0 case Voltage => 1 case Current => 2 case Temperature => 3 case TempLow => 4 case TempHigh => 5
    case VoltLow => 6 case VoltHigh => 7 case Status => 8 case VoltStatus => 9 case CurrStatus => 10 case TempStatus => 11
    case Soc => 12 case BattVoltStatus => 14 case BattTempStatus => 15
  }

  function FieldAt(k: nat): PwrField
    requires k < 16 && k != 13
  {
    match k
    case 0 => SysId case 1 => Voltage case 2 => Current case 3 => Temperature case 4 => TempLow case 5 => TempHigh
    case 6 => VoltLow case 7 => VoltHigh case 8 => Status case 9 => VoltStatus case 10 => CurrStatus case 11 => TempStatus
    case 12 => Soc case 14 => BattVoltStatus case _ => BattTempStatus
  }

  lemma ColumnIs(k: nat, parts: Row, at: Indices<PwrField>)
    requires k < 16 && k != 13 && Everywhere(at)
    ensures PWR_COLUMNS[k].field == Some(FieldAt(k)) && PlaceOf(FieldAt(k)) == k && PWR_COLUMNS[k].transform.Some?
    ensures PWR_COLUMNS[k].transform.value(parts, at[FieldAt(k)]) == CellOf(parts, at, FieldAt(k))
  {
    hide RequiredInt, RequiredMilli, OptionalMilli, RequiredStr, RequiredPercentInt, OptionalStatus;
  }

  lemma TimeColumn()
    ensures |PWR_COLUMNS| == 16 && PWR_COLUMNS[13].field.None?
  {
  }

  lemma {:induction false} ValuesAre(parts: Row, at: Indices<PwrField>)
    requires Everywhere(at)
    ensures var v := RowValues(PWR_COLUMNS, at, parts, |PWR_COLUMNS|);
            && (v.Some? <==> forall f: PwrField :: CellOf(parts, at, f).Ok?)
            && (v.Some? ==> forall f: PwrField :: f in v.value && CellOf(parts, at, f) == Ok(v.value[f]))
  {
    hide CellOf, RowValues, PWR_COLUMNS;
    TimeColumn();
    ValuesIff(PWR_COLUMNS, at, parts, 16);
    forall k: nat | k < 16 && k != 13
      ensures CellPasses(PWR_COLUMNS, at, parts, k) <==> CellOf(parts, at, FieldAt(k)).Ok?
    {
      ColumnIs(k, parts, at);
    }
    forall f: PwrField
      ensures FieldAt(PlaceOf(f)) == f
    {
    }
    if RowValues(PWR_COLUMNS, at, parts, 16).Some? {
      forall f: PwrField
        ensures CellOf(parts, at, f).Ok?
        ensures var v := RowValues(PWR_COLUMNS, at, parts, 16).value; f in v && CellOf(parts, at, f) == Ok(v[f])
      {
        ColumnIs(PlaceOf(f), parts, at);
        assert CellPasses(PWR_COLUMNS, at, parts, PlaceOf(f));
        PwrCell(at, parts, PlaceOf(f));
      }
    } else {
      var k: nat :| k < 16 && !CellPasses(PWR_COLUMNS, at, parts, k);
      assert k != 13;
      assert CellOf(parts, at, FieldAt(k)).Err?;
    }
  }

  /** A line is read as this battery exactly when it has more than ten tokens, starts with a number, does not say that the
      slot is empty, and its tokens at the columns' places are the battery's values. */
  lemma PwrRowIff(at: Indices<PwrField>, line: string, r: Battery)
    requires Everywhere(at)
    ensures LineRow(PwrTable(), at, line) == Built(r) <==>
              var parts := Split(line);
              && |parts| > 10 && AllDigits(parts[0]) && !Contains(line, "Absent")
              && MeasuresAt(parts, at, r) && ExtremesAt(parts, at, r) && StatesAt(parts, at, r) && RestIs(r)
  {
    hide RowValues, Split, Contains, PWR_COLUMNS, RowOverflows, Power, CellOf, MeasuresAt, ExtremesAt, StatesAt,
      BuildBatteryFromPwrRow;
    var parts := Split(line);
    ValuesAre(parts, at);
    if forall f: PwrField :: CellOf(parts, at, f).Ok? {
      CellsBuild(parts, at, RowValues(PWR_COLUMNS, at, parts, |PWR_COLUMNS|).value, r);
    } else {
      var f: PwrField :| CellOf(parts, at, f).Err?;
      if MeasuresAt(parts, at, r) && ExtremesAt(parts, at, r) { GoodCell(parts, at, r, f); }
    }
  }

  lemma GoodCell(parts: Row, at: Indices<PwrField>, r: Battery, f: PwrField)
    requires Everywhere(at) && MeasuresAt(parts, at, r) && ExtremesAt(parts, at, r)
    ensures CellOf(parts, at, f).Ok?
  {
    hide MilliAt, PercentAt, WholeAt, MaybeMilliAt, RequiredInt, RequiredMilli, OptionalMilli, RequiredPercentInt;
    WholeIff(parts, at[SysId], r.sysId);
    WholeIff(parts, at[Soc], r.soc);
    MilliIff(parts, at[Voltage], r.voltage);
    MilliIff(parts, at[Current], r.current);
    MilliIff(parts, at[Temperature], r.temperature);
    MaybeGood(parts, at[TempLow], r.tempLow);
    MaybeGood(parts, at[TempHigh], r.tempHigh);
    MaybeGood(parts, at[VoltLow], r.voltLow);
    MaybeGood(parts, at[VoltHigh], r.voltHigh);
  }

  lemma MaybeGood(parts: Row, i: nat, x: Option<real>)
    requires MaybeMilliAt(parts, i, x)
    ensures OptionalMilli(parts, i).Ok?
  {
    hide MilliAt;
    MilliIff(parts, i, x.GetOr(0.0));
    if x.Some? { assert MaybeMilliAt(parts, i, Some(x.value)); }
  }

  lemma OptionalRead(parts: Row, i: nat, v: Value, x: Option<real>)
    requires OptionalMilli(parts, i) == Ok(v)
    ensures (if v.Decimal? then Some(v.x) else None) == x <==> MaybeMilliAt(parts, i, x)
  {
    hide MilliAt;
    CellKinds(parts, i);
    MilliIff(parts, i, x.GetOr(0.0));
    if v.Decimal? { MilliIff(parts, i, v.x); }
  }

  lemma StatusRead(parts: Row, i: nat, v: Value, s: Option<string>)
    requires OptionalStatus(parts, i) == Ok(v)
    ensures (if v.Word? then Some(v.s) else None) == s <==> MaybeStatusAt(parts, i, s)
  {
    hide Strip;
  }

  /** The cells are good, and in the dict. */
  predicate AllRead(parts: Row, at: Indices<PwrField>, v: Values<PwrField>)
    requires Everywhere(at)
  {
    forall f: PwrField :: f in v && CellOf(parts, at, f) == Ok(v[f])
  }

  lemma CellsBuild(parts: Row, at: Indices<PwrField>, v: Values<PwrField>, r: Battery)
    requires Everywhere(at) && AllRead(parts, at, v)
    ensures BuildBatteryFromPwrRow(v) == Ok(r) <==>
              MeasuresAt(parts, at, r) && ExtremesAt(parts, at, r) && StatesAt(parts, at, r) && RestIs(r)
  {
    hide MeasuresAt, ExtremesAt, StatesAt, AllRead;
    MeasuresRead(parts, at, v, r);
    ExtremesRead(parts, at, v, r);
    StatesRead(parts, at, v, r);
    BuiltIs(v, r);
  }

  /** The record and the dict agree on what a row must have. */
  predicate SameMeasures(v: Values<PwrField>, r: Battery) {
    && (forall f: PwrField :: f in v)
    && v[SysId] == Whole(r.sysId) && v[Voltage] == Decimal(r.voltage) && v[Current] == Decimal(r.current)
    && v[Temperature] == Decimal(r.temperature) && v[Soc] == Whole(r.soc) && v[Status] == Word(r.status)
  }

  predicate SameExtremes(v: Values<PwrField>, r: Battery) {
    && r.tempLow == OptDecimal(v, TempLow) && r.tempHigh == OptDecimal(v, TempHigh)
    && r.voltLow == OptDecimal(v, VoltLow) && r.voltHigh == OptDecimal(v, VoltHigh)
  }

  predicate SameStates(v: Values<PwrField>, r: Battery) {
    && r.voltStatus == OptWord(v, VoltStatus) && r.currStatus == OptWord(v, CurrStatus)
    && r.tempStatus == OptWord(v, TempStatus) && r.battVoltStatus == OptWord(v, BattVoltStatus)
    && r.battTempStatus == OptWord(v, BattTempStatus)
  }

  lemma BuiltIs(v: Values<PwrField>, r: Battery)
    requires forall f: PwrField :: f in v
    ensures BuildBatteryFromPwrRow(v) == Ok(r) <==> SameMeasures(v, r) && SameExtremes(v, r) && SameStates(v, r) && RestIs(r)
  {
    hide Power;
    var b := BuildBatteryFromPwrRow(v);
    if SameMeasures(v, r) && b.Ok? {
      BuiltParts(v);
      if SameExtremes(v, r) && SameStates(v, r) && RestIs(r) { SameRecord(b.value, r); }
    } else if b == Ok(r) {
      BuiltParts(v);
    }
  }

  lemma BuiltParts(v: Values<PwrField>)
    requires (forall f: PwrField :: f in v) && BuildBatteryFromPwrRow(v).Ok?
    ensures var r := BuildBatteryFromPwrRow(v).value;
            SameMeasures(v, r) && SameExtremes(v, r) && SameStates(v, r) && RestIs(r)
  {
    hide Power;
  }

  lemma SameRecord(a: Battery, b: Battery)
    requires a.sysId == b.sysId && a.voltage == b.voltage && a.current == b.current && a.temperature == b.temperature
    requires a.soc == b.soc && a.status == b.status && a.power == b.power && a.energyStored == b.energyStored
    requires a.tempLow == b.tempLow && a.tempHigh == b.tempHigh && a.voltLow == b.voltLow && a.voltHigh == b.voltHigh
    requires a.voltStatus == b.voltStatus && a.currStatus == b.currStatus && a.tempStatus == b.tempStatus
    requires a.battVoltStatus == b.battVoltStatus && a.battTempStatus == b.battTempStatus
    requires a.coulStatus == b.coulStatus && a.batEvents == b.batEvents && a.powerEvents == b.powerEvents
    requires a.sysFault == b.sysFault && a.cells == b.cells
    ensures a == b
  {
  }

  lemma MeasuresRead(parts: Row, at: Indices<PwrField>, v: Values<PwrField>, r: Battery)
    requires Everywhere(at) && AllRead(parts, at, v)
    ensures (forall f: PwrField :: f in v) && (SameMeasures(v, r) <==> MeasuresAt(parts, at, r))
  {
    hide MilliAt, PercentAt, WholeAt, RequiredInt, RequiredMilli, OptionalMilli, RequiredPercentInt;
    WholeIff(parts, at[SysId], r.sysId);
    WholeIff(parts, at[Soc], r.soc);
    MilliIff(parts, at[Voltage], r.voltage);
    MilliIff(parts, at[Current], r.current);
    MilliIff(parts, at[Temperature], r.temperature);
    assert CellOf(parts, at, SysId) == Ok(v[SysId]) && CellOf(parts, at, Soc) == Ok(v[Soc]);
    assert CellOf(parts, at, Voltage) == Ok(v[Voltage]) && CellOf(parts, at, Current) == Ok(v[Current]);
    assert CellOf(parts, at, Temperature) == Ok(v[Temperature]) && CellOf(parts, at, Status) == Ok(v[Status]);
  }

  lemma ExtremesRead(parts: Row, at: Indices<PwrField>, v: Values<PwrField>, r: Battery)
    requires Everywhere(at) && AllRead(parts, at, v)
    ensures SameExtremes(v, r) <==> ExtremesAt(parts, at, r)
  {
    hide OptionalMilli, MaybeMilliAt;
    assert CellOf(parts, at, TempLow) == Ok(v[TempLow]) && CellOf(parts, at, TempHigh) == Ok(v[TempHigh]);
    assert CellOf(parts, at, VoltLow) == Ok(v[VoltLow]) && CellOf(parts, at, VoltHigh) == Ok(v[VoltHigh]);
    OptionalRead(parts, at[TempLow], v[TempLow], r.tempLow);
    OptionalRead(parts, at[TempHigh], v[TempHigh], r.tempHigh);
    OptionalRead(parts, at[VoltLow], v[VoltLow], r.voltLow);
    OptionalRead(parts, at[VoltHigh], v[VoltHigh], r.voltHigh);
  }

  lemma StatesRead(parts: Row, at: Indices<PwrField>, v: Values<PwrField>, r: Battery)
    requires Everywhere(at) && AllRead(parts, at, v)
    ensures SameStates(v, r) <==> StatesAt(parts, at, r)
  {
    hide OptionalStatus, MaybeStatusAt;
    assert CellOf(parts, at, VoltStatus) == Ok(v[VoltStatus]) && CellOf(parts, at, CurrStatus) == Ok(v[CurrStatus]);
    assert CellOf(parts, at, TempStatus) == Ok(v[TempStatus]);
    assert CellOf(parts, at, BattVoltStatus) == Ok(v[BattVoltStatus]);
    assert CellOf(parts, at, BattTempStatus) == Ok(v[BattTempStatus]);
    StatusRead(parts, at[VoltStatus], v[VoltStatus], r.voltStatus);
    StatusRead(parts, at[CurrStatus], v[CurrStatus], r.currStatus);
    StatusRead(parts, at[TempStatus], v[TempStatus], r.tempStatus);
    StatusRead(parts, at[BattVoltStatus], v[BattVoltStatus], r.battVoltStatus);
    StatusRead(parts, at[BattTempStatus], v[BattTempStatus], r.battTempStatus);
  }

  // A row of the bat table

  predicate InAll(at: Indices<BatField>) {
    forall f: BatField :: f in at
  }

  ghost predicate CellMeasuresAt(parts: Row, at: Indices<BatField>, r: Cell)
    requires InAll(at)
  {
    && WholeAt(parts, at[CellId], r.cellId) && MilliAt(parts, at[CellVoltage], r.voltage)
    && MilliAt(parts, at[CellCurrent], r.current) && MilliAt(parts, at[CellTemperature], r.temperature)
    && TextAt(parts, at[BaseState], r.baseState)
  }

  predicate CellStatesAt(parts: Row, at: Indices<BatField>, r: Cell)
    requires InAll(at)
  {
    && MaybeTextAt(parts, at[CellVoltStatus], r.voltStatus) && MaybeTextAt(parts, at[CellCurrStatus], r.currStatus)
    && MaybeTextAt(parts, at[CellTempStatus], r.tempStatus)
    && PercentOrZeroAt(parts, at[CellSoc], r.soc) && MaybeWholeAt(parts, at[Capacity], r.capacity)
  }

  function BatCellOf(parts: Row, at: Indices<BatField>, f: BatField): Result<Value, CellError>
    requires InAll(at)
  {
    match f
    case CellId => RequiredInt(parts, at[f])
    case CellVoltage | CellCurrent | CellTemperature => RequiredMilli(parts, at[f])
    case BaseState => RequiredStr(parts, at[f])
    case CellSoc => PercentIntOrZero(parts, at[f])
    case Capacity => OptionalIntByBounds(parts, at[f])
    case _ => OptionalStrByBounds(parts, at[f])
  }

  function BatPlaceOf(f: BatField): (k: nat)
    ensures k < 10
  {
    match f
    case CellId => 0 case CellVoltage => 1 case CellCurrent => 2 case CellTemperature => 3 case BaseState => 4
    case CellVoltStatus => 5 case CellCurrStatus => 6 case CellTempStatus => 7 case CellSoc => 8 case Capacity => 9
  }

  function BatFieldAt(k: nat): BatField
    requires k < 10
  {
    match k
    case 0 => CellId case 1 => CellVoltage case 2 => CellCurrent case 3 => CellTemperature case 4 => BaseState
    case 5 => CellVoltStatus case 6 => CellCurrStatus case 7 => CellTempStatus case 8 => CellSoc case _ => Capacity
  }

  lemma BatColumnIs(k: nat, parts: Row, at: Indices<BatField>)
    requires k < 10 && InAll(at)
    ensures |BAT_COLUMNS| == 10
    ensures BAT_COLUMNS[k].field == Some(BatFieldAt(k)) && BatPlaceOf(BatFieldAt(k)) == k && BAT_COLUMNS[k].transform.Some?
    ensures BAT_COLUMNS[k].transform.value(parts, at[BatFieldAt(k)]) == BatCellOf(parts, at, BatFieldAt(k))
  {
    hide RequiredInt, RequiredMilli, RequiredStr, OptionalStrByBounds, OptionalIntByBounds, PercentIntOrZero;
  }

  predicate AllCellsRead(parts: Row, at: Indices<BatField>, v: Values<BatField>)
    requires InAll(at)
  {
    forall f: BatField :: f in v && BatCellOf(parts, at, f) == Ok(v[f])
  }

  lemma {:induction false} BatValuesAre(parts: Row, at: Indices<BatField>)
    requires InAll(at)
    ensures |BAT_COLUMNS| == 10
    ensures var v := RowValues(BAT_COLUMNS, at, parts, |BAT_COLUMNS|);
            && (v.Some? <==> forall f: BatField :: BatCellOf(parts, at, f).Ok?)
            && (v.Some? ==> AllCellsRead(parts, at, v.value))
  {
    hide BatCellOf, RowValues, BAT_COLUMNS;
    BatColumnIs(0, parts, at);
    ValuesIff(BAT_COLUMNS, at, parts, 10);
    forall k: nat | k < 10
      ensures CellPasses(BAT_COLUMNS, at, parts, k) <==> BatCellOf(parts, at, BatFieldAt(k)).Ok?
    {
      BatColumnIs(k, parts, at);
    }
    forall f: BatField
      ensures BatFieldAt(BatPlaceOf(f)) == f
    {
    }
    if RowValues(BAT_COLUMNS, at, parts, 10).Some? {
      forall f: BatField
        ensures BatCellOf(parts, at, f).Ok?
        ensures var v := RowValues(BAT_COLUMNS, at, parts, 10).value; f in v && BatCellOf(parts, at, f) == Ok(v[f])
      {
        BatColumnIs(BatPlaceOf(f), parts, at);
        assert CellPasses(BAT_COLUMNS, at, parts, BatPlaceOf(f));
        BatCell(at, parts, BatPlaceOf(f));
      }
    } else {
      var k: nat :| k < 10 && !CellPasses(BAT_COLUMNS, at, parts, k);
      assert BatCellOf(parts, at, BatFieldAt(k)).Err?;
    }
  }

  /** A line is read as this cell exactly when it starts with a number, reaches as far as the state of charge, and its tokens
      at the columns' places are the cell's values. */
  lemma BatRowIff(at: Indices<BatField>, line: string, r: Cell)
    requires InAll(at)
    ensures LineRow(BatTable(), at, line) == Built(r) <==>
              var parts := Split(line);
              && parts != [] && AllDigits(parts[0]) && at[CellSoc] < |parts|
              && CellMeasuresAt(parts, at, r) && CellStatesAt(parts, at, r)
  {
    hide RowValues, Split, BAT_COLUMNS, RowOverflows, BatCellOf, CellMeasuresAt, CellStatesAt, BuildCellFromBatRow,
      AllCellsRead;
    var parts := Split(line);
    BatValuesAre(parts, at);
    if forall f: BatField :: BatCellOf(parts, at, f).Ok? {
      BatCellsBuild(parts, at, RowValues(BAT_COLUMNS, at, parts, |BAT_COLUMNS|).value, r);
    } else {
      var f: BatField :| BatCellOf(parts, at, f).Err?;
      if CellMeasuresAt(parts, at, r) && CellStatesAt(parts, at, r) { GoodBatCell(parts, at, r, f); }
    }
  }

  lemma GoodBatCell(parts: Row, at: Indices<BatField>, r: Cell, f: BatField)
    requires InAll(at) && CellMeasuresAt(parts, at, r) && CellStatesAt(parts, at, r)
    ensures BatCellOf(parts, at, f).Ok?
  {
    hide MilliAt, WholeAt, PercentOrZeroAt, MaybeWholeAt, RequiredInt, RequiredMilli, OptionalIntByBounds, PercentIntOrZero;
    match f {
      case CellId => WholeIff(parts, at[f], r.cellId);
      case CellVoltage => MilliIff(parts, at[f], r.voltage);
      case CellCurrent => MilliIff(parts, at[f], r.current);
      case CellTemperature => MilliIff(parts, at[f], r.temperature);
      case CellSoc => PercentOrZeroIff(parts, at[f], r.soc);
      case Capacity => CapacityGood(parts, at[f], r.capacity);
      case _ =>
    }
  }

  lemma CapacityGood(parts: Row, i: nat, n: Option<int>)
    requires MaybeWholeAt(parts, i, n)
    ensures OptionalIntByBounds(parts, i).Ok?
  {
    hide WholeAt, OptionalIntByBounds;
    OptionalWholeIff(parts, i, n.GetOr(0));
    if n.Some? { assert n == Some(n.value); }
  }

  lemma OptionalWholeRead(parts: Row, i: nat, v: Value, n: Option<int>)
    requires OptionalIntByBounds(parts, i) == Ok(v)
    ensures (if v.Whole? then Some(v.n) else None) == n <==> MaybeWholeAt(parts, i, n)
  {
    hide WholeAt;
    CellKinds(parts, i);
    OptionalWholeIff(parts, i, n.GetOr(0));
    if v.Whole? { OptionalWholeIff(parts, i, v.n); }
  }

  lemma BatCellsBuild(parts: Row, at: Indices<BatField>, v: Values<BatField>, r: Cell)
    requires InAll(at) && AllCellsRead(parts, at, v)
    ensures BuildCellFromBatRow(v) == Ok(r) <==> CellMeasuresAt(parts, at, r) && CellStatesAt(parts, at, r)
  {
    hide CellMeasuresAt, CellStatesAt, AllCellsRead;
    CellMeasuresRead(parts, at, v, r);
    CellStatesRead(parts, at, v, r);
    CellBuiltIs(v, r);
  }

  predicate SameCellMeasures(v: Values<BatField>, r: Cell) {
    && (forall f: BatField :: f in v)
    && v[CellId] == Whole(r.cellId) && v[CellVoltage] == Decimal(r.voltage) && v[CellCurrent] == Decimal(r.current)
    && v[CellTemperature] == Decimal(r.temperature) && v[BaseState] == Word(r.baseState)
  }

  predicate SameCellStates(v: Values<BatField>, r: Cell) {
    && r.voltStatus == OptWord(v, CellVoltStatus) && r.currStatus == OptWord(v, CellCurrStatus)
    && r.tempStatus == OptWord(v, CellTempStatus) && CellSoc in v && v[CellSoc] == Whole(r.soc)
    && r.capacity == OptWhole(v, Capacity)
  }

  lemma CellBuiltIs(v: Values<BatField>, r: Cell)
    requires (forall f: BatField :: f in v) && v[CellSoc].Whole?
    ensures BuildCellFromBatRow(v) == Ok(r) <==> SameCellMeasures(v, r) && SameCellStates(v, r)
  {
  }

  lemma CellMeasuresRead(parts: Row, at: Indices<BatField>, v: Values<BatField>, r: Cell)
    requires InAll(at) && AllCellsRead(parts, at, v)
    ensures (forall f: BatField :: f in v) && (SameCellMeasures(v, r) <==> CellMeasuresAt(parts, at, r))
  {
    hide MilliAt, WholeAt, RequiredInt, RequiredMilli;
    WholeIff(parts, at[CellId], r.cellId);
    MilliIff(parts, at[CellVoltage], r.voltage);
    MilliIff(parts, at[CellCurrent], r.current);
    MilliIff(parts, at[CellTemperature], r.temperature);
    assert BatCellOf(parts, at, CellId) == Ok(v[CellId]) && BatCellOf(parts, at, BaseState) == Ok(v[BaseState]);
    assert BatCellOf(parts, at, CellVoltage) == Ok(v[CellVoltage]) && BatCellOf(parts, at, CellCurrent) == Ok(v[CellCurrent]);
    assert BatCellOf(parts, at, CellTemperature) == Ok(v[CellTemperature]);
  }

  lemma TextRead(parts: Row, i: nat, v: Value, s: Option<string>)
    requires OptionalStrByBounds(parts, i) == Ok(v)
    ensures (if v.Word? then Some(v.s) else None) == s <==> MaybeTextAt(parts, i, s)
  {
  }

  lemma CellStatesRead(parts: Row, at: Indices<BatField>, v: Values<BatField>, r: Cell)
    requires InAll(at) && AllCellsRead(parts, at, v)
    ensures v[CellSoc].Whole? && (SameCellStates(v, r) <==> CellStatesAt(parts, at, r))
  {
    hide PercentOrZeroAt, MaybeWholeAt, MaybeTextAt, OptionalIntByBounds, PercentIntOrZero, OptionalStrByBounds;
    assert BatCellOf(parts, at, CellVoltStatus) == Ok(v[CellVoltStatus]);
    assert BatCellOf(parts, at, CellCurrStatus) == Ok(v[CellCurrStatus]);
    assert BatCellOf(parts, at, CellTempStatus) == Ok(v[CellTempStatus]);
    assert BatCellOf(parts, at, CellSoc) == Ok(v[CellSoc]) && BatCellOf(parts, at, Capacity) == Ok(v[Capacity]);
    TextRead(parts, at[CellVoltStatus], v[CellVoltStatus], r.voltStatus);
    TextRead(parts, at[CellCurrStatus], v[CellCurrStatus], r.currStatus);
    TextRead(parts, at[CellTempStatus], v[CellTempStatus], r.tempStatus);
    CellKinds(parts, at[CellSoc]);
    PercentOrZeroIff(parts, at[CellSoc], r.soc);
    OptionalWholeRead(parts, at[Capacity], v[Capacity], r.capacity);
  }

  // Where the columns are

  /** The first header line decides: the first whose first token is the one asked for and that has the other one. */
  lemma {:induction false} FirstHeaderIff<F, T>(schema: TableSchema<F, T>, lines: seq<string>, parts: Row)
    ensures FirstHeader(schema, lines) == Some(parts) <==>
              exists i :: 0 <= i < |lines| && FirstAt(schema, lines, i) && parts == Split(lines[i])
    ensures FirstHeader(schema, lines).None? <==> forall i :: 0 <= i < |lines| ==> !HeaderLine(schema, lines[i])
  {
    if lines != [] {
      FirstHeaderIff(schema, lines[1..], parts);
      if HeaderLine(schema, lines[0]) {
        assert FirstAt(schema, lines, 0);
      } else {
        forall i | 0 <= i < |lines| - 1 ensures FirstAt(schema, lines[1..], i) <==> FirstAt(schema, lines, i + 1) {
          FirstFollows(schema, lines, i);
        }
        if FirstHeader(schema, lines) == Some(parts) {
          var i :| 0 <= i < |lines[1..]| && FirstAt(schema, lines[1..], i) && parts == Split(lines[1..][i]);
          assert FirstAt(schema, lines, i + 1);
        }
        if i :| 0 <= i < |lines| && FirstAt(schema, lines, i) && parts == Split(lines[i]) {
          assert FirstAt(schema, lines[1..], i - 1);
        }
        if i :| 0 <= i < |lines| && HeaderLine(schema, lines[i]) {
          assert HeaderLine(schema, lines[1..][i - 1]);
        }
      }
    }
  }

  lemma FirstFollows<F, T>(schema: TableSchema<F, T>, lines: seq<string>, i: nat)
    requires i < |lines| - 1 && !HeaderLine(schema, lines[0])
    ensures FirstAt(schema, lines[1..], i) <==> FirstAt(schema, lines, i + 1)
  {
    if FirstAt(schema, lines[1..], i) {
      forall j | 0 <= j < i + 1 ensures !HeaderLine(schema, lines[j]) {
        if j > 0 { assert !HeaderLine(schema, lines[1..][j - 1]); }
      }
    }
    if FirstAt(schema, lines, i + 1) {
      forall j | 0 <= j < i ensures !HeaderLine(schema, lines[1..][j]) {
        assert !HeaderLine(schema, lines[j + 1]);
      }
    }
  }

  predicate HeaderLine<F, T>(schema: TableSchema<F, T>, line: string) {
    var parts := Split(line);
    parts != [] && parts[0] == schema.headerFirstToken && exists j :: 0 <= j < |parts| && parts[j] == schema.headerMustContain
  }

  predicate FirstAt<F, T>(schema: TableSchema<F, T>, lines: seq<string>, i: nat) {
    i < |lines| && HeaderLine(schema, lines[i]) && forall j :: 0 <= j < i ==> !HeaderLine(schema, lines[j])
  }

  /** The two tables' headers begin with their own name and have the charge. */
  lemma HeadersAre()
    ensures PwrTable().headerFirstToken == "Power" && PwrTable().headerMustContain == "Coulomb"
    ensures BatTable().headerFirstToken == "Battery" && BatTable().headerMustContain == "Coulomb"
  {
  }

  /** Without a header, the columns are where old firmware prints them: the two tokens of the time come before the last two. */
  lemma PwrDefaultsAre()
    ensures Everywhere(Defaults(PWR_COLUMNS, |PWR_COLUMNS|))
    ensures forall f: PwrField :: Defaults(PWR_COLUMNS, |PWR_COLUMNS|)[f] == if PlaceOf(f) < 13 then PlaceOf(f) else PlaceOf(f) + 1
  {
    hide Defaults;
    PwrSound();
    forall f: PwrField
      ensures var at := Defaults(PWR_COLUMNS, |PWR_COLUMNS|);
              f in at && at[f] == if PlaceOf(f) < 13 then PlaceOf(f) else PlaceOf(f) + 1
    {
      DefaultIs(PlaceOf(f));
      DefaultsHave(PWR_COLUMNS, |PWR_COLUMNS|, PlaceOf(f));
    }
  }

  lemma DefaultIs(k: nat)
    requires k < 16 && k != 13
    ensures |PWR_COLUMNS| == 16 && PWR_COLUMNS[k].field == Some(FieldAt(k))
    ensures PWR_COLUMNS[k].defaultIndex == Some(if k < 13 then k else k + 1)
  {
  }

  /** And new firmware's cells, each state after its measure, in one token each. */
  lemma BatDefaultsAre()
    ensures InAll(Defaults(BAT_COLUMNS, |BAT_COLUMNS|))
    ensures forall f: BatField :: Defaults(BAT_COLUMNS, |BAT_COLUMNS|)[f] == BatPlaceOf(f)
  {
    hide Defaults;
    BatSound();
    forall f: BatField
      ensures var at := Defaults(BAT_COLUMNS, |BAT_COLUMNS|); f in at && at[f] == BatPlaceOf(f)
    {
      BatDefaultIs(BatPlaceOf(f));
      DefaultsHave(BAT_COLUMNS, |BAT_COLUMNS|, BatPlaceOf(f));
    }
  }

  lemma BatDefaultIs(k: nat)
    requires k < 10
    ensures |BAT_COLUMNS| == 10 && BAT_COLUMNS[k].field == Some(BatFieldAt(k)) && BAT_COLUMNS[k].defaultIndex == Some(k)
  {
  }
}
