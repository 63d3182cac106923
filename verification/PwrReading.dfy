/** What the parser reads under each column of a pwr row, and where each firmware's header puts the columns. */
module PwrReading {
  import opened Wrappers
  import opened Text
  import opened Table
  import opened Schemas
  import opened SchemaLaws
  import opened Layout
  import opened Stub

  // What the table should be read as

  function Milli(n: int): real {
    n as real / 1000.0
  }

  /** The battery that stands behind a printed row: the same for both firmwares. */
  function Reading(b: Bms, id: nat): Battery {
    var f := b.FaultOf(id);
    var v := ShownBy(b.state, b.cfg.cells, f, TABLE_OVER_CURRENT);
    Battery(id, Milli(v.voltage), Milli(v.current), Milli(v.temperature), b.state.soc, StateWord(b.state.current),
            Power(Milli(v.voltage), Milli(v.current)), 0.0,
            Some(Milli(v.tempLow)), Some(Milli(v.tempHigh)), Some(Milli(v.voltLow)), Some(Milli(v.voltHigh)),
            Some(VoltWord(f)), Some(CurrWord(f)), Some(TempWord(f)), Some(VoltWord(f)), Some(TempWord(f)),
            None, None, None, None, [])
  }

  /** The batteries in the present slots among the first n, in ascending id order. */
  function Readings(b: Bms, n: nat): (r: seq<Battery>)
    ensures |r| <= n
    ensures forall i :: 0 <= i < |r| ==> 1 <= r[i].sysId <= n
    ensures forall i, j :: 0 <= i < j < |r| ==> r[i].sysId < r[j].sysId
    ensures forall id :: 1 <= id <= n ==> (Present(b, id) <==> Reading(b, id) in r)
  {
    if n == 0 then [] else Readings(b, n - 1) + (if Present(b, n) then [Reading(b, n)] else [])
  }

  /** The texts under the sixteen columns of the schema; the two tokens of Time are nobody's. */
  function CellTexts(b: Bms, id: nat): (texts: seq<string>)
    ensures |texts| == 16
  {
    var f := b.FaultOf(id);
    var v := ShownBy(b.state, b.cfg.cells, f, TABLE_OVER_CURRENT);
    [IntText(id), IntText(v.voltage), IntText(v.current), IntText(v.temperature),
     IntText(v.tempLow), IntText(v.tempHigh), IntText(v.voltLow), IntText(v.voltHigh),
     StateWord(b.state.current), VoltWord(f), CurrWord(f), TempWord(f), IntText(b.state.soc) + "%",
     "", VoltWord(f), TempWord(f)]
  }

  function CellValues(b: Bms, id: nat): (values: seq<Value>)
    ensures |values| == 16
  {
    var f := b.FaultOf(id);
    var v := ShownBy(b.state, b.cfg.cells, f, TABLE_OVER_CURRENT);
    [Whole(id), Decimal(Milli(v.voltage)), Decimal(Milli(v.current)), Decimal(Milli(v.temperature)),
     Decimal(Milli(v.tempLow)), Decimal(Milli(v.tempHigh)), Decimal(Milli(v.voltLow)), Decimal(Milli(v.voltHigh)),
     Word(StateWord(b.state.current)), Word(VoltWord(f)), Word(CurrWord(f)), Word(TempWord(f)), Whole(b.state.soc),
     Absent, Word(VoltWord(f)), Word(TempWord(f))]
  }

  // Cells

  lemma {:induction false} PercentDropped(s: string)
    requires '%' !in s
    ensures WithoutPercent(s + "%") == s
  {
    if s == "" {
      assert WithoutPercent("%") == "" + WithoutPercent("%"[1..]);
      assert "%"[1..] == "";
      assert s + "%" == "%";
    } else {
      assert (s + "%")[1..] == s[1..] + "%";
      PercentDropped(s[1..]);
    }
  }

  /** A word without the letter that only absent rows have, and without a percent sign. */
  predicate Plain(s: string) {
    IsWord(s) && 'b' !in s && '%' !in s
  }

  lemma IntTextPlain(n: int)
    ensures Plain(IntText(n))
  {
    IntTextWord(n);
    assert AllDigits(NatText(if n < 0 then -n else n));
  }

  /** Short enough for a float. */
  predicate Short(s: string) {
    |s| <= 16
  }

  lemma NumberCells(parts: Row, i: nat, n: int)
    requires i < |parts| && parts[i] == IntText(n) && Short(parts[i])
    ensures RequiredInt(parts, i) == Ok(Whole(n))
    ensures RequiredMilli(parts, i) == Ok(Decimal(Milli(n)))
    ensures OptionalMilli(parts, i) == Ok(Decimal(Milli(n)))
  {
    IntTextReads(n);
    ShortIsFloat(n);
    DashIsNoNumber();
  }

  lemma PercentCell(parts: Row, i: nat, n: int)
    requires i < |parts| && parts[i] == IntText(n) + "%" && Short(parts[i])
    ensures RequiredPercentInt(parts, i) == Ok(Whole(n))
    ensures PercentIntOrZero(parts, i) == Ok(Whole(n))
  {
    IntTextPlain(n);
    PercentDropped(IntText(n));
    IntTextReads(n);
  }

  lemma StatusCell(parts: Row, i: nat, w: string)
    requires i < |parts| && parts[i] == w && IsWord(w) && w != "-"
    ensures OptionalStatus(parts, i) == Ok(Word(w))
  {
    StripWord(w);
  }

  /** The numbers printed for a slot are short. */
  predicate ShortNumbers(b: Bms, id: nat) {
    forall k :: 0 <= k < 16 ==> k < 8 || k == 12 ==> Short(CellTexts(b, id)[k])
  }

  lemma NumberGives(b: Bms, id: nat, parts: Row, i: nat, k: nat)
    requires ShortNumbers(b, id)
    requires k < 8 && i < |parts| && parts[i] == CellTexts(b, id)[k]
    ensures PWR_COLUMNS[k].transform.value(parts, i) == Ok(CellValues(b, id)[k])
  {
    var v := ShownBy(b.state, b.cfg.cells, b.FaultOf(id), TABLE_OVER_CURRENT);
    var numbers := [id, v.voltage, v.current, v.temperature, v.tempLow, v.tempHigh, v.voltLow, v.voltHigh];
    assert CellTexts(b, id)[k] == IntText(numbers[k]);
    NumberCells(parts, i, numbers[k]);
  }

  /** The state words are single tokens, and none is the placeholder. */
  lemma WordsPlain(f: FaultKind, current: int)
    ensures Plain(VoltWord(f)) && Plain(CurrWord(f)) && Plain(TempWord(f)) && Plain(AlarmWord(f))
    ensures Plain(StateWord(current))
    ensures VoltWord(f) != "-" && CurrWord(f) != "-" && TempWord(f) != "-"
  {
    hide Plain, VoltWord, CurrWord, TempWord, AlarmWord, StateWord;
    StateWordPlain(current);
    FaultWordsPlain(f);
  }

  lemma StateWordPlain(current: int)
    ensures Plain(StateWord(current))
  {
  }

  lemma FaultWordsPlain(f: FaultKind)
    ensures Plain(VoltWord(f)) && Plain(CurrWord(f)) && Plain(TempWord(f)) && Plain(AlarmWord(f))
    ensures VoltWord(f) != "-" && CurrWord(f) != "-" && TempWord(f) != "-"
  {
  }

  lemma WordGives(b: Bms, id: nat, parts: Row, i: nat, k: nat)
    requires 8 < k < 16 && k != 12 && k != 13 && i < |parts| && parts[i] == CellTexts(b, id)[k]
    ensures PWR_COLUMNS[k].transform.value(parts, i) == Ok(CellValues(b, id)[k])
  {
    var f := b.FaultOf(id);
    WordsPlain(f, b.state.current);
    var words := [VoltWord(f), CurrWord(f), TempWord(f), "", "", VoltWord(f), TempWord(f)];
    assert CellTexts(b, id)[k] == words[k - 9];
    StatusCell(parts, i, words[k - 9]);
  }

  lemma TransformGives(b: Bms, id: nat, parts: Row, i: nat, k: nat)
    requires ShortNumbers(b, id)
    requires k < 16 && k != 13 && i < |parts| && parts[i] == CellTexts(b, id)[k]
    ensures PWR_COLUMNS[k].transform.value(parts, i) == Ok(CellValues(b, id)[k])
  {
    if k < 8 {
      NumberGives(b, id, parts, i, k);
    } else if k == 12 {
      PercentCell(parts, i, b.state.soc);
    } else if k > 8 {
      WordGives(b, id, parts, i, k);
    }
  }

  // Rows

  /** Every field's index leads to the text printed under its column. */
  predicate Leads(b: Bms, id: nat, indices: Indices<PwrField>, parts: Row) {
    forall k :: 0 <= k < 16 && k != 13 ==>
      var f := PWR_COLUMNS[k].field;
      f.Some? && f.value in indices && indices[f.value] < |parts| && parts[indices[f.value]] == CellTexts(b, id)[k]
  }

  lemma {:induction false} GoodCells<F>(columns: seq<ColumnSpec<F>>, indices: Indices<F>, parts: Row, n: nat)
    requires n <= |columns|
    requires forall k :: 0 <= k < n && columns[k].field.Some? && columns[k].transform.Some? && columns[k].field.value in indices
               ==> columns[k].transform.value(parts, indices[columns[k].field.value]).Ok?
    ensures RowValues(columns, indices, parts, n).Some?
  {
    if n > 0 {
      GoodCells(columns, indices, parts, n - 1);
    }
  }

  lemma CellIsGood(b: Bms, id: nat, indices: Indices<PwrField>, parts: Row, k: nat)
    requires Leads(b, id, indices, parts) && ShortNumbers(b, id) && k < 16 && k != 13
    ensures PWR_COLUMNS[k].field.Some? && PWR_COLUMNS[k].transform.Some? && PWR_COLUMNS[k].field.value in indices
    ensures PWR_COLUMNS[k].transform.value(parts, indices[PWR_COLUMNS[k].field.value]) == Ok(CellValues(b, id)[k])
  {
    assert PWR_COLUMNS[k].field.Some?;
    TransformGives(b, id, parts, indices[PWR_COLUMNS[k].field.value], k);
  }

  /** The dict holds the value of every column. */
  predicate Holds(b: Bms, id: nat, v: Values<PwrField>) {
    forall k :: 0 <= k < 16 && k != 13 ==>
      var f := PWR_COLUMNS[k].field;
      f.Some? && f.value in v && v[f.value] == CellValues(b, id)[k]
  }

  lemma {:induction false} RowHolds(b: Bms, id: nat, indices: Indices<PwrField>, parts: Row)
    requires Leads(b, id, indices, parts) && ShortNumbers(b, id)
    ensures RowValues(PWR_COLUMNS, indices, parts, |PWR_COLUMNS|).Some?
    ensures Holds(b, id, RowValues(PWR_COLUMNS, indices, parts, |PWR_COLUMNS|).value)
  {
    forall k | 0 <= k < |PWR_COLUMNS| && PWR_COLUMNS[k].field.Some? && PWR_COLUMNS[k].transform.Some?
               && PWR_COLUMNS[k].field.value in indices
      ensures PWR_COLUMNS[k].transform.value(parts, indices[PWR_COLUMNS[k].field.value]).Ok?
    {
      CellIsGood(b, id, indices, parts, k);
    }
    GoodCells(PWR_COLUMNS, indices, parts, |PWR_COLUMNS|);
    forall k | 0 <= k < 16 && k != 13
      ensures var f, v := PWR_COLUMNS[k].field, RowValues(PWR_COLUMNS, indices, parts, |PWR_COLUMNS|).value;
              f.Some? && f.value in v && v[f.value] == CellValues(b, id)[k]
    {
      CellIsGood(b, id, indices, parts, k);
      PwrCell(indices, parts, k);
    }
  }

  lemma HeldValue(b: Bms, id: nat, v: Values<PwrField>, k: nat)
    requires Holds(b, id, v) && k < 16 && k != 13
    ensures PWR_COLUMNS[k].field.Some? && PWR_COLUMNS[k].field.value in v
    ensures v[PWR_COLUMNS[k].field.value] == CellValues(b, id)[k]
  {
    assert PWR_COLUMNS[k].field.Some?;
  }

  /** The dict has this value for the field. */
  predicate Has(v: Values<PwrField>, f: PwrField, value: Value) {
    f in v && v[f] == value
  }

  predicate HasNumbers(b: Bms, id: nat, v: Values<PwrField>) {
    var s := ShownBy(b.state, b.cfg.cells, b.FaultOf(id), TABLE_OVER_CURRENT);
    && Has(v, SysId, Whole(id)) && Has(v, Voltage, Decimal(Milli(s.voltage)))
    && Has(v, Current, Decimal(Milli(s.current))) && Has(v, Temperature, Decimal(Milli(s.temperature)))
    && Has(v, Soc, Whole(b.state.soc))
  }

  predicate HasExtremes(b: Bms, id: nat, v: Values<PwrField>) {
    var s := ShownBy(b.state, b.cfg.cells, b.FaultOf(id), TABLE_OVER_CURRENT);
    && Has(v, TempLow, Decimal(Milli(s.tempLow))) && Has(v, TempHigh, Decimal(Milli(s.tempHigh)))
    && Has(v, VoltLow, Decimal(Milli(s.voltLow))) && Has(v, VoltHigh, Decimal(Milli(s.voltHigh)))
  }

  predicate HasWords(b: Bms, id: nat, v: Values<PwrField>) {
    var f := b.FaultOf(id);
    && Has(v, Status, Word(StateWord(b.state.current)))
    && Has(v, VoltStatus, Word(VoltWord(f))) && Has(v, CurrStatus, Word(CurrWord(f)))
    && Has(v, TempStatus, Word(TempWord(f)))
    && Has(v, BattVoltStatus, Word(VoltWord(f))) && Has(v, BattTempStatus, Word(TempWord(f)))
  }

  lemma HeldNumbers(b: Bms, id: nat, v: Values<PwrField>)
    requires Holds(b, id, v)
    ensures HasNumbers(b, id, v)
  {
    HeldValue(b, id, v, 0);
    HeldValue(b, id, v, 1);
    HeldValue(b, id, v, 2);
    HeldValue(b, id, v, 3);
    HeldValue(b, id, v, 12);
  }

  lemma HeldExtremes(b: Bms, id: nat, v: Values<PwrField>)
    requires Holds(b, id, v)
    ensures HasExtremes(b, id, v)
  {
    HeldValue(b, id, v, 4);
    HeldValue(b, id, v, 5);
    HeldValue(b, id, v, 6);
    HeldValue(b, id, v, 7);
  }

  lemma HeldWords(b: Bms, id: nat, v: Values<PwrField>)
    requires Holds(b, id, v)
    ensures HasWords(b, id, v)
  {
    HeldValue(b, id, v, 8);
    HeldValue(b, id, v, 9);
    HeldValue(b, id, v, 10);
    HeldValue(b, id, v, 11);
    HeldValue(b, id, v, 14);
    HeldValue(b, id, v, 15);
  }

  lemma NamedBuilds(b: Bms, id: nat, v: Values<PwrField>)
    requires HasNumbers(b, id, v) && HasExtremes(b, id, v) && HasWords(b, id, v)
    ensures BuildBatteryFromPwrRow(v) == Ok(Reading(b, id))
  {
  }

  lemma HoldsBuilds(b: Bms, id: nat, v: Values<PwrField>)
    requires Holds(b, id, v)
    ensures BuildBatteryFromPwrRow(v) == Ok(Reading(b, id))
  {
    HeldNumbers(b, id, v);
    HeldExtremes(b, id, v);
    HeldWords(b, id, v);
    NamedBuilds(b, id, v);
  }

  // Headers

  const OLD_ITEMS: seq<Item> := [
    Declared(0), Declared(1), Declared(2), Declared(3), Declared(4), Declared(5), Declared(6), Declared(7),
    Declared(8), Declared(9), Declared(10), Declared(11), Declared(12), Declared(13), Declared(14), Declared(15)]

  const NEW_ITEMS: seq<Item> := [
    Declared(0), Declared(1), Declared(2), Declared(3), Declared(4), Unknown("Tlow.Id"), Declared(5),
    Unknown("Thigh.Id"), Declared(6), Unknown("Vlow.Id"), Declared(7), Unknown("Vhigh.Id"), Declared(8), Declared(9),
    Declared(10), Declared(11), Declared(12), Declared(13), Declared(14), Declared(15), Unknown("MosTempr"),
    Unknown("M.T.St"), Unknown("SysAlarm.St")]

  /** The tokens of a header line. */
  function Names(fields: seq<Field>): (names: Row)
    ensures |names| == |fields|
    ensures forall i :: 0 <= i < |fields| ==> names[i] == fields[i].value
  {
    if fields == [] then [] else [fields[0].value] + Names(fields[1..])
  }

  /** Every item is one token wide, and the tokens spell them. */
  predicate TokenByToken<F>(columns: seq<ColumnSpec<F>>, items: seq<Item>, parts: Row) {
    && |parts| == |items|
    && forall j :: 0 <= j < |items| ==>
         InSchema(columns, items[j]) && HeaderWidth(columns, items[j]) == 1 && Spells(columns, items[j], [parts[j]])
  }

  lemma {:induction false} ArrangedByToken<F>(columns: seq<ColumnSpec<F>>, items: seq<Item>, parts: Row, i: nat)
    requires TokenByToken(columns, items, parts) && i <= |items|
    ensures Arranged(columns, items[i..], parts, i)
    decreases |items| - i
  {
    if i < |items| {
      ArrangedByToken(columns, items, parts, i + 1);
      assert items[i..][0] == items[i] && items[i..][1..] == items[i + 1..];
      assert parts[i..i + 1] == [parts[i]];
    }
  }

  /** Where item t takes two data tokens and every other takes one. */
  lemma {:induction false} PositionsPast<F>(columns: seq<ColumnSpec<F>>, items: seq<Item>, t: nat, j: nat)
    requires AllInSchema(columns, items) && j <= |items| && t < |items|
    requires forall i :: 0 <= i < |items| ==> DataWidth(columns, items[i]) == if i == t then 2 else 1
    ensures Position(columns, items, j) == if j > t then j + 1 else j
    decreases j
  {
    if j > 0 {
      PositionsPast(columns, items, t, j - 1);
    }
  }

  lemma NameSpells<F>(columns: seq<ColumnSpec<F>>, k: nat, name: string)
    requires k < |columns| && columns[k].headerTokens == [name]
    ensures Spells(columns, Declared(k), [name])
  {
  }

  lemma OldItem(j: nat)
    requires j < 16
    ensures OLD_ITEMS[j] == Declared(j) && PWR_COLUMNS[j].headerTokens == [OLD_HEADER[j].value]
    ensures PWR_COLUMNS[j].dataWidth == if j == 13 then 2 else 1
  {
  }

  /** The item is spelled by the one token and takes the given number of data tokens. */
  predicate OneToken<F>(columns: seq<ColumnSpec<F>>, item: Item, name: string, width: nat) {
    InSchema(columns, item) && HeaderWidth(columns, item) == 1 && Spells(columns, item, [name])
    && DataWidth(columns, item) == width
  }

  lemma OldToken(j: nat)
    requires j < 16
    ensures OneToken(PWR_COLUMNS, OLD_ITEMS[j], OLD_HEADER[j].value, if j == 13 then 2 else 1)
  {
    OldItem(j);
    NameSpells(PWR_COLUMNS, j, OLD_HEADER[j].value);
  }

  lemma OldOnceEach()
    ensures OnceEach(OLD_ITEMS)
  {
    forall i, j | 0 <= i < j < 16
      ensures OLD_ITEMS[i] != OLD_ITEMS[j]
    {
      OldItem(i);
      OldItem(j);
    }
  }

  /** The item that stands for column k in the header with the ids. */
  function NewSlot(k: nat): nat {
    if k < 5 then k else if k < 9 then 2 * k - 4 else k + 4
  }

  /** The column of item j, if it is one of the schema's. */
  predicate IsNewSlot(j: nat) {
    j < 20 && j != 5 && j != 7 && j != 9 && j != 11
  }

  function NewColumn(j: nat): nat
    requires IsNewSlot(j)
    ensures NewColumn(j) < 16 && NewSlot(NewColumn(j)) == j
  {
    if j < 5 then j else if j < 13 then j / 2 + 2 else j - 4
  }

  /** The name at place j of the header is that of its column, or of none. */
  predicate NewItemNamed(j: nat)
    requires j < 23
  {
    && (IsNewSlot(j) ==>
          && NEW_ITEMS[j] == Declared(NewColumn(j))
          && PWR_COLUMNS[NewColumn(j)].headerTokens == [NEW_HEADER[j].value]
          && PWR_COLUMNS[NewColumn(j)].dataWidth == if j == 17 then 2 else 1)
    && (!IsNewSlot(j) ==> NEW_ITEMS[j] == Unknown(NEW_HEADER[j].value))
  }

  lemma EarlyNewItem(j: nat)
    requires j < 12
    ensures NewItemNamed(j)
  {
  }

  lemma LateNewItem(j: nat)
    requires 12 <= j < 23
    ensures NewItemNamed(j)
  {
  }

  lemma NewItem(j: nat)
    requires j < 23
    ensures NewItemNamed(j)
  {
    hide NewItemNamed;
    if j < 12 { EarlyNewItem(j); } else { LateNewItem(j); }
  }

  const EXTRA_NAMES := ["Tlow.Id", "Thigh.Id", "Vlow.Id", "Vhigh.Id", "MosTempr", "M.T.St", "SysAlarm.St"]

  lemma ExtraName(i: nat)
    requires i < |EXTRA_NAMES|
    ensures |EXTRA_NAMES[i]| >= 3 && Mark(EXTRA_NAMES[i]) !in PWR_MARKS
  {
  }

  lemma NewExtra(j: nat)
    requires j < 23 && !IsNewSlot(j)
    ensures NEW_HEADER[j].value in EXTRA_NAMES
  {
  }

  lemma NewToken(j: nat)
    requires j < 23
    ensures OneToken(PWR_COLUMNS, NEW_ITEMS[j], NEW_HEADER[j].value, if j == 17 then 2 else 1)
  {
    NewItem(j);
    if IsNewSlot(j) {
      NameSpells(PWR_COLUMNS, NewColumn(j), NEW_HEADER[j].value);
    } else {
      NewExtra(j);
      var name := NEW_HEADER[j].value;
      var i :| 0 <= i < |EXTRA_NAMES| && EXTRA_NAMES[i] == name;
      ExtraName(i);
      PwrMarked();
      UnmarkedIsUnknown(PWR_COLUMNS, PWR_MARKS, name);
    }
  }

  lemma NewOnceEach()
    ensures OnceEach(NEW_ITEMS)
  {
    forall i, j | 0 <= i < j < 23 && NEW_ITEMS[i].Declared?
      ensures NEW_ITEMS[i] != NEW_ITEMS[j]
    {
      NewItem(i);
      NewItem(j);
    }
  }

  // The index of every field

  /** Each item one token, item t with two data tokens. */
  predicate OneTokenEach<F>(columns: seq<ColumnSpec<F>>, items: seq<Item>, names: Row, t: nat) {
    && |names| == |items|
    && t < |items|
    && OnceEach(items)
    && forall j :: 0 <= j < |items| ==> OneToken(columns, items[j], names[j], if j == t then 2 else 1)
  }

  lemma IndexOf<F(!new)>(columns: seq<ColumnSpec<F>>, items: seq<Item>, names: Row, t: nat, j: nat)
    requires Sound(columns) && PrefixFree(columns) && OneTokenEach(columns, items, names, t)
    requires j < |items| && items[j].Declared? && items[j].column < |columns| && columns[items[j].column].field.Some?
    ensures var f, found := columns[items[j].column].field.value, IndicesOver(columns, names);
            f in found && found[f] == if j > t then j + 1 else j
  {
    assert forall i :: 0 <= i < |items| ==> OneToken(columns, items[i], names[i], if i == t then 2 else 1);
    ArrangedByToken(columns, items, names, 0);
    assert items[0..] == items;
    PositionsPast(columns, items, t, j);
    WalkFinds(columns, items, names, j);
  }

  lemma ColumnIndex<F(!new)>(
    columns: seq<ColumnSpec<F>>, items: seq<Item>, names: Row, t: nat, k: nat, j: nat, p: nat)
    requires Sound(columns) && PrefixFree(columns) && OneTokenEach(columns, items, names, t)
    requires k < |columns| && j < |items| && items[j] == Declared(k) && columns[k].field.Some?
    requires p == if j > t then j + 1 else j
    ensures var f, found := columns[k].field.value, IndicesOver(columns, names); f in found && found[f] == p
  {
    IndexOf(columns, items, names, t, j);
  }

  function Items(fw: Firmware): seq<Item> {
    if fw == OldFirmware then OLD_ITEMS else NEW_ITEMS
  }

  function Slot(fw: Firmware, k: nat): nat {
    if fw == OldFirmware then k else NewSlot(k)
  }

  lemma OldTokens()
    ensures OneTokenEach(PWR_COLUMNS, OLD_ITEMS, Names(OLD_HEADER), 13)
  {
    OldOnceEach();
    forall j | 0 <= j < 16
      ensures OneToken(PWR_COLUMNS, OLD_ITEMS[j], Names(OLD_HEADER)[j], if j == 13 then 2 else 1)
    {
      OldToken(j);
    }
  }

  lemma NewTokens()
    ensures OneTokenEach(PWR_COLUMNS, NEW_ITEMS, Names(NEW_HEADER), 17)
  {
    NewOnceEach();
    forall j | 0 <= j < 23
      ensures OneToken(PWR_COLUMNS, NEW_ITEMS[j], Names(NEW_HEADER)[j], if j == 17 then 2 else 1)
    {
      NewToken(j);
    }
  }

  lemma SlotItem(fw: Firmware, k: nat)
    requires k < 16
    ensures Slot(fw, k) < |Items(fw)| && Items(fw)[Slot(fw, k)] == Declared(k)
  {
    OldItem(k);
    NewItem(NewSlot(k));
    assert NewColumn(NewSlot(k)) == k;
  }

  /** The token of a data row that column k is read from. */
  function TokenOf(fw: Firmware, k: nat): nat {
    if k > 13 then Slot(fw, k) + 1 else Slot(fw, k)
  }

  lemma PwrColumnIndex(items: seq<Item>, names: Row, t: nat, k: nat, j: nat, p: nat)
    requires OneTokenEach(PWR_COLUMNS, items, names, t)
    requires k < 16 && PWR_COLUMNS[k].field.Some? && j < |items| && items[j] == Declared(k)
    requires p == if j > t then j + 1 else j
    ensures var f, found := PWR_COLUMNS[k].field.value, IndicesOver(PWR_COLUMNS, names); f in found && found[f] == p
  {
    PwrSound();
    PwrPrefixFree();
    ColumnIndex(PWR_COLUMNS, items, names, t, k, j, p);
  }

  lemma NewSlotItem(k: nat)
    requires k < 16 && k != 13
    ensures NewSlot(k) < |NEW_ITEMS| && NEW_ITEMS[NewSlot(k)] == Declared(k)
    ensures TokenOf(NewFirmware, k) == if NewSlot(k) > 17 then NewSlot(k) + 1 else NewSlot(k)
  {
    SlotItem(NewFirmware, k);
  }

  lemma OldFieldIndex(k: nat)
    requires k < 16 && k != 13 && PWR_COLUMNS[k].field.Some?
    ensures var f, found := PWR_COLUMNS[k].field.value, IndicesOver(PWR_COLUMNS, Names(OLD_HEADER));
            f in found && found[f] == TokenOf(OldFirmware, k)
  {
    OldTokens();
    OldItem(k);
    PwrColumnIndex(OLD_ITEMS, Names(OLD_HEADER), 13, k, k, TokenOf(OldFirmware, k));
  }

  lemma NewFieldIndex(k: nat)
    requires k < 16 && k != 13 && PWR_COLUMNS[k].field.Some?
    ensures var f, found := PWR_COLUMNS[k].field.value, IndicesOver(PWR_COLUMNS, Names(NEW_HEADER));
            f in found && found[f] == TokenOf(NewFirmware, k)
  {
    hide IndicesOver, Names, Walk;
    NewTokens();
    NewSlotItem(k);
    PwrColumnIndex(NEW_ITEMS, Names(NEW_HEADER), 17, k, NewSlot(k), TokenOf(NewFirmware, k));
  }

  lemma FieldIndex(fw: Firmware, k: nat)
    requires k < 16 && k != 13 && PWR_COLUMNS[k].field.Some?
    ensures var f, found := PWR_COLUMNS[k].field.value, IndicesOver(PWR_COLUMNS, Names(Header(fw)));
            f in found && found[f] == TokenOf(fw, k)
  {
    if fw == OldFirmware {
      OldFieldIndex(k);
    } else {
      NewFieldIndex(k);
    }
  }
}
