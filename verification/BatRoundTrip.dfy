/** The bat table round trip: state of charge and capacity are read from the percentage and the mAh tokens, whether or
    not the header has the SOC label. */
module BatRoundTrip {
  import opened Wrappers
  import opened Text
  import opened Table
  import opened Schemas
  import opened SchemaLaws
  import opened Layout
  import opened Stub
  import opened Rendering
  import opened Response
  import opened PwrReading
  import opened RoundTrip

  // Headers

  const SOC_ITEMS: seq<Item> := [
    Declared(0), Declared(1), Declared(2), Declared(3), Declared(4), Declared(5), Declared(6), Declared(7), Declared(8),
    Declared(9)]

  const NO_SOC_ITEMS: seq<Item> := [
    Declared(0), Declared(1), Declared(2), Declared(3), Declared(4), Declared(5), Declared(6), Declared(7), Declared(9)]

  function BatItems(fw: Firmware): seq<Item> {
    if fw == OldFirmware then NO_SOC_ITEMS else SOC_ITEMS
  }

  /** The item's header is the tokens from one position to the next. */
  predicate Spans<F(==)>(columns: seq<ColumnSpec<F>>, item: Item, parts: Row, from: nat, to: nat) {
    && item.Declared? && item.column < |columns|
    && from + |columns[item.column].headerTokens| == to <= |parts|
    && parts[from..to] == columns[item.column].headerTokens
  }

  lemma SpanBegins<F>(columns: seq<ColumnSpec<F>>, item: Item, parts: Row, from: nat, to: nat)
    requires Spans(columns, item, parts, from, to)
    ensures Begins(columns, item, parts, from) && from + HeaderWidth(columns, item) == to
  {
  }

  lemma {:induction false} ArrangedBySpans<F>(
    columns: seq<ColumnSpec<F>>, items: seq<Item>, parts: Row, offset: nat -> nat, j: nat)
    requires forall k :: 0 <= k < |items| ==> Spans(columns, items[k], parts, offset(k), offset(k + 1))
    requires j <= |items| && offset(|items|) == |parts|
    ensures Arranged(columns, items[j..], parts, offset(j))
    decreases |items| - j
  {
    hide Begins, Spans;
    if j < |items| {
      ArrangedBySpans(columns, items, parts, offset, j + 1);
      assert items[j..][0] == items[j] && items[j..][1..] == items[j + 1..];
      SpanBegins(columns, items[j], parts, offset(j), offset(j + 1));
    }
  }

  /** Where the header of item j begins: four columns have two-token headers. */
  function BatOffset(j: nat): nat {
    if j <= 4 then j else if j <= 8 then 2 * j - 4 else j + 4
  }

  /** One or two tokens, the first and the last of those the fields print. */
  predicate Ends(tokens: Row, fields: seq<Field>, from: nat, to: nat) {
    && from < to <= |fields| && to <= from + 2 && |tokens| == to - from
    && tokens[0] == fields[from].value && tokens[|tokens| - 1] == fields[to - 1].value
  }

  lemma {:induction false} EndsSpan<F>(columns: seq<ColumnSpec<F>>, item: Item, fields: seq<Field>, k: nat, from: nat, to: nat)
    requires k < |columns| && item == Declared(k) && Ends(columns[k].headerTokens, fields, from, to)
    ensures Spans(columns, item, Names(fields), from, to)
  {
  }

  lemma BatHeaderTokens(k: nat)
    requires k < 10
    ensures Ends(BAT_COLUMNS[k].headerTokens, NEW_BAT_HEADER, BatOffset(k), BatOffset(k + 1))
    ensures BAT_COLUMNS[k].dataWidth == 1 && BAT_COLUMNS[k].field.Some?
  {
  }

  lemma BatOldHeader(i: nat)
    requires i < 13
    ensures OLD_BAT_HEADER[i].value == NEW_BAT_HEADER[if i < 12 then i else 13].value
  {
  }

  lemma BatItem(j: nat)
    requires j < 10
    ensures SOC_ITEMS[j] == Declared(j)
    ensures j < 9 ==> NO_SOC_ITEMS[j] == Declared(if j < 8 then j else 9)
  {
  }

  lemma SocSpans(j: nat)
    requires j < 10
    ensures Spans(BAT_COLUMNS, SOC_ITEMS[j], Names(NEW_BAT_HEADER), BatOffset(j), BatOffset(j + 1))
  {
    BatItem(j);
    BatHeaderTokens(j);
    EndsSpan(BAT_COLUMNS, SOC_ITEMS[j], NEW_BAT_HEADER, j, BatOffset(j), BatOffset(j + 1));
  }

  lemma NoSocSpans(j: nat)
    requires j < 9
    ensures Spans(BAT_COLUMNS, NO_SOC_ITEMS[j], Names(OLD_BAT_HEADER), BatOffset(j), BatOffset(j + 1))
  {
    var k := if j < 8 then j else 9;
    BatItem(j);
    BatHeaderTokens(k);
    BatOldHeader(BatOffset(j));
    BatOldHeader(BatOffset(j + 1) - 1);
    EndsSpan(BAT_COLUMNS, NO_SOC_ITEMS[j], OLD_BAT_HEADER, k, BatOffset(j), BatOffset(j + 1));
  }

  lemma {:induction false} AllSpans<F>(columns: seq<ColumnSpec<F>>, items: seq<Item>, parts: Row, offset: nat -> nat)
    requires forall k :: 0 <= k < |items| ==> Spans(columns, items[k], parts, offset(k), offset(k + 1))
    requires offset(0) == 0 && offset(|items|) == |parts|
    ensures Arranged(columns, items, parts, 0)
  {
    ArrangedBySpans(columns, items, parts, offset, 0);
    assert items[0..] == items;
  }

  lemma SocArranged()
    ensures Arranged(BAT_COLUMNS, SOC_ITEMS, Names(NEW_BAT_HEADER), 0)
  {
    forall j | 0 <= j < 10
      ensures Spans(BAT_COLUMNS, SOC_ITEMS[j], Names(NEW_BAT_HEADER), BatOffset(j), BatOffset(j + 1))
    {
      SocSpans(j);
    }
    AllSpans(BAT_COLUMNS, SOC_ITEMS, Names(NEW_BAT_HEADER), BatOffset);
  }

  lemma NoSocArranged()
    ensures Arranged(BAT_COLUMNS, NO_SOC_ITEMS, Names(OLD_BAT_HEADER), 0)
  {
    forall j | 0 <= j < 9
      ensures Spans(BAT_COLUMNS, NO_SOC_ITEMS[j], Names(OLD_BAT_HEADER), BatOffset(j), BatOffset(j + 1))
    {
      NoSocSpans(j);
    }
    AllSpans(BAT_COLUMNS, NO_SOC_ITEMS, Names(OLD_BAT_HEADER), BatOffset);
  }

  // State of charge and capacity

  /** The index of a field under a header line, over the defaults. */
  function BatIndices(parts: Row): Indices<BatField>
    requires HeaderIndices(BatTable(), parts).Ok?
  {
    Defaults(BAT_COLUMNS, |BAT_COLUMNS|) + HeaderIndices(BatTable(), parts).value
  }

  predicate BatLaid(items: seq<Item>, parts: Row) {
    Arranged(BAT_COLUMNS, items, parts, 0) && OnceEach(items) && AllInSchema(BAT_COLUMNS, items)
    && MatchesHeader(BatTable(), parts)
  }

  lemma SocAndCapacityFields()
    ensures BAT_COLUMNS[8].field == Some(CellSoc) && BAT_COLUMNS[9].field == Some(Capacity)
  {
  }

  /** What the walk alone gives a column. */
  lemma {:induction false} BatWalk(items: seq<Item>, parts: Row, j: nat)
    requires BatLaid(items, parts) && j < |items| && items[j].Declared? && BAT_COLUMNS[items[j].column].field.Some?
    ensures var f := BAT_COLUMNS[items[j].column].field.value;
            f in IndicesOver(BAT_COLUMNS, parts) && IndicesOver(BAT_COLUMNS, parts)[f] == Position(BAT_COLUMNS, items, j)
  {
    BatSound();
    BatPrefixFree();
    WalkFinds(BAT_COLUMNS, items, parts, j);
  }

  /** The header hook only ever touches the state of charge and the capacity. */
  lemma HookIs(parts: Row, walked: Indices<BatField>, defaults: Indices<BatField>)
    requires Capacity in walked && BatHeaderPostprocess(walked, parts).Ok?
    ensures var r, plain := defaults + BatHeaderPostprocess(walked, parts).value, defaults + walked;
            && (forall f :: f in plain && f != CellSoc && f != Capacity ==> f in r && r[f] == plain[f])
            && ("SOC" in parts ==> r == plain)
            && ("SOC" !in parts ==>
                 CellSoc in r && Capacity in r && r[CellSoc] == plain[Capacity] && r[Capacity] == plain[Capacity] + 1)
  {
  }

  lemma HookedIndices(parts: Row)
    requires MatchesHeader(BatTable(), parts)
    ensures HeaderIndices(BatTable(), parts).Ok? && Capacity in IndicesOver(BAT_COLUMNS, parts)
    ensures var r, plain := BatIndices(parts), IndicesOver(BAT_COLUMNS, parts);
            && (forall f :: f in plain && f != CellSoc && f != Capacity ==> f in r && r[f] == plain[f])
            && ("SOC" in parts ==> r == plain)
            && ("SOC" !in parts ==>
                 CellSoc in r && Capacity in r && r[CellSoc] == plain[Capacity] && r[Capacity] == plain[Capacity] + 1)
  {
    BatHeaderHasCapacity(parts);
    HookIs(parts, Walk(LongestFirst(BAT_COLUMNS), parts, 0, 0, map[]), Defaults(BAT_COLUMNS, |BAT_COLUMNS|));
  }

  lemma {:induction false} PositionsDiffer<F>(columns: seq<ColumnSpec<F>>, items: seq<Item>, i: nat, j: nat)
    requires i < j <= |items| && AllInSchema(columns, items)
    requires forall k :: 0 <= k < |columns| ==> columns[k].dataWidth >= 1
    ensures Position(columns, items, i) < Position(columns, items, j)
  {
    if i < j - 1 {
      PositionsDiffer(columns, items, i, j - 1);
    }
  }

  /** A header with a column for the state of charge, in whatever letter case, and one for the capacity, wherever they
      stand: each is read from its own column exactly when the label is spelled "SOC". Otherwise the state of charge is
      read from the capacity's column and the capacity from the token after it. */
  lemma {:induction false} SocReadWhenSpelled(items: seq<Item>, parts: Row, i: nat, j: nat)
    requires BatLaid(items, parts) && i < |items| && j < |items| && items[i] == Declared(8) && items[j] == Declared(9)
    ensures HeaderIndices(BatTable(), parts).Ok?
    ensures var r, soc, capacity := BatIndices(parts), Position(BAT_COLUMNS, items, i), Position(BAT_COLUMNS, items, j);
            && CellSoc in r && Capacity in r
            && (r[CellSoc] == soc <==> "SOC" in parts) && (r[Capacity] == capacity <==> "SOC" in parts)
            && ("SOC" !in parts ==> r[CellSoc] == capacity && r[Capacity] == capacity + 1)
  {
    HookedIndices(parts);
    BatWalk(items, parts, i);
    BatWalk(items, parts, j);
    BatPlacesDiffer(items, i, j);
    SocOrCapacity(BatIndices(parts), IndicesOver(BAT_COLUMNS, parts), "SOC" in parts,
                  Position(BAT_COLUMNS, items, i), Position(BAT_COLUMNS, items, j));
  }

  /** The hook's indices r and the walk's, when the walk has found both columns. */
  lemma SocOrCapacity(r: Indices<BatField>, plain: Indices<BatField>, labelled: bool, soc: nat, capacity: nat)
    requires CellSoc in plain && Capacity in plain && plain[CellSoc] == soc != capacity == plain[Capacity]
    requires labelled ==> r == plain
    requires !labelled ==> CellSoc in r && Capacity in r && r[CellSoc] == capacity && r[Capacity] == capacity + 1
    ensures CellSoc in r && Capacity in r && (r[CellSoc] == soc <==> labelled) && (r[Capacity] == capacity <==> labelled)
  {
  }

  lemma {:induction false} BatPlacesDiffer(items: seq<Item>, i: nat, j: nat)
    requires AllInSchema(BAT_COLUMNS, items) && i < |items| && j < |items| && i != j
    ensures Position(BAT_COLUMNS, items, i) != Position(BAT_COLUMNS, items, j)
  {
    BatWidths();
    if i < j { PositionsDiffer(BAT_COLUMNS, items, i, j); } else { PositionsDiffer(BAT_COLUMNS, items, j, i); }
  }

  lemma BatWidths()
    ensures forall k :: 0 <= k < |BAT_COLUMNS| ==> BAT_COLUMNS[k].dataWidth >= 1
  {
  }

  /** A header without such a column: the state of charge is read where the capacity's label stands, and the capacity
      from the token after it. */
  lemma {:induction false} SocReadBeforeCapacity(items: seq<Item>, parts: Row, j: nat)
    requires BatLaid(items, parts) && "SOC" !in parts && j < |items| && items[j] == Declared(9)
    ensures HeaderIndices(BatTable(), parts).Ok?
    ensures var r := BatIndices(parts);
            && CellSoc in r && r[CellSoc] == Position(BAT_COLUMNS, items, j)
            && Capacity in r && r[Capacity] == Position(BAT_COLUMNS, items, j) + 1
  {
    SocAndCapacityFields();
    HookedIndices(parts);
    BatWalk(items, parts, j);
  }

  // Every field's index, for the emulator's headers

  function BatNames(fw: Firmware): Row {
    Names(BatHeader(fw))
  }

  lemma {:induction false} PositionsPlain<F>(columns: seq<ColumnSpec<F>>, items: seq<Item>, j: nat)
    requires AllInSchema(columns, items) && j <= |items|
    requires forall i :: 0 <= i < |items| ==> DataWidth(columns, items[i]) == 1
    ensures Position(columns, items, j) == j
    decreases j
  {
    if j > 0 {
      PositionsPlain(columns, items, j - 1);
    }
  }

  lemma BatItemWidth(fw: Firmware, j: nat)
    requires j < |BatItems(fw)|
    ensures InSchema(BAT_COLUMNS, BatItems(fw)[j]) && DataWidth(BAT_COLUMNS, BatItems(fw)[j]) == 1
    ensures BatItems(fw)[j] == Declared(if j == 8 && fw == OldFirmware then 9 else j)
  {
    BatItem(j);
    BatHeaderTokens(j);
    BatHeaderTokens(9);
  }

  lemma BatNamesMatch(fw: Firmware)
    ensures MatchesHeader(BatTable(), BatNames(fw))
  {
    NamesMatch(BatTable(), BatHeader(fw), if fw == OldFirmware then 12 else 13);
  }

  /** The items are columns in ascending order, each with one data token. */
  ghost predicate Ascending<F>(columns: seq<ColumnSpec<F>>, items: seq<Item>, col: nat -> nat) {
    && (forall j :: 0 <= j < |items| ==>
          items[j] == Declared(col(j)) && InSchema(columns, items[j]) && DataWidth(columns, items[j]) == 1)
    && (forall i, j :: 0 <= i < j < |items| ==> col(i) < col(j))
  }

  lemma {:induction false} AscendingLaid<F>(columns: seq<ColumnSpec<F>>, items: seq<Item>, col: nat -> nat)
    requires Ascending(columns, items, col)
    ensures OnceEach(items) && AllInSchema(columns, items)
    ensures forall j :: 0 <= j < |items| ==> Position(columns, items, j) == j
  {
    forall j | 0 <= j < |items|
      ensures Position(columns, items, j) == j
    {
      PositionsPlain(columns, items, j);
    }
  }

  function BatColumn(fw: Firmware): nat -> nat {
    (j: nat) => if j == 8 && fw == OldFirmware then 9 else j
  }

  lemma BatAscending(fw: Firmware)
    ensures Ascending(BAT_COLUMNS, BatItems(fw), BatColumn(fw))
  {
    forall j | 0 <= j < |BatItems(fw)|
      ensures BatItems(fw)[j] == Declared(BatColumn(fw)(j))
      ensures InSchema(BAT_COLUMNS, BatItems(fw)[j]) && DataWidth(BAT_COLUMNS, BatItems(fw)[j]) == 1
    {
      BatItemWidth(fw, j);
    }
  }

  lemma BatHeaderLaid(fw: Firmware)
    ensures BatLaid(BatItems(fw), BatNames(fw))
  {
    if fw == OldFirmware { NoSocArranged(); } else { SocArranged(); }
    BatNamesMatch(fw);
    BatAscending(fw);
    AscendingLaid(BAT_COLUMNS, BatItems(fw), BatColumn(fw));
  }

  lemma {:induction false} BatPosition(fw: Firmware, j: nat)
    requires j < |BatItems(fw)|
    ensures AllInSchema(BAT_COLUMNS, BatItems(fw)) && Position(BAT_COLUMNS, BatItems(fw), j) == j
  {
    BatAscending(fw);
    AscendingLaid(BAT_COLUMNS, BatItems(fw), BatColumn(fw));
  }

  lemma {:induction false} NameAt(fields: seq<Field>, i: nat)
    requires i < |fields|
    ensures fields[i].value in Names(fields)
  {
    assert Names(fields)[i] == fields[i].value;
  }

  lemma NewSpelled()
    ensures "SOC" in BatNames(NewFirmware)
  {
    NameAt(BatHeader(NewFirmware), 12);
  }

  lemma {:induction false} LongNames(fields: seq<Field>)
    requires forall i :: 0 <= i < |fields| ==> |fields[i].value| > 3
    ensures "SOC" !in Names(fields)
  {
    assert |"SOC"| == 3;
  }

  lemma OldLong(i: nat)
    requires i < |BatHeader(OldFirmware)|
    ensures |BatHeader(OldFirmware)[i].value| > 3
  {
  }

  lemma OldUnspelled()
    ensures "SOC" !in BatNames(OldFirmware)
  {
    forall i | 0 <= i < |BatHeader(OldFirmware)|
      ensures |BatHeader(OldFirmware)[i].value| > 3
    {
      OldLong(i);
    }
    LongNames(BatHeader(OldFirmware));
  }

  lemma NotSocOrCapacity(k: nat)
    requires k < 8
    ensures BAT_COLUMNS[k].field.Some? && BAT_COLUMNS[k].field.value != CellSoc && BAT_COLUMNS[k].field.value != Capacity
  {
  }

  /** Field f is read from token k. */
  predicate ReadsFrom(indices: Indices<BatField>, f: Option<BatField>, k: nat) {
    f.Some? && f.value in indices && indices[f.value] == k
  }

  lemma EarlyIndex(fw: Firmware, k: nat)
    requires k < 8
    ensures HeaderIndices(BatTable(), BatNames(fw)).Ok?
    ensures ReadsFrom(BatIndices(BatNames(fw)), BAT_COLUMNS[k].field, k)
  {
    BatHeaderLaid(fw);
    BatItemWidth(fw, k);
    BatPosition(fw, k);
    NotSocOrCapacity(k);
    BatWalk(BatItems(fw), BatNames(fw), k);
    HookedIndices(BatNames(fw));
  }

  /** The capacity's header is the ninth, with eight data tokens before it. */
  predicate CapacityNinth(items: seq<Item>) {
    AllInSchema(BAT_COLUMNS, items) && |items| == 9 && items[8] == Declared(9) && Position(BAT_COLUMNS, items, 8) == 8
  }

  /** The label of the state of charge is the ninth, just before the capacity's. */
  predicate SocNinth(items: seq<Item>) {
    AllInSchema(BAT_COLUMNS, items) && |items| == 10 && items[8] == Declared(8) && items[9] == Declared(9)
    && Position(BAT_COLUMNS, items, 8) == 8
  }

  lemma OldNinth()
    ensures CapacityNinth(BatItems(OldFirmware))
  {
    BatPosition(OldFirmware, 8);
    BatItemWidth(OldFirmware, 8);
  }

  lemma NewNinth()
    ensures SocNinth(BatItems(NewFirmware))
  {
    BatPosition(NewFirmware, 8);
    BatItemWidth(NewFirmware, 8);
    BatItemWidth(NewFirmware, 9);
  }

  lemma UnspelledIndices(items: seq<Item>, parts: Row)
    requires BatLaid(items, parts) && CapacityNinth(items) && "SOC" !in parts
    ensures HeaderIndices(BatTable(), parts).Ok?
    ensures ReadsFrom(BatIndices(parts), Some(CellSoc), 8) && ReadsFrom(BatIndices(parts), Some(Capacity), 9)
  {
    SocReadBeforeCapacity(items, parts, 8);
  }

  lemma SpelledIndices(items: seq<Item>, parts: Row)
    requires BatLaid(items, parts) && SocNinth(items) && "SOC" in parts
    ensures HeaderIndices(BatTable(), parts).Ok?
    ensures ReadsFrom(BatIndices(parts), Some(CellSoc), 8) && ReadsFrom(BatIndices(parts), Some(Capacity), 9)
  {
    SocReadWhenSpelled(items, parts, 8, 9);
  }

  lemma OldLateIndices()
    ensures HeaderIndices(BatTable(), BatNames(OldFirmware)).Ok?
    ensures ReadsFrom(BatIndices(BatNames(OldFirmware)), Some(CellSoc), 8)
    ensures ReadsFrom(BatIndices(BatNames(OldFirmware)), Some(Capacity), 9)
  {
    BatHeaderLaid(OldFirmware);
    OldNinth();
    OldUnspelled();
    UnspelledIndices(BatItems(OldFirmware), BatNames(OldFirmware));
  }

  lemma NewLateIndices()
    ensures HeaderIndices(BatTable(), BatNames(NewFirmware)).Ok?
    ensures ReadsFrom(BatIndices(BatNames(NewFirmware)), Some(CellSoc), 8)
    ensures ReadsFrom(BatIndices(BatNames(NewFirmware)), Some(Capacity), 9)
  {
    BatHeaderLaid(NewFirmware);
    NewNinth();
    NewSpelled();
    SpelledIndices(BatItems(NewFirmware), BatNames(NewFirmware));
  }

  /** Field k is read from token k. */
  predicate InOrder(indices: Indices<BatField>) {
    forall k :: 0 <= k < 10 ==> ReadsFrom(indices, BAT_COLUMNS[k].field, k)
  }

  lemma InOrderFrom(indices: Indices<BatField>)
    requires forall k :: 0 <= k < 8 ==> ReadsFrom(indices, BAT_COLUMNS[k].field, k)
    requires ReadsFrom(indices, Some(CellSoc), 8) && ReadsFrom(indices, Some(Capacity), 9)
    ensures InOrder(indices)
  {
    SocAndCapacityFields();
  }

  /** Under either header, every field is read from the token of its own place. */
  lemma BatInOrder(fw: Firmware)
    ensures HeaderIndices(BatTable(), BatNames(fw)).Ok?
    ensures InOrder(BatIndices(BatNames(fw)))
  {
    hide BatNames, InOrder;
    if fw == OldFirmware { OldLateIndices(); } else { NewLateIndices(); }
    forall k | 0 <= k < 8
      ensures ReadsFrom(BatIndices(BatNames(fw)), BAT_COLUMNS[k].field, k)
    {
      EarlyIndex(fw, k);
    }
    InOrderFrom(BatIndices(BatNames(fw)));
  }

  // Rows

  /** The cell that stands behind a printed row. */
  function CellReading(b: Bms, id: nat, c: nat): Cell
    requires b.cfg.cells >= 1
  {
    var f := b.FaultOf(id);
    Cell(c, Milli(CellVolt(b, id, c)), Milli(ShownBy(b.state, b.cfg.cells, f, BLOCK_OVER_CURRENT).current),
         Milli(CellTemp(b, id, c)), StateWord(b.state.current), Some(VoltWord(f)), Some(CurrWord(f)), Some(TempWord(f)),
         b.state.soc, Some(CellCapacity(b)))
  }

  function BatWords(b: Bms, id: nat, c: nat): (r: Row)
    requires b.cfg.cells >= 1
    ensures |r| == 11
  {
    var f := b.FaultOf(id);
    [IntText(c), IntText(CellVolt(b, id, c)), IntText(ShownBy(b.state, b.cfg.cells, f, BLOCK_OVER_CURRENT).current),
     IntText(CellTemp(b, id, c)), StateWord(b.state.current), VoltWord(f), CurrWord(f), TempWord(f),
     IntText(b.state.soc) + "%", IntText(CellCapacity(b)), "mAH"]
  }

  lemma BatRowClean(b: Bms, id: nat, c: nat)
    requires b.cfg.cells >= 1
    ensures AllHold(Clean, BatFields(b, id, c), BatWords(b, id, c))
  {
    hide Clean, StateWord, VoltWord, CurrWord, TempWord, IntText, ShownBy, CellVolt, CellTemp, Plain;
    var f := b.FaultOf(id);
    NumClean(c, 9);
    NumClean(CellVolt(b, id, c), 9);
    NumClean(ShownBy(b.state, b.cfg.cells, f, BLOCK_OVER_CURRENT).current, 9);
    NumClean(CellTemp(b, id, c), 9);
    WordsPlain(f, b.state.current);
    PlainClean(StateWord(b.state.current), 13);
    PlainClean(VoltWord(f), 13);
    PlainClean(CurrWord(f), 13);
    PlainClean(TempWord(f), 13);
    PercentClean(b.state.soc, 11);
    NumClean(CellCapacity(b), |IntText(CellCapacity(b))| + 1);
    UnitPlain();
    PlainClean("mAH", 3);
  }

  lemma UnitPlain()
    ensures Plain("mAH")
  {
  }

  function BatValues(b: Bms, id: nat, c: nat): (r: seq<Value>)
    requires b.cfg.cells >= 1
    ensures |r| == 10
  {
    var f := b.FaultOf(id);
    [Whole(c), Decimal(Milli(CellVolt(b, id, c))),
     Decimal(Milli(ShownBy(b.state, b.cfg.cells, f, BLOCK_OVER_CURRENT).current)), Decimal(Milli(CellTemp(b, id, c))),
     Word(StateWord(b.state.current)), Word(VoltWord(f)), Word(CurrWord(f)), Word(TempWord(f)),
     Whole(b.state.soc), Whole(CellCapacity(b))]
  }

  /** The numbers printed for a cell are short, and its capacity is one that str prints at all. */
  predicate ShortCell(b: Bms, id: nat, c: nat)
    requires b.cfg.cells >= 1
  {
    var words := BatWords(b, id, c);
    && Short(words[0]) && Short(words[1]) && Short(words[2]) && Short(words[3]) && Short(words[8])
    && |words[9]| <= MAX_STR_DIGITS
  }

  lemma CapacityCell(parts: Row, i: nat, n: int)
    requires i < |parts| && parts[i] == IntText(n) && |parts[i]| <= MAX_STR_DIGITS
    ensures OptionalIntByBounds(parts, i) == Ok(Whole(n))
  {
    IntTextReads(n);
  }

  lemma BatGives(b: Bms, id: nat, c: nat, k: nat)
    requires b.cfg.cells >= 1 && ShortCell(b, id, c) && k < 10
    ensures BAT_COLUMNS[k].transform.Some?
    ensures BAT_COLUMNS[k].transform.value(BatWords(b, id, c), k) == Ok(BatValues(b, id, c)[k])
  {
    hide StateWord, VoltWord, CurrWord, TempWord, IntText, ShownBy, CellVolt, CellTemp;
    var words := BatWords(b, id, c);
    NumberCells(words, 0, c);
    NumberCells(words, 1, CellVolt(b, id, c));
    NumberCells(words, 2, ShownBy(b.state, b.cfg.cells, b.FaultOf(id), BLOCK_OVER_CURRENT).current);
    NumberCells(words, 3, CellTemp(b, id, c));
    PercentCell(words, 8, b.state.soc);
    CapacityCell(words, 9, CellCapacity(b));
  }

  // The whole row

  lemma BatCellIsGood(b: Bms, id: nat, c: nat, indices: Indices<BatField>, k: nat)
    requires b.cfg.cells >= 1 && ShortCell(b, id, c) && InOrder(indices) && k < 10
    ensures BAT_COLUMNS[k].field.Some? && BAT_COLUMNS[k].transform.Some? && BAT_COLUMNS[k].field.value in indices
    ensures BAT_COLUMNS[k].transform.value(BatWords(b, id, c), indices[BAT_COLUMNS[k].field.value])
         == Ok(BatValues(b, id, c)[k])
  {
    assert ReadsFrom(indices, BAT_COLUMNS[k].field, k);
    BatGives(b, id, c, k);
  }

  /** The dict holds the value of every column. */
  predicate BatHolds(b: Bms, id: nat, c: nat, v: Values<BatField>)
    requires b.cfg.cells >= 1
  {
    forall k :: 0 <= k < 10 ==> Holds1(v, BAT_COLUMNS[k].field, BatValues(b, id, c)[k])
  }

  predicate Holds1(v: Values<BatField>, f: Option<BatField>, value: Value) {
    f.Some? && f.value in v && v[f.value] == value
  }

  lemma {:induction false} BatRowHolds(b: Bms, id: nat, c: nat, indices: Indices<BatField>)
    requires b.cfg.cells >= 1 && ShortCell(b, id, c) && InOrder(indices)
    ensures RowValues(BAT_COLUMNS, indices, BatWords(b, id, c), |BAT_COLUMNS|).Some?
    ensures BatHolds(b, id, c, RowValues(BAT_COLUMNS, indices, BatWords(b, id, c), |BAT_COLUMNS|).value)
  {
    var parts := BatWords(b, id, c);
    forall k | 0 <= k < |BAT_COLUMNS|
      ensures BAT_COLUMNS[k].field.Some? && BAT_COLUMNS[k].transform.Some? && BAT_COLUMNS[k].field.value in indices
      ensures BAT_COLUMNS[k].transform.value(parts, indices[BAT_COLUMNS[k].field.value]).Ok?
    {
      BatCellIsGood(b, id, c, indices, k);
    }
    GoodCells(BAT_COLUMNS, indices, parts, |BAT_COLUMNS|);
    forall k | 0 <= k < 10
      ensures Holds1(RowValues(BAT_COLUMNS, indices, parts, |BAT_COLUMNS|).value, BAT_COLUMNS[k].field, BatValues(b, id, c)[k])
    {
      BatCellIsGood(b, id, c, indices, k);
      BatCell(indices, parts, k);
    }
  }

  lemma BatNumbersHeld(b: Bms, id: nat, c: nat, v: Values<BatField>)
    requires b.cfg.cells >= 1 && BatHolds(b, id, c, v)
    ensures var r := CellReading(b, id, c);
            && Holds1(v, Some(CellId), Whole(r.cellId)) && Holds1(v, Some(CellVoltage), Decimal(r.voltage))
            && Holds1(v, Some(CellCurrent), Decimal(r.current)) && Holds1(v, Some(CellTemperature), Decimal(r.temperature))
            && Holds1(v, Some(BaseState), Word(r.baseState))
  {
    assert Holds1(v, BAT_COLUMNS[0].field, BatValues(b, id, c)[0]);
    assert Holds1(v, BAT_COLUMNS[1].field, BatValues(b, id, c)[1]);
    assert Holds1(v, BAT_COLUMNS[2].field, BatValues(b, id, c)[2]);
    assert Holds1(v, BAT_COLUMNS[3].field, BatValues(b, id, c)[3]);
    assert Holds1(v, BAT_COLUMNS[4].field, BatValues(b, id, c)[4]);
  }

  lemma BatWordsHeld(b: Bms, id: nat, c: nat, v: Values<BatField>)
    requires b.cfg.cells >= 1 && BatHolds(b, id, c, v)
    ensures var f := b.FaultOf(id);
            && Holds1(v, Some(CellVoltStatus), Word(VoltWord(f))) && Holds1(v, Some(CellCurrStatus), Word(CurrWord(f)))
            && Holds1(v, Some(CellTempStatus), Word(TempWord(f)))
            && Holds1(v, Some(CellSoc), Whole(b.state.soc)) && Holds1(v, Some(Capacity), Whole(CellCapacity(b)))
  {
    assert Holds1(v, BAT_COLUMNS[5].field, BatValues(b, id, c)[5]);
    assert Holds1(v, BAT_COLUMNS[6].field, BatValues(b, id, c)[6]);
    assert Holds1(v, BAT_COLUMNS[7].field, BatValues(b, id, c)[7]);
    assert Holds1(v, BAT_COLUMNS[8].field, BatValues(b, id, c)[8]);
    assert Holds1(v, BAT_COLUMNS[9].field, BatValues(b, id, c)[9]);
  }

  lemma BuildsCell(v: Values<BatField>, r: Cell)
    requires Holds1(v, Some(CellId), Whole(r.cellId)) && Holds1(v, Some(CellVoltage), Decimal(r.voltage))
    requires Holds1(v, Some(CellCurrent), Decimal(r.current)) && Holds1(v, Some(CellTemperature), Decimal(r.temperature))
    requires Holds1(v, Some(BaseState), Word(r.baseState))
    requires r.voltStatus.Some? && Holds1(v, Some(CellVoltStatus), Word(r.voltStatus.value))
    requires r.currStatus.Some? && Holds1(v, Some(CellCurrStatus), Word(r.currStatus.value))
    requires r.tempStatus.Some? && Holds1(v, Some(CellTempStatus), Word(r.tempStatus.value))
    requires Holds1(v, Some(CellSoc), Whole(r.soc))
    requires r.capacity.Some? && Holds1(v, Some(Capacity), Whole(r.capacity.value))
    ensures BuildCellFromBatRow(v) == Ok(r)
  {
  }

  lemma {:induction false} BatLine(b: Bms, id: nat, c: nat, indices: Indices<BatField>, line: string)
    requires b.cfg.cells >= 1 && ShortCell(b, id, c) && InOrder(indices) && Split(line) == BatWords(b, id, c)
    ensures LineRow(BatTable(), indices, line) == Built(CellReading(b, id, c))
  {
    BatRowHolds(b, id, c, indices);
    var v := RowValues(BAT_COLUMNS, indices, Split(line), |BAT_COLUMNS|).value;
    BatNumbersHeld(b, id, c, v);
    BatWordsHeld(b, id, c, v);
    BuildsCell(v, CellReading(b, id, c));
    BatIsRow(b, id, c, indices, line);
  }

  lemma {:induction false} BatIsRow(b: Bms, id: nat, c: nat, indices: Indices<BatField>, line: string)
    requires b.cfg.cells >= 1 && InOrder(indices) && Split(line) == BatWords(b, id, c)
    ensures IsRow(BatTable(), indices, line)
  {
    SocAndCapacityFields();
    assert ReadsFrom(indices, BAT_COLUMNS[8].field, 8);
    assert AllDigits(BatWords(b, id, c)[0]);
  }

  // The whole response

  function CellReadings(b: Bms, id: nat, n: nat): (r: seq<Cell>)
    requires b.cfg.cells >= 1
    ensures |r| == n && forall c :: 0 <= c < n ==> r[c] == CellReading(b, id, c)
  {
    if n == 0 then [] else CellReadings(b, id, n - 1) + [CellReading(b, id, n - 1)]
  }

  function CellResults(b: Bms, id: nat, n: nat): (r: seq<LineResult<BatField, Cell>>)
    requires b.cfg.cells >= 1
    ensures |r| == n
  {
    if n == 0 then [] else CellResults(b, id, n - 1) + [Built(CellReading(b, id, n - 1))]
  }

  lemma {:induction false} CellsCollected(b: Bms, id: nat, n: nat)
    requires b.cfg.cells >= 1
    ensures Collected(CellResults(b, id, n)) == CellReadings(b, id, n)
  {
    if n > 0 {
      CellsCollected(b, id, n - 1);
      assert CellResults(b, id, n)[..n - 1] == CellResults(b, id, n - 1);
    }
  }

  /** Every value on the row of a cell is shorter than its column; the capacity, whose column grows with it, is one that
      str prints. */
  predicate CellsFit(b: Bms, id: nat)
    requires b.cfg.cells >= 1
  {
    |IntText(CellCapacity(b))| <= MAX_STR_DIGITS && forall c :: 0 <= c < b.cfg.cells ==> Fits(BatFields(b, id, c))
  }

  lemma CellFitsShort(b: Bms, id: nat, c: nat)
    requires b.cfg.cells >= 1 && Fits(BatFields(b, id, c)) && |IntText(CellCapacity(b))| <= MAX_STR_DIGITS
    ensures ShortCell(b, id, c)
  {
    var fields, words := BatFields(b, id, c), BatWords(b, id, c);
    assert fields[0].value == words[0] && fields[1].value == words[1] && fields[2].value == words[2];
    assert fields[3].value == words[3] && fields[8].value == words[8];
  }

  lemma CellLine(b: Bms, id: nat, c: nat, indices: Indices<BatField>)
    requires b.cfg.cells >= 1 && Fits(BatFields(b, id, c)) && InOrder(indices)
    requires |IntText(CellCapacity(b))| <= MAX_STR_DIGITS
    ensures OneLine(Render(BatFields(b, id, c)))
    ensures LineRow(BatTable(), indices, Render(BatFields(b, id, c))) == Built(CellReading(b, id, c))
  {
    BatRowClean(b, id, c);
    CellFitsShort(b, id, c);
    CleanLine(BatFields(b, id, c), BatWords(b, id, c));
    BatLine(b, id, c, indices, Render(BatFields(b, id, c)));
  }

  lemma {:induction false} CellsOneLine(b: Bms, id: nat, n: nat)
    requires b.cfg.cells >= 1 && forall c :: 0 <= c < n ==> OneLine(Render(BatFields(b, id, c)))
    ensures AllOneLine(BatTexts(b, id, n))
  {
    if n > 0 {
      CellsOneLine(b, id, n - 1);
    }
  }

  lemma {:induction false} CellLines(
    b: Bms, id: nat, n: nat, schema: TableSchema<BatField, Cell>, indices: Indices<BatField>)
    requires b.cfg.cells >= 1
    requires forall c :: 0 <= c < n ==> CellReadFrom(b, id, c, schema, indices, Render(BatFields(b, id, c)))
    ensures Give(schema, indices, BatTexts(b, id, n), CellResults(b, id, n))
  {
    hide Render, BatFields, CellReading;
    if n > 0 {
      CellLines(b, id, n - 1, schema, indices);
      assert CellReadFrom(b, id, n - 1, schema, indices, Render(BatFields(b, id, n - 1)));
      LastGives(schema, indices, BatTexts(b, id, n - 1), CellResults(b, id, n - 1), Render(BatFields(b, id, n - 1)),
                Built(CellReading(b, id, n - 1)));
    }
  }

  lemma LastGives(
    schema: TableSchema<BatField, Cell>, indices: Indices<BatField>, rows: seq<string>,
    results: seq<LineResult<BatField, Cell>>, row: string, result: LineResult<BatField, Cell>)
    requires Give(schema, indices, rows, results) && !result.Raised? && LineRow(schema, indices, row) == result
    ensures Give(schema, indices, rows + [row], results + [result])
  {
  }

  predicate CellReadFrom(
    b: Bms, id: nat, c: nat, schema: TableSchema<BatField, Cell>, indices: Indices<BatField>, line: string)
    requires b.cfg.cells >= 1
  {
    OneLine(line) && LineRow(schema, indices, line) == Built(CellReading(b, id, c))
  }

  lemma {:induction false} CellsRead(b: Bms, id: nat, indices: Indices<BatField>)
    requires b.cfg.cells >= 1 && CellsFit(b, id) && InOrder(indices)
    ensures AllOneLine(BatTexts(b, id, b.cfg.cells))
    ensures Give(BatTable(), indices, BatTexts(b, id, b.cfg.cells), CellResults(b, id, b.cfg.cells))
  {
    forall c | 0 <= c < b.cfg.cells
      ensures CellReadFrom(b, id, c, BatTable(), indices, Render(BatFields(b, id, c)))
    {
      CellLine(b, id, c, indices);
    }
    CellLines(b, id, b.cfg.cells, BatTable(), indices);
    forall c | 0 <= c < b.cfg.cells
      ensures OneLine(Render(BatFields(b, id, c)))
    {
      assert CellReadFrom(b, id, c, BatTable(), indices, Render(BatFields(b, id, c)));
    }
    CellsOneLine(b, id, b.cfg.cells);
  }

  lemma BatNumberFirst()
    ensures NumberFirst(BatTable())
  {
  }

  lemma BatEcho(id: int)
    ensures Echo(BatTable(), BatCommand(id))
  {
    IntTextPlain(id);
  }

  lemma BatHeaderWord(fw: Firmware, j: nat)
    requires j < |BatHeader(fw)|
    ensures IsWord(BatHeader(fw)[j].value)
  {
    if fw == OldFirmware {
      BatOldHeader(j);
      NewBatHeaderWord(if j < 12 then j else 13);
    } else {
      NewBatHeaderWord(j);
    }
  }

  lemma NewBatHeaderWord(j: nat)
    requires j < 14
    ensures IsWord(NEW_BAT_HEADER[j].value)
  {
  }

  lemma BatHeaderFits(fw: Firmware)
    ensures Fits(BatHeader(fw))
  {
  }

  lemma BatHeaderShows(fw: Firmware)
    ensures AllShow(BatHeader(fw), BatNames(fw)) && OneLineFields(BatHeader(fw))
  {
    forall j | 0 <= j < |BatHeader(fw)|
      ensures IsWord(BatHeader(fw)[j].value)
    {
      BatHeaderWord(fw, j);
    }
    WordsShow(BatHeader(fw));
  }

  lemma BatHeaderLine(fw: Firmware)
    ensures Split(Render(BatHeader(fw))) == BatNames(fw) && OneLine(Render(BatHeader(fw)))
  {
    BatHeaderShows(fw);
    BatHeaderFits(fw);
    SplitRender(BatHeader(fw), BatNames(fw));
    RenderOneLine(BatHeader(fw));
  }

  lemma BatHeaderQuiet(fw: Firmware)
    ensures Quiet(Render(BatHeader(fw)))
  {
    QuietStart(BatHeader(fw), "Battery");
  }

  lemma BatTableIndices(fw: Firmware)
    ensures HeaderIndices(BatTable(), BatNames(fw)).Ok?
    ensures TableIndices(BatTable(), [Render(BatHeader(fw))]) == Ok(BatIndices(BatNames(fw)))
  {
    BatHeaderLine(fw);
    BatNamesMatch(fw);
    BatInOrder(fw);
    HeaderIndicesAre(BatTable(), Render(BatHeader(fw)), BatNames(fw));
  }

  /** A present battery's printed table is read back as its cells, each with the percentage as its state of charge and
      the mAh value as its capacity, under either firmware's header. */
  lemma {:induction false} BatRoundTrip(b: Bms, id: nat)
    requires b.cfg.cells >= 1 && 1 <= id <= b.Count() && Present(b, id) && CellsFit(b, id)
    ensures TableRows(BatTable(), BatResponse(b, id)) == Ok(CellReadings(b, id, b.cfg.cells))
  {
    hide TableRows, BatTexts, Render;
    var fw, n := b.cfg.firmware, b.cfg.cells;
    BatTableIndices(fw);
    BatInOrder(fw);
    var indices := BatIndices(BatNames(fw));
    CellsRead(b, id, indices);
    CellsCollected(b, id, n);
    BatNumberFirst();
    BatEcho(id);
    BatHeaderLine(fw);
    BatHeaderQuiet(fw);
    BatNamesMatch(fw);
    ResponseRows(BatTable(), BatCommand(id), Render(BatHeader(fw)), indices, BatTexts(b, id, n), CellResults(b, id, n));
  }

  // Nothing to report

  predicate AllQuiet(lines: seq<string>) {
    forall i :: 0 <= i < |lines| ==> Quiet(lines[i])
  }

  lemma {:induction false} QuietText(text: string, lines: seq<string>)
    requires SplitLines(text) == lines && AllQuiet(lines)
    ensures TableRows(BatTable(), text) == Ok([])
  {
    BatRaisesIff(text);
    BatNumberFirst();
    var indices := TableIndices(BatTable(), lines).value;
    forall i | 0 <= i < |lines|
      ensures LineRow(BatTable(), indices, lines[i]) == NoRow
    {
      assert Quiet(lines[i]);
      QuietLine(BatTable(), indices, lines[i]);
    }
    NoRows(BatTable(), indices, lines);
  }

  lemma QuietEnvelope(cmd: string, body: seq<string>)
    requires Quiet(cmd) && AllQuiet(body)
    ensures AllQuiet(FrontOf(cmd) + (body + TAIL_LINES))
  {
    var lines := FrontOf(cmd) + (body + TAIL_LINES);
    forall i | 0 <= i < |lines|
      ensures Quiet(lines[i])
    {
      if i >= 4 + |body| {
        TailQuiet(i - 4 - |body|);
        assert lines[i] == TAIL_LINES[i - 4 - |body|];
      } else if i >= 4 {
        assert lines[i] == body[i - 4];
      }
    }
  }

  lemma OneBodyLine(cmd: string, body: string)
    requires OneLine(cmd) && OneLine(body)
    ensures SplitLines(Wrap(cmd, body, false)) == FrontOf(cmd) + ([body, ""] + TAIL_LINES)
  {
    hide SplitLines;
    var rest := body + "\r\n\r" + TAIL;
    assert Wrap(cmd, body, false) == cmd + "\n\r@\r" + "\r\n" + rest;
    FrontLines(cmd, rest);
    RowLines([body]);
    SpreadFront([body]);
    assert Spread([]) == [] && [body][1..] == [];
  }

  lemma TitleQuiet(id: int)
    ensures var title := "Battery " + IntText(id); OneLine(title) && Quiet(title)
    ensures var lost := "Battery " + IntText(id) + " not found"; OneLine(lost) && Quiet(lost)
  {
    IntTextPlain(id);
  }

  lemma TwoBodyLines(cmd: string, title: string, second: string)
    requires OneLine(cmd) && OneLine(title) && OneLine(second)
    ensures SplitLines(Wrap(cmd, title + "\r\r\n" + second, false)) == FrontOf(cmd) + ([title, "", second, ""] + TAIL_LINES)
  {
    hide SplitLines, TAIL, TAIL_LINES;
    TableLines(cmd, title, [second]);
    SpreadFront([second]);
    assert Spread([]) == [] && [second][1..] == [];
    assert [title] + ([""] + [second, ""] + TAIL_LINES) == [title, "", second, ""] + TAIL_LINES;
  }

  lemma OneLineNoCells(cmd: string, body: string)
    requires OneLine(cmd) && Quiet(cmd) && OneLine(body) && Quiet(body)
    ensures TableRows(BatTable(), Wrap(cmd, body, false)) == Ok([])
  {
    OneBodyLine(cmd, body);
    QuietEnvelope(cmd, [body, ""]);
    QuietText(Wrap(cmd, body, false), FrontOf(cmd) + ([body, ""] + TAIL_LINES));
  }

  lemma TwoLinesNoCells(cmd: string, title: string, second: string)
    requires OneLine(cmd) && Quiet(cmd) && OneLine(title) && Quiet(title) && OneLine(second) && Quiet(second)
    ensures TableRows(BatTable(), Wrap(cmd, title + "\r\r\n" + second, false)) == Ok([])
  {
    TwoBodyLines(cmd, title, second);
    QuietEnvelope(cmd, [title, "", second, ""]);
    QuietText(Wrap(cmd, title + "\r\r\n" + second, false), FrontOf(cmd) + ([title, "", second, ""] + TAIL_LINES));
  }

  /** An id without a battery has no cells. */
  lemma NoBatteryNoCells(b: Bms, id: int)
    requires b.cfg.cells >= 1 && !(1 <= id <= b.Count() && Present(b, id))
    ensures TableRows(BatTable(), BatResponse(b, id)) == Ok([])
  {
    hide TableRows, Wrap;
    BatEcho(id);
    TitleQuiet(id);
    OneLineNoCells(BatCommand(id), "Battery " + IntText(id) + " not found");
    TwoLinesNoCells(BatCommand(id), "Battery " + IntText(id), "Absent");
  }
}
