/** Layout independence of the two table schemas: what parse_table returns depends on the data, and not on where the
    columns stand. */
module LayoutLaws {
  import opened Search
  import opened Wrappers
  import opened Text
  import opened Table
  import opened Schemas
  import opened SchemaLaws
  import opened Layout
  import opened Stub
  import opened PwrReading
  import opened BatRoundTrip

  // The pwr table

  /** The text is a pwr table laid out as the sheet, with every column that fills a field somewhere in it. */
  predicate PwrSheet(text: string, s: Sheet) {
    && LaidOut(PwrTable(), text, s)
    && forall i :: 0 <= i < |s.lines| && s.lines[i].Data? ==>
         |s.lines[i].tokens| == 16 && forall k :: 0 <= k < 16 && k != 13 ==> CellShown(s.items, s.lines[i], k)
  }

  lemma PwrWide(s: Sheet, l: Line)
    requires l.Data? && BlocksFit(PWR_COLUMNS, s.items, l.cells) && |l.tokens| == 16
    requires forall k :: 0 <= k < 16 && k != 13 ==> CellShown(s.items, l, k)
    ensures |Flatten(l.cells)| > 10
  {
    forall k | 0 <= k < 11
      ensures Declared(k) in s.items
    {
      assert CellShown(s.items, l, k);
    }
    AtLeast(s.items, 11);
    Widens(PWR_COLUMNS, s.items, |s.items|);
    FlattenLength(PWR_COLUMNS, s.items, l.cells, |s.items|);
    assert l.cells[..|s.items|] == l.cells;
  }

  lemma PwrFields(k: nat)
    requires k < 16
    ensures PWR_COLUMNS[k].field.Some? <==> k != 13
  {
  }

  lemma PwrLineShown(s: Sheet, line: string, l: Line)
    requires Arranged(PWR_COLUMNS, s.items, s.header, 0) && OnceEach(s.items)
    requires LineLaid(PwrTable(), s.items, line, l)
    requires l.Data? ==> |l.tokens| == 16 && forall k :: 0 <= k < 16 && k != 13 ==> CellShown(s.items, l, k)
    ensures LineShown(PwrTable(), IndicesOver(PWR_COLUMNS, s.header), line, l)
  {
    PwrSound();
    PwrPrefixFree();
    if l.Data? {
      forall k | 0 <= k < 16
        ensures TokenRead(PWR_COLUMNS, IndicesOver(PWR_COLUMNS, s.header), Split(line), l.tokens, k)
      {
        PwrFields(k);
        if k != 13 {
          ShownIsRead(PWR_COLUMNS, s.items, s.header, Split(line), l, k);
        }
      }
    }
  }

  lemma {:induction false} PwrTests(indices: Indices<PwrField>, line: string)
    requires |Split(line)| > 10
    ensures IsRow(PwrTable(), indices, line) <==> AllDigits(Split(line)[0]) && !Contains(line, "Absent")
  {
  }

  lemma PwrFirst(s: Sheet)
    requires Arranged(PWR_COLUMNS, s.items, s.header, 0) && MatchesHeader(PwrTable(), s.header)
    ensures s.items != [] && s.items[0] == Declared(0)
  {
    PwrPrefixFree();
    FirstItemIs(PWR_COLUMNS, s.items, s.header);
  }

  /** A row is tested by its first token and by the letters of "Absent" alone. */
  lemma {:induction false} PwrIsRow(s: Sheet, line: string, l: Line)
    requires Arranged(PWR_COLUMNS, s.items, s.header, 0) && OnceEach(s.items) && MatchesHeader(PwrTable(), s.header)
    requires l.Data? && LineLaid(PwrTable(), s.items, line, l)
    requires |l.tokens| == 16 && forall k :: 0 <= k < 16 && k != 13 ==> CellShown(s.items, l, k)
    ensures IsRow(PwrTable(), IndicesOver(PWR_COLUMNS, s.header), line)
       <==> AllDigits(l.tokens[0]) && !Contains(line, "Absent")
  {
    hide IndicesOver, Arranged, IsRow, MatchesHeader;
    PwrFirst(s);
    assert CellShown(s.items, l, 0);
    FirstToken(PWR_COLUMNS, s.items, l);
    PwrWide(s, l);
    PwrTests(IndicesOver(PWR_COLUMNS, s.header), line);
  }

  lemma {:induction false} PwrIndicesOver(text: string, s: Sheet)
    requires LaidOut(PwrTable(), text, s)
    ensures TableIndices(PwrTable(), SplitLines(text)) == Ok(IndicesOver(PWR_COLUMNS, s.header))
    ensures MatchesHeader(PwrTable(), s.header)
  {
    hide Walk, Arranged;
    FirstHeaderMatches(PwrTable(), SplitLines(text));
    IndicesOf(PwrTable(), SplitLines(text), s.header, Walk(LongestFirst(PWR_COLUMNS), s.header, 0, 0, map[]));
  }

  lemma {:induction false} PwrLine(text: string, s: Sheet, i: nat)
    requires PwrSheet(text, s) && i < |s.lines|
    ensures LineShown(PwrTable(), IndicesOver(PWR_COLUMNS, s.header), SplitLines(text)[i], s.lines[i])
    ensures s.lines[i].Data? ==>
              |s.lines[i].tokens| == 16
              && (IsRow(PwrTable(), IndicesOver(PWR_COLUMNS, s.header), SplitLines(text)[i])
                  <==> AllDigits(s.lines[i].tokens[0]) && !Contains(SplitLines(text)[i], "Absent"))
  {
    hide IndicesOver, LineShown, IsRow;
    var line, l := SplitLines(text)[i], s.lines[i];
    PwrIndicesOver(text, s);
    PwrLineOf(s, line, l);
  }

  lemma {:induction false} PwrLineOf(s: Sheet, line: string, l: Line)
    requires Arranged(PWR_COLUMNS, s.items, s.header, 0) && OnceEach(s.items) && MatchesHeader(PwrTable(), s.header)
    requires LineLaid(PwrTable(), s.items, line, l)
    requires l.Data? ==> |l.tokens| == 16 && forall k :: 0 <= k < 16 && k != 13 ==> CellShown(s.items, l, k)
    ensures LineShown(PwrTable(), IndicesOver(PWR_COLUMNS, s.header), line, l)
    ensures l.Data? ==> (IsRow(PwrTable(), IndicesOver(PWR_COLUMNS, s.header), line)
                         <==> AllDigits(l.tokens[0]) && !Contains(line, "Absent"))
  {
    hide IsRow, IndicesOver, PwrTable;
    PwrLineShown(s, line, l);
    if l.Data? {
      PwrIsRow(s, line, l);
    }
  }

  /** Permuting the columns of a pwr table, or putting in columns the schema does not declare, together with their data,
      leaves the parsed batteries unchanged, as long as no line gains or loses the word that marks absent slots. */
  lemma {:induction false} PwrLayoutIndependent(ta: string, a: Sheet, tb: string, b: Sheet)
    requires PwrSheet(ta, a) && PwrSheet(tb, b) && SameData(a, b)
    requires forall i :: 0 <= i < |a.lines| && a.lines[i].Data? ==>
               Contains(SplitLines(ta)[i], "Absent") == Contains(SplitLines(tb)[i], "Absent")
    ensures TableRows(PwrTable(), ta) == TableRows(PwrTable(), tb)
  {
    PwrIndicesOver(ta, a);
    PwrIndicesOver(tb, b);
    PwrBothShown(ta, a, tb, b);
    PwrLocal();
    SameTable(PwrTable(), ta, a, IndicesOver(PWR_COLUMNS, a.header), tb, b, IndicesOver(PWR_COLUMNS, b.header));
  }

  lemma {:induction false} PwrBothShown(ta: string, a: Sheet, tb: string, b: Sheet)
    requires PwrSheet(ta, a) && PwrSheet(tb, b) && SameData(a, b)
    requires forall i :: 0 <= i < |a.lines| && a.lines[i].Data? ==>
               Contains(SplitLines(ta)[i], "Absent") == Contains(SplitLines(tb)[i], "Absent")
    ensures BothShown(PwrTable(), a, IndicesOver(PWR_COLUMNS, a.header), SplitLines(ta),
                      b, IndicesOver(PWR_COLUMNS, b.header), SplitLines(tb))
  {
    hide IndicesOver, IsRow, LineShown;
    var la, lb := SplitLines(ta), SplitLines(tb);
    var ia, ib := IndicesOver(PWR_COLUMNS, a.header), IndicesOver(PWR_COLUMNS, b.header);
    forall i | 0 <= i < |la|
      ensures LineShown(PwrTable(), ia, la[i], a.lines[i]) && LineShown(PwrTable(), ib, lb[i], b.lines[i])
      ensures a.lines[i].Data? ==> IsRow(PwrTable(), ia, la[i]) == IsRow(PwrTable(), ib, lb[i])
    {
      PwrLine(ta, a, i);
      PwrLine(tb, b, i);
    }
  }

  // The bat table

  /** One data row of a bat table. Under a header with the SOC label every column has its own block. Without it, the
      capacity is the last column, its block is the percentage, and the capacity itself comes right after. */
  predicate BatLineLaid(s: Sheet, l: Line)
    requires l.Data? && |l.tokens| == 10
  {
    if "SOC" in s.header then forall k :: 0 <= k < 10 ==> CellShown(s.items, l, k)
    else CapacityLast(s.items, l) && forall k :: 0 <= k < 8 ==> CellShown(s.items, l, k)
  }

  predicate CapacityLast(items: seq<Item>, l: Line)
    requires l.Data? && |l.tokens| == 10
  {
    && items != [] && |l.cells| == |items| && items[|items| - 1] == Declared(9)
    && l.cells[|items| - 1] == [l.tokens[8]] && l.rest != [] && l.rest[0] == l.tokens[9]
  }

  lemma {:induction false} LastTwo<F>(columns: seq<ColumnSpec<F>>, items: seq<Item>, l: Line, parts: Row, p: nat)
    requires l.Data? && |l.tokens| == 10 && CapacityLast(items, l)
    requires BlocksFit(columns, items, l.cells) && parts == Flatten(l.cells) + l.rest
    requires p == Position(columns, items, |items| - 1)
    ensures p + 1 < |parts| && parts[p] == l.tokens[8] && parts[p + 1] == l.tokens[9]
  {
    LastBlock(columns, items, l, parts);
  }

  predicate BatSheet(text: string, s: Sheet) {
    && LaidOut(BatTable(), text, s)
    && forall i :: 0 <= i < |s.lines| && s.lines[i].Data? ==> |s.lines[i].tokens| == 10 && BatLineLaid(s, s.lines[i])
  }

  lemma BatFields(k: nat)
    requires k < 10
    ensures BAT_COLUMNS[k].field.Some? && BAT_COLUMNS[k].dataWidth == 1
    ensures BAT_COLUMNS[k].field.value != CellSoc && BAT_COLUMNS[k].field.value != Capacity <==> k < 8
  {
  }

  lemma BatTokenPlain(s: Sheet, parts: Row, l: Line, k: nat)
    requires BatLaid(s.items, s.header) && l.Data? && BlocksFit(BAT_COLUMNS, s.items, l.cells)
    requires parts == Flatten(l.cells) + l.rest && |l.tokens| == 10 && k < 10 && CellShown(s.items, l, k)
    requires k < 8 || "SOC" in s.header
    ensures HeaderIndices(BatTable(), s.header).Ok?
    ensures TokenRead(BAT_COLUMNS, BatIndices(s.header), parts, l.tokens, k)
  {
    BatSound();
    BatPrefixFree();
    HookedIndices(s.header);
    BatFields(k);
    ShownIsRead(BAT_COLUMNS, s.items, s.header, parts, l, k);
  }

  lemma {:induction false} SocPlaces(s: Sheet) returns (p: nat)
    requires BatLaid(s.items, s.header) && "SOC" !in s.header && s.items != [] && s.items[|s.items| - 1] == Declared(9)
    ensures HeaderIndices(BatTable(), s.header).Ok? && p == Position(BAT_COLUMNS, s.items, |s.items| - 1)
    ensures CellSoc in BatIndices(s.header) && BatIndices(s.header)[CellSoc] == p
    ensures Capacity in BatIndices(s.header) && BatIndices(s.header)[Capacity] == p + 1
  {
    SocReadBeforeCapacity(s.items, s.header, |s.items| - 1);
    p := Position(BAT_COLUMNS, s.items, |s.items| - 1);
  }

  /** Without the label, the percentage and the capacity behind it. */
  lemma {:induction false} BatTokenHooked(s: Sheet, parts: Row, l: Line)
    requires BatLaid(s.items, s.header) && l.Data? && BlocksFit(BAT_COLUMNS, s.items, l.cells)
    requires parts == Flatten(l.cells) + l.rest && |l.tokens| == 10
    requires "SOC" !in s.header && CapacityLast(s.items, l)
    ensures HeaderIndices(BatTable(), s.header).Ok?
    ensures TokenRead(BAT_COLUMNS, BatIndices(s.header), parts, l.tokens, 8)
    ensures TokenRead(BAT_COLUMNS, BatIndices(s.header), parts, l.tokens, 9)
  {
    var p := SocPlaces(s);
    LastTwo(BAT_COLUMNS, s.items, l, parts, p);
    SocAndCapacityRead(BatIndices(s.header), p, parts, l.tokens);
  }

  lemma SocAndCapacityRead(indices: Indices<BatField>, p: nat, parts: Row, tokens: Row)
    requires |tokens| == 10 && p + 1 < |parts| && parts[p] == tokens[8] && parts[p + 1] == tokens[9]
    requires CellSoc in indices && indices[CellSoc] == p && Capacity in indices && indices[Capacity] == p + 1
    ensures TokenRead(BAT_COLUMNS, indices, parts, tokens, 8) && TokenRead(BAT_COLUMNS, indices, parts, tokens, 9)
  {
    SocAndCapacityFields();
  }

  lemma AllTen<F>(columns: seq<ColumnSpec<F>>, indices: Indices<F>, parts: Row, tokens: Row)
    requires |columns| == |tokens| == 10 && forall k :: 0 <= k < 8 ==> TokenRead(columns, indices, parts, tokens, k)
    requires TokenRead(columns, indices, parts, tokens, 8) && TokenRead(columns, indices, parts, tokens, 9)
    ensures ReadsTokens(columns, indices, parts, tokens)
  {
  }

  lemma BatTokens(s: Sheet, parts: Row, l: Line)
    requires BatLaid(s.items, s.header) && l.Data? && BlocksFit(BAT_COLUMNS, s.items, l.cells)
    requires parts == Flatten(l.cells) + l.rest && |l.tokens| == 10 && BatLineLaid(s, l)
    ensures HeaderIndices(BatTable(), s.header).Ok?
    ensures ReadsTokens(BAT_COLUMNS, BatIndices(s.header), parts, l.tokens)
  {
    HookedIndices(s.header);
    forall k | 0 <= k < 8
      ensures TokenRead(BAT_COLUMNS, BatIndices(s.header), parts, l.tokens, k)
    {
      BatTokenPlain(s, parts, l, k);
    }
    if "SOC" in s.header {
      BatTokenPlain(s, parts, l, 8);
      BatTokenPlain(s, parts, l, 9);
    } else {
      BatTokenHooked(s, parts, l);
    }
    AllTen(BAT_COLUMNS, BatIndices(s.header), parts, l.tokens);
  }

  lemma BatLineShown(s: Sheet, line: string, l: Line)
    requires BatLaid(s.items, s.header) && LineLaid(BatTable(), s.items, line, l)
    requires l.Data? ==> |l.tokens| == 10 && BatLineLaid(s, l)
    ensures HeaderIndices(BatTable(), s.header).Ok? && LineShown(BatTable(), BatIndices(s.header), line, l)
  {
    HookedIndices(s.header);
    if l.Data? {
      BatTokens(s, Split(line), l);
    }
  }

  lemma BatFirst(s: Sheet)
    requires BatLaid(s.items, s.header)
    ensures s.items != [] && s.items[0] == Declared(0)
  {
    BatPrefixFree();
    BatFields(0);
    FirstItemIs(BAT_COLUMNS, s.items, s.header);
  }

  lemma {:induction false} BatTests(indices: Indices<BatField>, line: string, tokens: Row)
    requires |tokens| == 10 && TokenRead(BAT_COLUMNS, indices, Split(line), tokens, 8) && Split(line) != []
    ensures IsRow(BatTable(), indices, line) <==> AllDigits(Split(line)[0])
  {
    SocAndCapacityFields();
  }

  /** A row is tested by its first token alone: it is long enough for its state of charge. */
  lemma BatIsRowWhen(s: Sheet, line: string, l: Line)
    requires BatLaid(s.items, s.header) && l.Data? && LineLaid(BatTable(), s.items, line, l)
    requires |l.tokens| == 10 && BatLineLaid(s, l)
    ensures HeaderIndices(BatTable(), s.header).Ok?
    ensures IsRow(BatTable(), BatIndices(s.header), line) <==> AllDigits(l.tokens[0])
  {
    BatLineShown(s, line, l);
    BatFirst(s);
    assert CellShown(s.items, l, 0);
    FirstToken(BAT_COLUMNS, s.items, l);
    assert TokenRead(BAT_COLUMNS, BatIndices(s.header), Split(line), l.tokens, 8);
    BatTests(BatIndices(s.header), line, l.tokens);
  }

  lemma {:induction false} BatIndicesOver(text: string, s: Sheet)
    requires LaidOut(BatTable(), text, s)
    ensures BatLaid(s.items, s.header) && HeaderIndices(BatTable(), s.header).Ok?
    ensures TableIndices(BatTable(), SplitLines(text)) == Ok(BatIndices(s.header))
  {
    FirstHeaderMatches(BatTable(), SplitLines(text));
    HookedIndices(s.header);
    IndicesOf(BatTable(), SplitLines(text), s.header, HeaderIndices(BatTable(), s.header).value);
  }

  lemma {:induction false} BatTableLine(text: string, s: Sheet, i: nat)
    requires BatSheet(text, s) && i < |s.lines|
    ensures HeaderIndices(BatTable(), s.header).Ok?
    ensures LineShown(BatTable(), BatIndices(s.header), SplitLines(text)[i], s.lines[i])
    ensures s.lines[i].Data? ==>
              |s.lines[i].tokens| == 10
              && (IsRow(BatTable(), BatIndices(s.header), SplitLines(text)[i]) <==> AllDigits(s.lines[i].tokens[0]))
  {
    var line, l := SplitLines(text)[i], s.lines[i];
    BatIndicesOver(text, s);
    assert LineLaid(BatTable(), s.items, line, l);
    BatLineShown(s, line, l);
    if l.Data? {
      BatIsRowWhen(s, line, l);
    }
  }

  /** The same for bat tables, whether or not either header has the SOC label: the hook makes up for the label. */
  lemma BatLayoutIndependent(ta: string, a: Sheet, tb: string, b: Sheet)
    requires BatSheet(ta, a) && BatSheet(tb, b) && SameData(a, b)
    ensures TableRows(BatTable(), ta) == TableRows(BatTable(), tb)
  {
    var la, lb := SplitLines(ta), SplitLines(tb);
    BatIndicesOver(ta, a);
    BatIndicesOver(tb, b);
    var ia, ib := BatIndices(a.header), BatIndices(b.header);
    forall i | 0 <= i < |la|
      ensures LineShown(BatTable(), ia, la[i], a.lines[i]) && LineShown(BatTable(), ib, lb[i], b.lines[i])
      ensures a.lines[i].Data? ==> IsRow(BatTable(), ia, la[i]) == IsRow(BatTable(), ib, lb[i])
    {
      BatTableLine(ta, a, i);
      BatTableLine(tb, b, i);
    }
    BatLocal();
    SameTable(BatTable(), ta, a, ia, tb, b, ib);
  }

  // Headers that mislead the parser

  /** A pwr header that leaves out Tlow, so that Thigh stands where Tlow's token is looked for: whatever comes after, the
      lowest temperature is then read from the highest one's token. */
  lemma {:induction false} ThighReadForTlow(items: seq<Item>, header: Row)
    requires Arranged(PWR_COLUMNS, items, header, 0) && OnceEach(items) && AllInSchema(PWR_COLUMNS, items)
    requires Declared(4) !in items && |items| >= 5 && forall j :: 0 <= j < 5 ==> items[j] == Declared(if j < 4 then j else 5)
    ensures var found := IndicesOver(PWR_COLUMNS, header);
            TempLow in found && TempHigh in found && found[TempLow] == found[TempHigh] == 4
  {
    hide Walk, Arranged, Sound, PrefixFree;
    PwrSound();
    PwrPrefixFree();
    MissingColumnDefaults(PWR_COLUMNS, items, header, 4);
    WalkFinds(PWR_COLUMNS, items, header, 4);
    assert Position(PWR_COLUMNS, items, 1) == 1 && Position(PWR_COLUMNS, items, 2) == 2;
    assert Position(PWR_COLUMNS, items, 3) == 3 && Position(PWR_COLUMNS, items, 4) == 4;
  }

  const NO_TLOW_ITEMS: seq<Item> := OLD_ITEMS[..4] + OLD_ITEMS[5..]

  const NO_TLOW_HEADER: Row := Names(OLD_HEADER[..4] + OLD_HEADER[5..])

  lemma NoTlowItem(j: nat)
    requires j < 15
    ensures |NO_TLOW_ITEMS| == |NO_TLOW_HEADER| == 15
    ensures NO_TLOW_ITEMS[j] == Declared(if j < 4 then j else j + 1)
    ensures PWR_COLUMNS[if j < 4 then j else j + 1].headerTokens == [NO_TLOW_HEADER[j]]
  {
    OldItem(if j < 4 then j else j + 1);
  }

  lemma NoTlowToken(j: nat)
    requires j < 15
    ensures |NO_TLOW_ITEMS| == |NO_TLOW_HEADER| == 15
    ensures var k := if j < 4 then j else j + 1;
            NO_TLOW_ITEMS[j] == Declared(k) && k < |PWR_COLUMNS|
            && OneToken(PWR_COLUMNS, Declared(k), NO_TLOW_HEADER[j], DataWidth(PWR_COLUMNS, Declared(k)))
  {
    NoTlowItem(j);
    NameSpells(PWR_COLUMNS, if j < 4 then j else j + 1, NO_TLOW_HEADER[j]);
  }

  /** Such a header. */
  lemma NoTlowArranged()
    ensures Arranged(PWR_COLUMNS, NO_TLOW_ITEMS, NO_TLOW_HEADER, 0) && OnceEach(NO_TLOW_ITEMS)
    ensures AllInSchema(PWR_COLUMNS, NO_TLOW_ITEMS) && Declared(4) !in NO_TLOW_ITEMS
    ensures var found := IndicesOver(PWR_COLUMNS, NO_TLOW_HEADER);
            TempLow in found && TempHigh in found && found[TempLow] == found[TempHigh] == 4
  {
    hide Walk, Arranged, Sound, PrefixFree, IndicesOver, NO_TLOW_HEADER;
    NoTlowItem(0);
    forall j | 0 <= j < 15
      ensures NO_TLOW_ITEMS[j] == Declared(if j < 4 then j else j + 1)
      ensures OneToken(PWR_COLUMNS, NO_TLOW_ITEMS[j], NO_TLOW_HEADER[j], DataWidth(PWR_COLUMNS, NO_TLOW_ITEMS[j]))
    {
      NoTlowToken(j);
    }
    ArrangedByToken(PWR_COLUMNS, NO_TLOW_ITEMS, NO_TLOW_HEADER, 0);
    assert NO_TLOW_ITEMS[0..] == NO_TLOW_ITEMS;
    ThighReadForTlow(NO_TLOW_ITEMS, NO_TLOW_HEADER);
  }

  /** The letters' case means nothing to the walk. */
  lemma {:induction false} SameLettersArranged<F>(columns: seq<ColumnSpec<F>>, items: seq<Item>, p: Row, q: Row, i: nat)
    requires |p| == |q| && forall n :: 0 <= n < |p| ==> Lower(p[n]) == Lower(q[n])
    requires Arranged(columns, items, p, i) && forall j :: 0 <= j < |items| ==> items[j].Declared?
    ensures Arranged(columns, items, q, i)
    decreases |items|
  {
    hide HeaderWidth;
    if items != [] {
      var next, rest := i + HeaderWidth(columns, items[0]), items[1..];
      SameLettersBegin(columns, items[0], p, q, i);
      assert Arranged(columns, rest, p, next);
      SameLettersArranged(columns, rest, p, q, next);
    }
  }

  lemma SameLettersBegin<F>(columns: seq<ColumnSpec<F>>, item: Item, p: Row, q: Row, i: nat)
    requires |p| == |q| && forall n :: 0 <= n < |p| ==> Lower(p[n]) == Lower(q[n])
    requires item.Declared? && Begins(columns, item, p, i)
    ensures Begins(columns, item, q, i)
  {
    var next := i + HeaderWidth(columns, item);
    assert LowerAll(p[i..next]) == LowerAll(q[i..next]);
  }

  /** The emulator's newer header with its label in small letters. */
  const SMALL_SOC_HEADER: Row := BatNames(NewFirmware)[12 := "Soc"]

  lemma NameIsLong(n: nat)
    requires n < 14 && n != 12
    ensures |NEW_BAT_HEADER[n].value| > 3
  {
  }

  lemma SocLetters()
    ensures Lower("SOC") == Lower("Soc") && "Soc" != "SOC" && NEW_BAT_HEADER[12].value == "SOC"
  {
    assert Lower("SOC") == "soc" && Lower("Soc") == "soc";
  }

  lemma {:induction false} SameLettersLaid(items: seq<Item>, p: Row, q: Row)
    requires BatLaid(items, p) && |p| == |q| && MatchesHeader(BatTable(), q)
    requires forall n :: 0 <= n < |p| ==> Lower(p[n]) == Lower(q[n])
    requires forall j :: 0 <= j < |items| ==> items[j].Declared?
    ensures BatLaid(items, q)
  {
    SameLettersArranged(BAT_COLUMNS, items, p, q, 0);
  }

  lemma SocItemsDeclared()
    ensures |SOC_ITEMS| == 10 && SOC_ITEMS[9] == Declared(9) && forall j :: 0 <= j < |SOC_ITEMS| ==> SOC_ITEMS[j].Declared?
  {
  }

  lemma SmallSocMatches(names: Row)
    requires |names| == 14 && names[13] == "Coulomb" && MatchesHeader(BatTable(), names)
    ensures MatchesHeader(BatTable(), names[12 := "Soc"])
  {
    StillMatches(BatTable(), names, 12, "Soc", 13);
  }

  lemma StillMatches<F, T>(schema: TableSchema<F, T>, parts: Row, i: nat, t: string, c: nat)
    requires MatchesHeader(schema, parts) && 0 < i < |parts|
    requires c < |parts| && c != i && parts[c] == schema.headerMustContain
    ensures MatchesHeader(schema, parts[i := t])
  {
    assert parts[i := t][c] == parts[c];
  }

  /** Its twelfth label, counted from zero, is the only short one, and says "SOC". */
  predicate OneSoc(names: Row) {
    |names| == 14 && names[12] == "SOC" && names[13] == "Coulomb" && forall n :: 0 <= n < 14 && n != 12 ==> |names[n]| > 3
  }

  lemma CapacityLabel()
    ensures |NEW_BAT_HEADER| == 14 && NEW_BAT_HEADER[13].value == "Coulomb"
  {
  }

  lemma NewNamesOneSoc()
    ensures |BatNames(NewFirmware)| == 14
    ensures OneSoc(BatNames(NewFirmware))
  {
    hide NEW_BAT_HEADER, OLD_BAT_HEADER;
    SocLetters();
    CapacityLabel();
    forall n | 0 <= n < 14 && n != 12
      ensures |BatNames(NewFirmware)[n]| > 3
    {
      NameIsLong(n);
    }
  }

  lemma SmallLaid(items: seq<Item>, names: Row)
    requires OneSoc(names) && forall j :: 0 <= j < |items| ==> items[j].Declared?
    ensures "SOC" !in names[12 := "Soc"]
    ensures BatLaid(items, names) ==> BatLaid(items, names[12 := "Soc"])
  {
    SocLetters();
    if BatLaid(items, names) {
      SmallSocMatches(names);
      SameLettersLaid(items, names, names[12 := "Soc"]);
    }
  }

  lemma {:induction false} CapacityAt9(items: seq<Item>, header: Row)
    requires "SOC" !in header && |items| == 10 && items[9] == Declared(9)
    requires AllInSchema(BAT_COLUMNS, items) && Position(BAT_COLUMNS, items, 9) == 9
    ensures BatLaid(items, header) ==>
              && HeaderIndices(BatTable(), header).Ok?
              && var r := BatIndices(header); CellSoc in r && Capacity in r && r[CellSoc] == 9 && r[Capacity] == 10
  {
    if BatLaid(items, header) {
      var p := SocPlaces(Sheet(items, header, []));
    }
  }

  /** Under it, both the state of charge and the capacity are read one token too far. */
  lemma SmallSocMisread()
    ensures HeaderIndices(BatTable(), SMALL_SOC_HEADER).Ok?
    ensures var r := BatIndices(SMALL_SOC_HEADER); CellSoc in r && Capacity in r && r[CellSoc] == 9 && r[Capacity] == 10
  {
    BatHeaderLaid(NewFirmware);
    SocItemsDeclared();
    NewNamesOneSoc();
    SmallLaid(SOC_ITEMS, BatNames(NewFirmware));
    BatPosition(NewFirmware, 9);
    CapacityAt9(SOC_ITEMS, SMALL_SOC_HEADER);
  }
}
