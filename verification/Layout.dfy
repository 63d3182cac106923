/** Layout independence: where the header walk finds each field, for any arrangement of a table's columns. */
module Layout {
  import opened Wrappers
  import opened Text
  import opened Table

  /** A header as a sequence of the schema's columns, by number, and of tokens it does not declare. */
  datatype Item = Declared(column: nat) | Unknown(token: string)

  /** No column's header, letter case aside, begins another's. */
  predicate PrefixFree<F>(columns: seq<ColumnSpec<F>>) {
    forall i, j :: 0 <= i < |columns| && 0 <= j < |columns| && i != j ==>
      !(LowerAll(columns[i].headerTokens) <= LowerAll(columns[j].headerTokens))
  }

  predicate InSchema<F>(columns: seq<ColumnSpec<F>>, item: Item) {
    item.Declared? ==> item.column < |columns|
  }

  function HeaderWidth<F>(columns: seq<ColumnSpec<F>>, item: Item): nat
    requires InSchema(columns, item)
  {
    if item.Declared? then |columns[item.column].headerTokens| else 1
  }

  function DataWidth<F>(columns: seq<ColumnSpec<F>>, item: Item): nat
    requires InSchema(columns, item)
  {
    if item.Declared? then columns[item.column].dataWidth else 1
  }

  /** The header tokens spell the item; an unknown token is not the first of any column's header. */
  predicate Spells<F>(columns: seq<ColumnSpec<F>>, item: Item, tokens: Row) {
    match item
    case Declared(k) => k < |columns| && LowerAll(tokens) == LowerAll(columns[k].headerTokens)
    case Unknown(t) =>
      && tokens == [t]
      && forall k :: 0 <= k < |columns| && columns[k].headerTokens != [] ==> Lower(columns[k].headerTokens[0]) != Lower(t)
  }

  /** From position i on, the header line is the items. */
  predicate Arranged<F>(columns: seq<ColumnSpec<F>>, items: seq<Item>, parts: Row, i: nat)
    decreases |items|
  {
    if items == [] then i == |parts|
    else Begins(columns, items[0], parts, i) && Arranged(columns, items[1..], parts, i + HeaderWidth(columns, items[0]))
  }

  predicate Begins<F>(columns: seq<ColumnSpec<F>>, item: Item, parts: Row, i: nat) {
    && InSchema(columns, item)
    && i + HeaderWidth(columns, item) <= |parts|
    && Spells(columns, item, parts[i..i + HeaderWidth(columns, item)])
  }

  predicate AllInSchema<F>(columns: seq<ColumnSpec<F>>, items: seq<Item>) {
    forall j :: 0 <= j < |items| ==> InSchema(columns, items[j])
  }

  /** Each column at most once. */
  predicate OnceEach(items: seq<Item>) {
    forall i, j :: 0 <= i < j < |items| && items[i].Declared? ==> items[i] != items[j]
  }

  /** The number of data tokens before item j. */
  function Position<F>(columns: seq<ColumnSpec<F>>, items: seq<Item>, j: nat): nat
    requires j <= |items| && AllInSchema(columns, items)
    decreases j
  {
    if j == 0 then 0 else Position(columns, items, j - 1) + DataWidth(columns, items[j - 1])
  }

  // What the walk finds

  lemma LowerPrefix(parts: Row, i: nat, w: nat)
    requires i + w <= |parts|
    ensures LowerAll(parts[i..i + w]) == LowerAll(parts[i..])[..w]
  {
  }

  lemma OnlyOneStands<F>(columns: seq<ColumnSpec<F>>, parts: Row, i: nat, j: nat, k: nat)
    requires PrefixFree(columns) && i <= |parts| && j < |columns| && k < |columns|
    requires StandsAt(columns[j], parts, i) && StandsAt(columns[k], parts, i)
    ensures j == k
  {
    var v, w := |columns[j].headerTokens|, |columns[k].headerTokens|;
    var rest := LowerAll(parts[i..]);
    LowerPrefix(parts, i, v);
    LowerPrefix(parts, i, w);
    assert LowerAll(columns[j].headerTokens) == rest[..v] && LowerAll(columns[k].headerTokens) == rest[..w];
    TakesComparable(rest, v, w);
  }

  lemma TakesComparable(s: Row, v: nat, w: nat)
    requires v <= |s| && w <= |s|
    ensures s[..v] <= s[..w] || s[..w] <= s[..v]
  {
  }

  lemma {:induction false} FindsTheOne<F(!new)>(columns: seq<ColumnSpec<F>>, parts: Row, i: nat, col: ColumnSpec<F>)
    requires i <= |parts| && col in columns && StandsAt(col, parts, i)
    requires forall c :: c in columns && StandsAt(c, parts, i) ==> c == col
    ensures ColumnAt(columns, parts, i) == Some(col)
  {
    if StandsAt(columns[0], parts, i) {
      assert columns[0] in columns;
    } else {
      assert columns == [columns[0]] + columns[1..];
      FindsTheOne(columns[1..], parts, i, col);
    }
  }

  lemma {:induction false} FindsNone<F(!new)>(columns: seq<ColumnSpec<F>>, parts: Row, i: nat)
    requires i <= |parts| && forall c :: c in columns ==> !StandsAt(c, parts, i)
    ensures ColumnAt(columns, parts, i) == None
  {
    if columns != [] {
      assert columns[0] in columns;
      FindsNone(columns[1..], parts, i);
    }
  }

  lemma {:induction false} FindsDeclared<F(!new)>(columns: seq<ColumnSpec<F>>, parts: Row, i: nat, k: nat)
    requires PrefixFree(columns) && i <= |parts| && k < |columns| && StandsAt(columns[k], parts, i)
    ensures ColumnAt(LongestFirst(columns), parts, i) == Some(columns[k])
  {
    LongestFirstKeeps(columns);
    assert columns[k] in columns;
    forall c | c in LongestFirst(columns) && StandsAt(c, parts, i)
      ensures c == columns[k]
    {
      assert c in LongestFirst(columns);
      var j :| 0 <= j < |columns| && columns[j] == c;
      OnlyOneStands(columns, parts, i, j, k);
    }
    FindsTheOne(LongestFirst(columns), parts, i, columns[k]);
  }

  /** Token by token, letter case aside, the header of a column that stands somewhere is what stands there. */
  lemma StandsToken<F>(col: ColumnSpec<F>, parts: Row, i: nat, o: nat)
    requires i <= |parts| && StandsAt(col, parts, i) && o < |col.headerTokens|
    ensures i + o < |parts| && Lower(col.headerTokens[o]) == Lower(parts[i + o])
  {
    var w := |col.headerTokens|;
    assert LowerAll(parts[i..i + w])[o] == Lower(parts[i..i + w][o]) == Lower(parts[i + o]);
    assert LowerAll(col.headerTokens)[o] == Lower(col.headerTokens[o]);
  }

  lemma {:induction false} FindsUnknown<F(!new)>(columns: seq<ColumnSpec<F>>, parts: Row, i: nat)
    requires Sound(columns) && i < |parts| && Spells(columns, Unknown(parts[i]), [parts[i]])
    ensures ColumnAt(LongestFirst(columns), parts, i) == None
  {
    LongestFirstKeeps(columns);
    forall c | c in LongestFirst(columns)
      ensures !StandsAt(c, parts, i)
    {
      assert c in LongestFirst(columns);
      var j :| 0 <= j < |columns| && columns[j] == c;
      if StandsAt(c, parts, i) {
        StandsToken(c, parts, i, 0);
      }
    }
    FindsNone(LongestFirst(columns), parts, i);
  }

  /** The dict after the item, whose data starts at data. */
  function Noted<F>(columns: seq<ColumnSpec<F>>, item: Item, data: nat, indices: Indices<F>): Indices<F>
    requires InSchema(columns, item)
  {
    if item.Declared? && columns[item.column].field.Some? then indices[columns[item.column].field.value := data] else indices
  }

  /** The dict the walk builds, in terms of items. */
  function Placed<F>(columns: seq<ColumnSpec<F>>, items: seq<Item>, data: nat, indices: Indices<F>): Indices<F>
    requires AllInSchema(columns, items)
    decreases |items|
  {
    if items == [] then indices
    else Placed(columns, items[1..], data + DataWidth(columns, items[0]), Noted(columns, items[0], data, indices))
  }

  lemma {:induction false} ArrangedInSchema<F>(columns: seq<ColumnSpec<F>>, items: seq<Item>, parts: Row, i: nat)
    requires Arranged(columns, items, parts, i)
    ensures AllInSchema(columns, items)
    decreases |items|
  {
    if items != [] {
      ArrangedInSchema(columns, items[1..], parts, i + HeaderWidth(columns, items[0]));
    }
  }

  lemma WalkDeclared<F(!new)>(
    columns: seq<ColumnSpec<F>>, k: nat, parts: Row, i: nat, data: nat, indices: Indices<F>)
    requires Sound(columns) && PrefixFree(columns) && i <= |parts| && k < |columns|
    requires StandsAt(columns[k], parts, i)
    ensures var sorted, col := LongestFirst(columns), columns[k];
            var next := if col.field.Some? then indices[col.field.value := data] else indices;
            Walk(sorted, parts, i, data, indices)
            == Walk(sorted, parts, i + |col.headerTokens|, data + col.dataWidth, next)
  {
    hide LongestFirst, PrefixFree;
    FindsDeclared(columns, parts, i, k);
    assert columns[k].headerTokens != [] && i < |parts|;
  }

  lemma WalkUnknown<F(!new)>(columns: seq<ColumnSpec<F>>, parts: Row, i: nat, data: nat, indices: Indices<F>)
    requires Sound(columns) && i < |parts| && Spells(columns, Unknown(parts[i]), [parts[i]])
    ensures var sorted := LongestFirst(columns);
            Walk(sorted, parts, i, data, indices) == Walk(sorted, parts, i + 1, data + 1, indices)
  {
    FindsUnknown(columns, parts, i);
  }

  lemma UnknownStands<F>(columns: seq<ColumnSpec<F>>, t: string, parts: Row, i: nat)
    requires i + 1 <= |parts| && Spells(columns, Unknown(t), parts[i..i + 1])
    ensures Spells(columns, Unknown(parts[i]), [parts[i]])
  {
    assert parts[i..i + 1] == [parts[i]];
  }

  lemma WalkItem<F(!new)>(
    columns: seq<ColumnSpec<F>>, item: Item, parts: Row, i: nat, data: nat, indices: Indices<F>)
    requires Sound(columns) && PrefixFree(columns) && Begins(columns, item, parts, i)
    ensures Walk(LongestFirst(columns), parts, i, data, indices)
         == Walk(LongestFirst(columns), parts, i + HeaderWidth(columns, item), data + DataWidth(columns, item),
                 Noted(columns, item, data, indices))
  {
    hide Walk, Sound, PrefixFree;
    if item.Declared? {
      WalkDeclared(columns, item.column, parts, i, data, indices);
    } else {
      WalkUnknownItem(columns, item, parts, i, data, indices);
    }
  }

  lemma WalkUnknownItem<F(!new)>(
    columns: seq<ColumnSpec<F>>, item: Item, parts: Row, i: nat, data: nat, indices: Indices<F>)
    requires Sound(columns) && item.Unknown? && Begins(columns, item, parts, i)
    ensures Walk(LongestFirst(columns), parts, i, data, indices)
         == Walk(LongestFirst(columns), parts, i + 1, data + 1, indices)
  {
    UnknownStands(columns, item.token, parts, i);
    WalkUnknown(columns, parts, i, data, indices);
  }

  lemma {:induction false} WalkIs<F(!new)>(
    columns: seq<ColumnSpec<F>>, items: seq<Item>, parts: Row, i: nat, data: nat, indices: Indices<F>)
    requires Sound(columns) && PrefixFree(columns) && i <= |parts| && AllInSchema(columns, items)
    requires Arranged(columns, items, parts, i)
    ensures Walk(LongestFirst(columns), parts, i, data, indices) == Placed(columns, items, data, indices)
    decreases |items|
  {
    hide Walk, Placed, Arranged;
    if items != [] {
      var next, after := i + HeaderWidth(columns, items[0]), data + DataWidth(columns, items[0]);
      var noted, rest := Noted(columns, items[0], data, indices), items[1..];
      WalkHead(columns, items, parts, i, data, indices);
      WalkIs(columns, rest, parts, next, after, noted);
    } else {
      WalkNone(columns, parts, i, data, indices);
    }
  }

  lemma {:induction false} WalkNone<F(!new)>(columns: seq<ColumnSpec<F>>, parts: Row, i: nat, data: nat, indices: Indices<F>)
    requires i <= |parts| && Arranged(columns, [], parts, i)
    ensures Walk(LongestFirst(columns), parts, i, data, indices) == indices == Placed(columns, [], data, indices)
  {
  }

  /** Both sides take the first item alike. */
  lemma WalkHead<F(!new)>(
    columns: seq<ColumnSpec<F>>, items: seq<Item>, parts: Row, i: nat, data: nat, indices: Indices<F>)
    requires Sound(columns) && PrefixFree(columns) && i <= |parts| && AllInSchema(columns, items)
    requires items != [] && Arranged(columns, items, parts, i)
    ensures var next := i + HeaderWidth(columns, items[0]);
            next <= |parts| && Arranged(columns, items[1..], parts, next) && AllInSchema(columns, items[1..])
    ensures Walk(LongestFirst(columns), parts, i, data, indices)
         == Walk(LongestFirst(columns), parts, i + HeaderWidth(columns, items[0]), data + DataWidth(columns, items[0]),
                 Noted(columns, items[0], data, indices))
    ensures Placed(columns, items, data, indices)
         == Placed(columns, items[1..], data + DataWidth(columns, items[0]), Noted(columns, items[0], data, indices))
  {
    hide Walk, Placed, Noted, HeaderWidth, DataWidth, Sound, PrefixFree, Begins;
    ArrangedStep(columns, items, parts, i);
    WalkItem(columns, items[0], parts, i, data, indices);
    PlacedStep(columns, items, data, indices);
  }

  lemma ArrangedStep<F>(columns: seq<ColumnSpec<F>>, items: seq<Item>, parts: Row, i: nat)
    requires i <= |parts| && AllInSchema(columns, items) && Arranged(columns, items, parts, i) && items != []
    ensures var next := i + HeaderWidth(columns, items[0]);
            Begins(columns, items[0], parts, i) && Arranged(columns, items[1..], parts, next)
            && AllInSchema(columns, items[1..])
  {
  }

  lemma PlacedStep<F>(columns: seq<ColumnSpec<F>>, items: seq<Item>, data: nat, indices: Indices<F>)
    requires AllInSchema(columns, items) && items != []
    ensures Placed(columns, items, data, indices)
         == Placed(columns, items[1..], data + DataWidth(columns, items[0]), Noted(columns, items[0], data, indices))
  {
  }

  lemma {:induction false} PositionShifts<F>(columns: seq<ColumnSpec<F>>, items: seq<Item>, j: nat)
    requires 1 <= j <= |items| && AllInSchema(columns, items)
    ensures Position(columns, items, j) == DataWidth(columns, items[0]) + Position(columns, items[1..], j - 1)
  {
    if j == 1 {
      assert Position(columns, items, 1) == Position(columns, items, 0) + DataWidth(columns, items[0]);
    } else {
      PositionShifts(columns, items, j - 1);
      assert items[1..][j - 2] == items[j - 1];
    }
  }

  lemma {:induction false} PlacedKeeps<F>(
    columns: seq<ColumnSpec<F>>, items: seq<Item>, data: nat, indices: Indices<F>, f: F)
    requires AllInSchema(columns, items)
    requires forall j :: 0 <= j < |items| && items[j].Declared? ==> columns[items[j].column].field != Some(f)
    ensures f in Placed(columns, items, data, indices) <==> f in indices
    ensures f in indices ==> Placed(columns, items, data, indices)[f] == indices[f]
    decreases |items|
  {
    if items != [] {
      PlacedKeeps(columns, items[1..], data + DataWidth(columns, items[0]), Noted(columns, items[0], data, indices), f);
    }
  }

  lemma {:induction false} PlacedAt<F>(
    columns: seq<ColumnSpec<F>>, items: seq<Item>, data: nat, indices: Indices<F>, j: nat, f: F)
    requires Sound(columns) && AllInSchema(columns, items) && OnceEach(items)
    requires j < |items| && items[j].Declared? && columns[items[j].column].field == Some(f)
    ensures var placed := Placed(columns, items, data, indices);
            f in placed && placed[f] == data + Position(columns, items, j)
    decreases |items|
  {
    var next := Noted(columns, items[0], data, indices);
    var after := data + DataWidth(columns, items[0]);
    if j == 0 {
      PlacedKeeps(columns, items[1..], after, next, f);
    } else {
      PlacedAt(columns, items[1..], after, next, j - 1, f);
      PositionShifts(columns, items, j);
    }
  }

  /** Each declared field has the number of data tokens before its item. */
  ghost predicate AtPositions<F(!new)>(columns: seq<ColumnSpec<F>>, items: seq<Item>, found: Indices<F>)
    requires AllInSchema(columns, items)
  {
    forall j, f :: 0 <= j < |items| && items[j].Declared? && columns[items[j].column].field == Some(f) ==>
      f in found && found[f] == Position(columns, items, j)
  }

  /** No other field is there. */
  ghost predicate OnlyDeclared<F(!new)>(columns: seq<ColumnSpec<F>>, items: seq<Item>, found: Indices<F>)
    requires AllInSchema(columns, items)
  {
    forall f :: f in found ==>
      exists j :: 0 <= j < |items| && items[j].Declared? && columns[items[j].column].field == Some(f)
  }

  lemma {:induction false} PlacedAtPositions<F(!new)>(columns: seq<ColumnSpec<F>>, items: seq<Item>)
    requires Sound(columns) && AllInSchema(columns, items) && OnceEach(items)
    ensures AtPositions(columns, items, Placed(columns, items, 0, map[]))
  {
    forall j, f | 0 <= j < |items| && items[j].Declared? && columns[items[j].column].field == Some(f)
      ensures f in Placed(columns, items, 0, map[]) && Placed(columns, items, 0, map[])[f] == Position(columns, items, j)
    {
      PlacedAt(columns, items, 0, map[], j, f);
    }
  }

  lemma {:induction false} PlacedOnlyDeclared<F(!new)>(columns: seq<ColumnSpec<F>>, items: seq<Item>)
    requires AllInSchema(columns, items)
    ensures OnlyDeclared(columns, items, Placed(columns, items, 0, map[]))
  {
    forall f | f in Placed(columns, items, 0, map[])
      ensures exists j :: 0 <= j < |items| && items[j].Declared? && columns[items[j].column].field == Some(f)
    {
      PlacedOnly(columns, items, f);
    }
  }

  /** For a schema with prefix-free headers and any arrangement of its columns, once each, among tokens it does not
      declare: the walk gives a declared field the number of data tokens before it, and knows no other field. */
  lemma {:induction false} WalkFindsPositions<F(!new)>(columns: seq<ColumnSpec<F>>, items: seq<Item>, parts: Row)
    requires Sound(columns) && PrefixFree(columns) && Arranged(columns, items, parts, 0) && OnceEach(items)
    ensures AllInSchema(columns, items)
    ensures AtPositions(columns, items, Walk(LongestFirst(columns), parts, 0, 0, map[]))
    ensures OnlyDeclared(columns, items, Walk(LongestFirst(columns), parts, 0, 0, map[]))
  {
    ArrangedInSchema(columns, items, parts, 0);
    WalkIs(columns, items, parts, 0, 0, map[]);
    PlacedAtPositions(columns, items);
    PlacedOnlyDeclared(columns, items);
  }

  lemma {:induction false} PlacedOnly<F>(columns: seq<ColumnSpec<F>>, items: seq<Item>, f: F)
    requires AllInSchema(columns, items) && f in Placed(columns, items, 0, map[])
    ensures exists j :: 0 <= j < |items| && items[j].Declared? && columns[items[j].column].field == Some(f)
  {
    if forall j :: 0 <= j < |items| && items[j].Declared? ==> columns[items[j].column].field != Some(f) {
      PlacedKeeps(columns, items, 0, map[], f);
    }
  }

  // What the rows then are

  /** The data row whose items hold the blocks. */
  function Flatten(blocks: seq<Row>): Row {
    if blocks == [] then [] else Flatten(blocks[..|blocks| - 1]) + blocks[|blocks| - 1]
  }

  predicate BlocksFit<F>(columns: seq<ColumnSpec<F>>, items: seq<Item>, blocks: seq<Row>) {
    && AllInSchema(columns, items)
    && |blocks| == |items|
    && forall j :: 0 <= j < |items| ==> |blocks[j]| == DataWidth(columns, items[j])
  }

  /** The transform looks at one token only. */
  ghost predicate Local(t: Transform) {
    forall p: Row, q: Row, i: nat, j: nat {:trigger t(p, i), t(q, j)} :: i < |p| && j < |q| && p[i] == q[j] ==> t(p, i) == t(q, j)
  }

  ghost predicate AllLocal<F>(columns: seq<ColumnSpec<F>>) {
    forall k :: 0 <= k < |columns| && columns[k].transform.Some? ==> Local(columns[k].transform.value)
  }

  lemma {:induction false} FlattenAt<F>(columns: seq<ColumnSpec<F>>, items: seq<Item>, blocks: seq<Row>, j: nat)
    requires BlocksFit(columns, items, blocks) && j < |items| && blocks[j] != []
    ensures var row, p := Flatten(blocks), Position(columns, items, j); p < |row| && row[p] == blocks[j][0]
    decreases |items|
  {
    var n := |items| - 1;
    FlattenLength(columns, items, blocks, n);
    if j < n {
      FlattenAt(columns, items[..n], blocks[..n], j);
      PositionPrefix(columns, items, n, j);
    }
  }

  lemma {:induction false} PositionPrefix<F>(columns: seq<ColumnSpec<F>>, items: seq<Item>, n: nat, j: nat)
    requires AllInSchema(columns, items) && j <= n <= |items|
    ensures Position(columns, items[..n], j) == Position(columns, items, j)
  {
    if j > 0 {
      PositionPrefix(columns, items, n, j - 1);
    }
  }

  lemma {:induction false} FlattenLength<F>(columns: seq<ColumnSpec<F>>, items: seq<Item>, blocks: seq<Row>, n: nat)
    requires BlocksFit(columns, items, blocks) && n <= |items|
    ensures |Flatten(blocks[..n])| == Position(columns, items, n)
  {
    if n > 0 {
      FlattenLength(columns, items, blocks, n - 1);
      assert blocks[..n][..n - 1] == blocks[..n - 1];
    } else {
      assert blocks[..0] == [];
    }
  }

  /** The indices a header gives over the defaults. */
  function IndicesOver<F>(columns: seq<ColumnSpec<F>>, parts: Row): Indices<F> {
    Defaults(columns, |columns|) + Walk(LongestFirst(columns), parts, 0, 0, map[])
  }

  lemma {:induction false} WalkFinds<F(!new)>(columns: seq<ColumnSpec<F>>, items: seq<Item>, parts: Row, j: nat)
    requires Sound(columns) && PrefixFree(columns) && Arranged(columns, items, parts, 0) && OnceEach(items)
    requires AllInSchema(columns, items) && j < |items| && items[j].Declared? && columns[items[j].column].field.Some?
    ensures var f, found := columns[items[j].column].field.value, IndicesOver(columns, parts);
            f in found && found[f] == Position(columns, items, j)
  {
    WalkIs(columns, items, parts, 0, 0, map[]);
    PlacedAt(columns, items, 0, map[], j, columns[items[j].column].field.value);
  }

  // Whole tables

  /** A line of a table laid out by columns: no data row, or the block of each item, what follows them, and the token that
      each column of the schema is to be read from. */
  datatype Line = Other | Data(cells: seq<Row>, rest: Row, tokens: Row)

  datatype Sheet = Sheet(items: seq<Item>, header: Row, lines: seq<Line>)

  predicate LineLaid<F, T>(schema: TableSchema<F, T>, items: seq<Item>, line: string, l: Line) {
    match l
    case Other => !schema.isDataRow(Split(line))
    case Data(cells, rest, tokens) =>
      BlocksFit(schema.columns, items, cells) && Split(line) == Flatten(cells) + rest && |tokens| == |schema.columns|
  }

  /** The text is the sheet: its first header line arranges the items, and each line is as the sheet says. */
  predicate LaidOut<F, T>(schema: TableSchema<F, T>, text: string, s: Sheet) {
    var lines := SplitLines(text);
    && Arranged(schema.columns, s.items, s.header, 0) && OnceEach(s.items) && AllInSchema(schema.columns, s.items)
    && FirstHeader(schema, lines) == Some(s.header)
    && |s.lines| == |lines|
    && forall i :: 0 <= i < |lines| ==> LineLaid(schema, s.items, lines[i], s.lines[i])
  }

  /** The same data rows on the same lines. */
  predicate SameData(a: Sheet, b: Sheet) {
    && |a.lines| == |b.lines|
    && forall i :: 0 <= i < |a.lines| ==>
         a.lines[i].Data? == b.lines[i].Data? && (a.lines[i].Data? ==> a.lines[i].tokens == b.lines[i].tokens)
  }

  /** Column k stands among the items, and its block starts with its token. */
  predicate CellShown(items: seq<Item>, l: Line, k: nat)
    requires l.Data? && k < |l.tokens|
  {
    exists j :: 0 <= j < |items| && j < |l.cells| && items[j] == Declared(k) && l.cells[j] != [] && l.cells[j][0] == l.tokens[k]
  }

  /** The token that column k is read from. */
  predicate TokenRead<F>(columns: seq<ColumnSpec<F>>, indices: Indices<F>, parts: Row, tokens: Row, k: nat)
    requires k < |columns| && k < |tokens|
  {
    columns[k].field.Some? ==>
      var f := columns[k].field.value;
      f in indices && indices[f] < |parts| && parts[indices[f]] == tokens[k]
  }

  predicate ReadsTokens<F>(columns: seq<ColumnSpec<F>>, indices: Indices<F>, parts: Row, tokens: Row) {
    |tokens| == |columns| && forall k :: 0 <= k < |columns| ==> TokenRead(columns, indices, parts, tokens, k)
  }

  lemma {:induction false} IndicesOf<F, T>(schema: TableSchema<F, T>, lines: seq<string>, header: Row, found: Indices<F>)
    requires FirstHeader(schema, lines) == Some(header) && HeaderIndices(schema, header) == Ok(found)
    ensures TableIndices(schema, lines) == Ok(Defaults(schema.columns, |schema.columns|) + found)
  {
  }

  /** A column that stands among the items is read from its own token. */
  lemma {:induction false} ShownIsRead<F(!new)>(
    columns: seq<ColumnSpec<F>>, items: seq<Item>, header: Row, parts: Row, l: Line, k: nat)
    requires Sound(columns) && PrefixFree(columns) && Arranged(columns, items, header, 0) && OnceEach(items)
    requires l.Data? && BlocksFit(columns, items, l.cells) && parts == Flatten(l.cells) + l.rest
    requires k < |columns| == |l.tokens| && CellShown(items, l, k)
    ensures TokenRead(columns, IndicesOver(columns, header), parts, l.tokens, k)
  {
    var j :| 0 <= j < |items| && j < |l.cells| && items[j] == Declared(k) && l.cells[j] != [] && l.cells[j][0] == l.tokens[k];
    FlattenAt(columns, items, l.cells, j);
    if columns[k].field.Some? {
      WalkFinds(columns, items, header, j);
    }
  }

  lemma {:induction false} ShownAgree<F>(
    columns: seq<ColumnSpec<F>>, ia: Indices<F>, ra: Row, ib: Indices<F>, rb: Row, tokens: Row, n: nat)
    requires AllLocal(columns) && n <= |columns|
    requires ReadsTokens(columns, ia, ra, tokens) && ReadsTokens(columns, ib, rb, tokens)
    ensures RowValues(columns, ia, ra, n) == RowValues(columns, ib, rb, n)
    ensures RowOverflows(columns, ia, ra, n) == RowOverflows(columns, ib, rb, n)
  {
    if n > 0 {
      ShownAgree(columns, ia, ra, ib, rb, tokens, n - 1);
      var col := columns[n - 1];
      assert TokenRead(columns, ia, ra, tokens, n - 1) && TokenRead(columns, ib, rb, tokens, n - 1);
      if col.field.Some? && col.transform.Some? {
        var f := col.field.value;
        assert Local(col.transform.value);
        assert col.transform.value(ra, ia[f]) == col.transform.value(rb, ib[f]);
      }
    }
  }

  /** The line is no data row, or shows the tokens. */
  predicate LineShown<F, T>(schema: TableSchema<F, T>, indices: Indices<F>, line: string, l: Line) {
    match l
    case Other => !schema.isDataRow(Split(line))
    case Data(_, _, tokens) => ReadsTokens(schema.columns, indices, Split(line), tokens)
  }

  lemma LinesAgree<F, T>(schema: TableSchema<F, T>, ia: Indices<F>, a: string, la: Line, ib: Indices<F>, b: string, lb: Line)
    requires AllLocal(schema.columns) && LineShown(schema, ia, a, la) && LineShown(schema, ib, b, lb)
    requires la.Data? == lb.Data? && (la.Data? ==> la.tokens == lb.tokens && IsRow(schema, ia, a) == IsRow(schema, ib, b))
    ensures LineRow(schema, ia, a) == LineRow(schema, ib, b)
  {
    if la.Data? {
      ShownAgree(schema.columns, ia, Split(a), ib, Split(b), la.tokens, |schema.columns|);
    }
  }

  lemma {:induction false} SameLines<F, T>(
    schema: TableSchema<F, T>, ia: Indices<F>, a: seq<string>, ib: Indices<F>, b: seq<string>)
    requires |a| == |b| && forall i :: 0 <= i < |a| ==> LineRow(schema, ia, a[i]) == LineRow(schema, ib, b[i])
    ensures LinesRows(schema, ia, a) == LinesRows(schema, ib, b)
  {
    if a != [] {
      assert LineRow(schema, ia, a[0]) == LineRow(schema, ib, b[0]);
      forall i | 0 <= i < |a| - 1
        ensures LineRow(schema, ia, a[1..][i]) == LineRow(schema, ib, b[1..][i])
      {
        assert a[1..][i] == a[i + 1] && b[1..][i] == b[i + 1];
      }
      SameLines(schema, ia, a[1..], ib, b[1..]);
    }
  }

  /** Both texts show the same tokens, line by line, and their rows pass the same tests. */
  predicate BothShown<F, T>(
    schema: TableSchema<F, T>, a: Sheet, ia: Indices<F>, la: seq<string>, b: Sheet, ib: Indices<F>, lb: seq<string>)
    requires |a.lines| == |la| && |b.lines| == |lb| && SameData(a, b)
  {
    forall i :: 0 <= i < |la| ==>
      && LineShown(schema, ia, la[i], a.lines[i]) && LineShown(schema, ib, lb[i], b.lines[i])
      && (a.lines[i].Data? ==> IsRow(schema, ia, la[i]) == IsRow(schema, ib, lb[i]))
  }

  lemma {:induction false} SameTable<F, T>(
    schema: TableSchema<F, T>, ta: string, a: Sheet, ia: Indices<F>, tb: string, b: Sheet, ib: Indices<F>)
    requires AllLocal(schema.columns) && SameData(a, b)
    requires |a.lines| == |SplitLines(ta)| && TableIndices(schema, SplitLines(ta)) == Ok(ia)
    requires |b.lines| == |SplitLines(tb)| && TableIndices(schema, SplitLines(tb)) == Ok(ib)
    requires BothShown(schema, a, ia, SplitLines(ta), b, ib, SplitLines(tb))
    ensures TableRows(schema, ta) == TableRows(schema, tb)
  {
    var la, lb := SplitLines(ta), SplitLines(tb);
    forall i | 0 <= i < |la|
      ensures LineRow(schema, ia, la[i]) == LineRow(schema, ib, lb[i])
    {
      LinesAgree(schema, ia, la[i], a.lines[i], ib, lb[i], b.lines[i]);
    }
    SameLines(schema, ia, la, ib, lb);
  }

  /** A header that begins with the first column's only token has that column first. */
  lemma {:induction false} FirstItemIs<F(!new)>(columns: seq<ColumnSpec<F>>, items: seq<Item>, header: Row)
    requires PrefixFree(columns) && Arranged(columns, items, header, 0)
    requires header != [] && columns != [] && columns[0].headerTokens == [header[0]]
    ensures items != [] && items[0] == Declared(0)
  {
    assert header[0..1] == [header[0]];
    assert Begins(columns, items[0], header, 0);
    match items[0] {
      case Declared(k) =>
        OnlyOneStands(columns, header, 0, 0, k);
      case Unknown(_) =>
    }
  }

  lemma FirstToken<F>(columns: seq<ColumnSpec<F>>, items: seq<Item>, l: Line)
    requires l.Data? && BlocksFit(columns, items, l.cells) && l.tokens != [] && CellShown(items, l, 0)
    requires items != [] && items[0] == Declared(0) && OnceEach(items)
    ensures Flatten(l.cells) + l.rest != [] && (Flatten(l.cells) + l.rest)[0] == l.tokens[0]
  {
    var j :| 0 <= j < |items| && j < |l.cells| && items[j] == Declared(0) && l.cells[j] != [] && l.cells[j][0] == l.tokens[0];
    FlattenAt(columns, items, l.cells, 0);
  }

  /** The last item's block, when it is one token, and what comes after it. */
  lemma {:induction false} LastBlock<F>(columns: seq<ColumnSpec<F>>, items: seq<Item>, l: Line, parts: Row)
    requires l.Data? && BlocksFit(columns, items, l.cells) && parts == Flatten(l.cells) + l.rest
    requires items != [] && |l.cells[|items| - 1]| == 1 && l.rest != []
    ensures var p := Position(columns, items, |items| - 1);
            p + 1 < |parts| && parts[p] == l.cells[|items| - 1][0] && parts[p + 1] == l.rest[0]
  {
    FlattenAt(columns, items, l.cells, |items| - 1);
    FlattenLength(columns, items, l.cells, |items|);
    assert l.cells[..|items|] == l.cells;
  }

  /** Columns 0 to n - 1 all stand among the items, so that there are at least n. */
  lemma {:induction false} AtLeast(items: seq<Item>, n: nat)
    requires forall k :: 0 <= k < n ==> Declared(k) in items
    ensures |items| >= n
  {
    if n > 0 {
      var j :| 0 <= j < |items| && items[j] == Declared(n - 1);
      var others := items[..j] + items[j + 1..];
      forall k | 0 <= k < n - 1
        ensures Declared(k) in others
      {
        var i :| 0 <= i < |items| && items[i] == Declared(k);
        assert others[if i < j then i else i - 1] == Declared(k);
      }
      AtLeast(others, n - 1);
    }
  }

  lemma {:induction false} Widens<F>(columns: seq<ColumnSpec<F>>, items: seq<Item>, n: nat)
    requires AllInSchema(columns, items) && n <= |items|
    requires forall k :: 0 <= k < |columns| ==> columns[k].dataWidth >= 1
    ensures Position(columns, items, n) >= n
  {
    if n > 0 {
      Widens(columns, items, n - 1);
    }
  }
}
