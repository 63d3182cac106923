/** The pwr and bat schemas are sound; exactly when parsing with them raises, and what a missing column is read from. */
module SchemaLaws {
  import opened Search
  import opened Wrappers
  import opened Text
  import opened Table
  import opened Schemas
  import opened Layout

  // Transforms

  lemma TransformsAreLocal()
    ensures Local(RequiredInt) && Local(RequiredMilli) && Local(RequiredStr) && Local(RequiredPercentInt)
    ensures Local(OptionalMilli) && Local(OptionalStatus)
    ensures Local(OptionalStrByBounds) && Local(OptionalIntByBounds) && Local(PercentIntOrZero)
  {
  }

  lemma PwrLocal()
    ensures AllLocal(PWR_COLUMNS)
  {
    TransformsAreLocal();
  }

  lemma BatLocal()
    ensures AllLocal(BAT_COLUMNS)
  {
    TransformsAreLocal();
  }

  // Headers

  /** The place of a field's column. */
  function PwrPlace(f: PwrField): nat {
    match f
    case SysId => 0 case Voltage => 1 case Current => 2 case Temperature => 3 case TempLow => 4 case TempHigh => 5
    case VoltLow => 6 case VoltHigh => 7 case Status => 8 case VoltStatus => 9 case CurrStatus => 10 case TempStatus => 11
    case Soc => 12 case BattVoltStatus => 14 case BattTempStatus => 15
  }

  lemma PwrPlaced(k: nat)
    requires k < |PWR_COLUMNS|
    ensures PWR_COLUMNS[k].headerTokens != []
    ensures PWR_COLUMNS[k].field.Some? ==> PwrPlace(PWR_COLUMNS[k].field.value) == k
  {
  }

  lemma PwrSound()
    ensures Sound(PWR_COLUMNS)
  {
    hide PWR_COLUMNS;
    forall i, j | 0 <= i < j < |PWR_COLUMNS| && PWR_COLUMNS[i].field.Some?
      ensures PWR_COLUMNS[i].field != PWR_COLUMNS[j].field
    {
      PwrPlaced(i);
      PwrPlaced(j);
    }
    forall i | 0 <= i < |PWR_COLUMNS|
      ensures PWR_COLUMNS[i].headerTokens != []
    {
      PwrPlaced(i);
    }
  }

  lemma BatSound()
    ensures Sound(BAT_COLUMNS)
  {
  }

  type Marking = (nat, char, char, char, char)

  /** The length of a header token and four of its letters in lower case: enough to tell the schemas' headers apart. */
  function Mark(s: string): Marking
    requires |s| >= 3
  {
    (|s|, LowerChar(s[0]), LowerChar(s[1]), LowerChar(s[2]), LowerChar(s[|s| - 1]))
  }

  lemma {:induction false} SameLowerChars(s: string, t: string)
    requires Lower(s) == Lower(t)
    ensures |s| == |t| && forall i :: 0 <= i < |s| ==> LowerChar(s[i]) == LowerChar(t[i])
  {
    assert |Lower(s)| == |Lower(t)|;
    forall i | 0 <= i < |s|
      ensures LowerChar(s[i]) == LowerChar(t[i])
    {
      assert Lower(s)[i] == Lower(t)[i];
    }
  }

  lemma SameCharsSameMark(s: string, t: string)
    requires |s| == |t| >= 3 && forall i :: 0 <= i < |s| ==> LowerChar(s[i]) == LowerChar(t[i])
    ensures Mark(s) == Mark(t)
  {
  }

  lemma {:induction false} SameLowerSameMark(s: string, t: string)
    requires |s| >= 3 && Lower(s) == Lower(t)
    ensures |t| >= 3 && Mark(s) == Mark(t)
  {
    SameLowerChars(s, t);
    SameCharsSameMark(s, t);
  }

  const PWR_MARKS: seq<Marking> := [
    (5, 'p', 'o', 'w', 'r'), (4, 'v', 'o', 'l', 't'), (4, 'c', 'u', 'r', 'r'), (5, 't', 'e', 'm', 'r'),
    (4, 't', 'l', 'o', 'w'), (5, 't', 'h', 'i', 'h'), (4, 'v', 'l', 'o', 'w'), (5, 'v', 'h', 'i', 'h'),
    (7, 'b', 'a', 's', 't'), (7, 'v', 'o', 'l', 't'), (7, 'c', 'u', 'r', 't'), (7, 't', 'e', 'm', 't'),
    (7, 'c', 'o', 'u', 'b'), (4, 't', 'i', 'm', 'e'), (6, 'b', '.', 'v', 't'), (6, 'b', '.', 't', 't')]

  const BAT_MARKS: seq<Marking> := [
    (7, 'b', 'a', 't', 'y'), (4, 'v', 'o', 'l', 't'), (4, 'c', 'u', 'r', 'r'), (5, 't', 'e', 'm', 'r'),
    (4, 'b', 'a', 's', 'e'), (5, 'v', 'o', 'l', '.'), (5, 'c', 'u', 'r', '.'), (5, 't', 'e', 'm', '.'),
    (3, 's', 'o', 'c', 'c'), (7, 'c', 'o', 'u', 'b')]

  /** The first header token of column k has mark marks[k], and no two marks are the same. */
  predicate Marked<F>(columns: seq<ColumnSpec<F>>, marks: seq<Marking>) {
    && |columns| == |marks|
    && (forall k :: 0 <= k < |columns| ==>
          columns[k].headerTokens != [] && |columns[k].headerTokens[0]| >= 3 && Mark(columns[k].headerTokens[0]) == marks[k])
    && (forall i, j :: 0 <= i < j < |marks| ==> marks[i] != marks[j])
  }

  predicate MarkedAt<F>(columns: seq<ColumnSpec<F>>, marks: seq<Marking>, k: nat)
    requires k < |columns| && k < |marks|
  {
    columns[k].headerTokens != [] && |columns[k].headerTokens[0]| >= 3 && Mark(columns[k].headerTokens[0]) == marks[k]
  }

  lemma PwrMark(k: nat)
    requires k < 16
    ensures MarkedAt(PWR_COLUMNS, PWR_MARKS, k)
  {
  }

  lemma PwrMarksDiffer(i: nat, j: nat)
    requires i < j < 16
    ensures PWR_MARKS[i] != PWR_MARKS[j]
  {
  }

  lemma PwrMarked()
    ensures Marked(PWR_COLUMNS, PWR_MARKS)
  {
    forall k | 0 <= k < 16
      ensures MarkedAt(PWR_COLUMNS, PWR_MARKS, k)
    {
      PwrMark(k);
    }
    forall i, j | 0 <= i < j < 16
      ensures PWR_MARKS[i] != PWR_MARKS[j]
    {
      PwrMarksDiffer(i, j);
    }
    MarkedWhen(PWR_COLUMNS, PWR_MARKS);
  }

  lemma MarkedWhen<F>(columns: seq<ColumnSpec<F>>, marks: seq<Marking>)
    requires |columns| == |marks| && forall k :: 0 <= k < |columns| ==> MarkedAt(columns, marks, k)
    requires forall i, j :: 0 <= i < j < |marks| ==> marks[i] != marks[j]
    ensures Marked(columns, marks)
  {
    forall k | 0 <= k < |columns|
      ensures columns[k].headerTokens != [] && |columns[k].headerTokens[0]| >= 3 && Mark(columns[k].headerTokens[0]) == marks[k]
    {
      assert MarkedAt(columns, marks, k);
    }
  }

  lemma BatMark(k: nat)
    requires k < 10
    ensures MarkedAt(BAT_COLUMNS, BAT_MARKS, k)
  {
  }

  lemma BatMarked()
    ensures Marked(BAT_COLUMNS, BAT_MARKS)
  {
    forall k | 0 <= k < 10
      ensures MarkedAt(BAT_COLUMNS, BAT_MARKS, k)
    {
      BatMark(k);
    }
    MarkedWhen(BAT_COLUMNS, BAT_MARKS);
  }

  lemma FirstTokensDiffer<F>(columns: seq<ColumnSpec<F>>, marks: seq<Marking>, i: nat, j: nat)
    requires Marked(columns, marks) && i < |columns| && j < |columns| && i != j
    ensures !(LowerAll(columns[i].headerTokens) <= LowerAll(columns[j].headerTokens))
  {
    var a, b := columns[i].headerTokens, columns[j].headerTokens;
    if LowerAll(a) <= LowerAll(b) {
      assert LowerAll(a)[0] == LowerAll(b)[0];
      SameLowerSameMark(a[0], b[0]);
      assert false;
    }
  }

  lemma MarkedIsPrefixFree<F>(columns: seq<ColumnSpec<F>>, marks: seq<Marking>)
    requires Marked(columns, marks)
    ensures PrefixFree(columns)
  {
    forall i, j | 0 <= i < |columns| && 0 <= j < |columns| && i != j
      ensures !(LowerAll(columns[i].headerTokens) <= LowerAll(columns[j].headerTokens))
    {
      FirstTokensDiffer(columns, marks, i, j);
    }
  }

  /** A token whose mark is none of the schema's begins no column's header. */
  lemma UnmarkedIsUnknown<F>(columns: seq<ColumnSpec<F>>, marks: seq<Marking>, t: string)
    requires Marked(columns, marks) && |t| >= 3 && Mark(t) !in marks
    ensures Spells(columns, Unknown(t), [t])
  {
    forall k | 0 <= k < |columns| && columns[k].headerTokens != []
      ensures Lower(columns[k].headerTokens[0]) != Lower(t)
    {
      if Lower(columns[k].headerTokens[0]) == Lower(t) {
        SameLowerSameMark(columns[k].headerTokens[0], t);
      }
    }
  }

  lemma PwrPrefixFree()
    ensures PrefixFree(PWR_COLUMNS)
  {
    PwrMarked();
    MarkedIsPrefixFree(PWR_COLUMNS, PWR_MARKS);
  }

  lemma BatPrefixFree()
    ensures PrefixFree(BAT_COLUMNS)
  {
    BatMarked();
    MarkedIsPrefixFree(BAT_COLUMNS, BAT_MARKS);
  }

  // What a row's dict holds

  lemma {:induction false} DefaultsHave<F>(columns: seq<ColumnSpec<F>>, n: nat, k: nat)
    requires Sound(columns) && k < n <= |columns| && columns[k].field.Some? && columns[k].defaultIndex.Some?
    ensures var f, d := columns[k].field.value, Defaults(columns, n); f in d && d[f] == columns[k].defaultIndex.value
  {
    if k < n - 1 {
      DefaultsHave(columns, n - 1, k);
    }
  }

  /** When a row's cells are all good, each field holds what its column's transform returned. */
  lemma {:induction false} ValueIs<F>(columns: seq<ColumnSpec<F>>, indices: Indices<F>, parts: Row, n: nat, k: nat)
    requires Sound(columns) && k < n <= |columns| && columns[k].field.Some? && columns[k].transform.Some?
    requires columns[k].field.value in indices && RowValues(columns, indices, parts, n).Some?
    ensures var f, v := columns[k].field.value, RowValues(columns, indices, parts, n).value;
            f in v && columns[k].transform.value(parts, indices[f]) == Ok(v[f])
  {
    if k < n - 1 {
      ValueIs(columns, indices, parts, n - 1, k);
    }
  }

  // Totality

  /** A field with a default has an index under any header. */
  lemma IndexedAlways<F, T>(schema: TableSchema<F, T>, lines: seq<string>, k: nat)
    requires Sound(schema.columns) && k < |schema.columns|
    requires schema.columns[k].field.Some? && schema.columns[k].defaultIndex.Some?
    requires TableIndices(schema, lines).Ok?
    ensures schema.columns[k].field.value in TableIndices(schema, lines).value
  {
    DefaultsHave(schema.columns, |schema.columns|, k);
  }

  lemma {:induction false} PwrRowBuilds(indices: Indices<PwrField>, parts: Row)
    requires forall k :: 0 <= k < |PWR_COLUMNS| && PWR_COLUMNS[k].field.Some? ==> PWR_COLUMNS[k].field.value in indices
    requires RowValues(PWR_COLUMNS, indices, parts, |PWR_COLUMNS|).Some?
    ensures BuildBatteryFromPwrRow(RowValues(PWR_COLUMNS, indices, parts, |PWR_COLUMNS|).value).Ok?
  {
    hide RowValues, Sound, BuildBatteryFromPwrRow;
    PwrSound();
    PwrCell(indices, parts, 0);
    PwrCell(indices, parts, 1);
    PwrCell(indices, parts, 2);
    PwrCell(indices, parts, 3);
    PwrCell(indices, parts, 8);
    PwrCell(indices, parts, 12);
    PwrBuilds(RowValues(PWR_COLUMNS, indices, parts, |PWR_COLUMNS|).value);
  }

  lemma PwrBuilds(v: Values<PwrField>)
    requires SysId in v && v[SysId].Whole? && Voltage in v && v[Voltage].Decimal? && Current in v && v[Current].Decimal?
    requires Temperature in v && v[Temperature].Decimal? && Soc in v && v[Soc].Whole? && Status in v && v[Status].Word?
    ensures BuildBatteryFromPwrRow(v).Ok?
  {
  }

  lemma {:induction false} PwrCell(indices: Indices<PwrField>, parts: Row, k: nat)
    requires k < |PWR_COLUMNS| && PWR_COLUMNS[k].field.Some? && PWR_COLUMNS[k].transform.Some?
    requires PWR_COLUMNS[k].field.value in indices && RowValues(PWR_COLUMNS, indices, parts, |PWR_COLUMNS|).Some?
    ensures var f, v := PWR_COLUMNS[k].field.value, RowValues(PWR_COLUMNS, indices, parts, |PWR_COLUMNS|).value;
            f in v && PWR_COLUMNS[k].transform.value(parts, indices[f]) == Ok(v[f])
  {
    PwrSound();
    ValueIs(PWR_COLUMNS, indices, parts, |PWR_COLUMNS|, k);
  }

  /** Column k's cell is read. */
  predicate CellRead<F>(columns: seq<ColumnSpec<F>>, indices: Indices<F>, k: nat)
    requires k < |columns|
  {
    columns[k].field.Some? && columns[k].transform.Some? && columns[k].field.value in indices
  }

  function CellResult<F>(columns: seq<ColumnSpec<F>>, indices: Indices<F>, parts: Row, k: nat): Result<Value, CellError>
    requires k < |columns| && CellRead(columns, indices, k)
  {
    columns[k].transform.value(parts, indices[columns[k].field.value])
  }

  predicate CellPasses<F>(columns: seq<ColumnSpec<F>>, indices: Indices<F>, parts: Row, k: nat)
    requires k < |columns|
  {
    CellRead(columns, indices, k) ==> CellResult(columns, indices, parts, k).Ok?
  }

  lemma {:induction false} ValuesIff<F>(columns: seq<ColumnSpec<F>>, indices: Indices<F>, parts: Row, n: nat)
    requires n <= |columns|
    ensures RowValues(columns, indices, parts, n).Some? <==> forall k :: 0 <= k < n ==> CellPasses(columns, indices, parts, k)
  {
    if n > 0 {
      ValuesIff(columns, indices, parts, n - 1);
      assert RowValues(columns, indices, parts, n).Some?
        <==> RowValues(columns, indices, parts, n - 1).Some? && CellPasses(columns, indices, parts, n - 1);
    }
  }

  /** Column k's cell raises OverflowError, and none before it raises anything. */
  predicate OverflowsAt<F>(columns: seq<ColumnSpec<F>>, indices: Indices<F>, parts: Row, k: nat)
    requires k < |columns|
  {
    && CellRead(columns, indices, k) && CellResult(columns, indices, parts, k) == Err(TooLarge)
    && forall j :: 0 <= j < k ==> CellPasses(columns, indices, parts, j)
  }

  lemma {:induction false} OverflowsIff<F>(columns: seq<ColumnSpec<F>>, indices: Indices<F>, parts: Row, n: nat)
    requires n <= |columns|
    ensures RowOverflows(columns, indices, parts, n) <==> exists k :: 0 <= k < n && OverflowsAt(columns, indices, parts, k)
  {
    if n > 0 {
      OverflowsIff(columns, indices, parts, n - 1);
      ValuesIff(columns, indices, parts, n - 1);
      if RowValues(columns, indices, parts, n - 1).None? {
        var j :| 0 <= j < n - 1 && !CellPasses(columns, indices, parts, j);
      } else {
        assert RowOverflows(columns, indices, parts, n) <==> OverflowsAt(columns, indices, parts, n - 1);
        NoneStops(columns, indices, parts, n - 1);
      }
    }
  }

  lemma NoneStops<F>(columns: seq<ColumnSpec<F>>, indices: Indices<F>, parts: Row, n: nat)
    requires n <= |columns| && forall k :: 0 <= k < n ==> CellPasses(columns, indices, parts, k)
    ensures forall k :: 0 <= k < n ==> !OverflowsAt(columns, indices, parts, k)
  {
    forall k | 0 <= k < n
      ensures !OverflowsAt(columns, indices, parts, k)
    {
      assert CellPasses(columns, indices, parts, k);
    }
  }

  lemma {:induction false} LinesRaiseIff<F, T>(schema: TableSchema<F, T>, indices: Indices<F>, lines: seq<string>)
    requires forall i :: 0 <= i < |lines| ==> var r := LineRow(schema, indices, lines[i]); r.Raised? ==> r.fault == Overflow
    ensures LinesRows(schema, indices, lines).Err? <==> AnyRaised(schema, indices, lines)
    ensures LinesRows(schema, indices, lines).Err? ==> LinesRows(schema, indices, lines).error == Overflow
  {
    if lines != [] {
      forall i | 0 <= i < |lines| - 1
        ensures LineRow(schema, indices, lines[1..][i]) == LineRow(schema, indices, lines[i + 1])
      {
        assert lines[1..][i] == lines[i + 1];
      }
      LinesRaiseIff(schema, indices, lines[1..]);
      AnyRaisedStep(schema, indices, lines);
    }
  }

  predicate AnyRaised<F, T>(schema: TableSchema<F, T>, indices: Indices<F>, lines: seq<string>) {
    exists i :: 0 <= i < |lines| && LineRow(schema, indices, lines[i]).Raised?
  }

  lemma AnyRaisedStep<F, T>(schema: TableSchema<F, T>, indices: Indices<F>, lines: seq<string>)
    requires lines != []
    ensures AnyRaised(schema, indices, lines)
       <==> LineRow(schema, indices, lines[0]).Raised? || AnyRaised(schema, indices, lines[1..])
  {
    if AnyRaised(schema, indices, lines[1..]) {
      var i :| 0 <= i < |lines[1..]| && LineRow(schema, indices, lines[1..][i]).Raised?;
      assert lines[1..][i] == lines[i + 1];
    }
    if AnyRaised(schema, indices, lines) && !LineRow(schema, indices, lines[0]).Raised? {
      var i :| 0 <= i < |lines| && LineRow(schema, indices, lines[i]).Raised?;
      assert lines[i] == lines[1..][i - 1];
    }
  }

  /** The token at i is a number that no float is near. */
  predicate HoldsHuge(parts: Row, i: nat) {
    i < |parts| && ParseInt(parts[i]).Some? && BeyondFloat(ParseInt(parts[i]).value)
  }

  /** On a data row, the token of column k is too large a number, and no column before it stops the row. */
  predicate HugeAt<F, T>(schema: TableSchema<F, T>, indices: Indices<F>, line: string, k: nat)
    requires k < |schema.columns|
  {
    && IsRow(schema, indices, line)
    && CellRead(schema.columns, indices, k)
    && HoldsHuge(Split(line), indices[schema.columns[k].field.value])
    && forall j :: 0 <= j < k ==> CellPasses(schema.columns, indices, Split(line), j)
  }

  /** The columns from low up to high, and no others, convert to thousandths. */
  ghost predicate MilliColumns<F>(columns: seq<ColumnSpec<F>>, low: nat, high: nat) {
    low <= high <= |columns|
    && forall k, parts: Row, i: nat :: 0 <= k < |columns| && columns[k].transform.Some? ==>
         (columns[k].transform.value(parts, i) == Err(TooLarge) <==> low <= k < high && HoldsHuge(parts, i))
  }

  lemma {:induction false} LineRaisesIff<F, T>(schema: TableSchema<F, T>, indices: Indices<F>, line: string, low: nat, high: nat)
    requires MilliColumns(schema.columns, low, high)
    requires RowValues(schema.columns, indices, Split(line), |schema.columns|).Some? ==>
               schema.rowFactory(RowValues(schema.columns, indices, Split(line), |schema.columns|).value).Ok?
    ensures LineRow(schema, indices, line).Raised? <==> exists k :: low <= k < high && HugeAt(schema, indices, line, k)
    ensures LineRow(schema, indices, line).Raised? ==> LineRow(schema, indices, line).fault == Overflow
  {
    var parts := Split(line);
    OverflowsIff(schema.columns, indices, parts, |schema.columns|);
    ValuesIff(schema.columns, indices, parts, |schema.columns|);
    if LineRow(schema, indices, line).Raised? {
      var k :| 0 <= k < |schema.columns| && OverflowsAt(schema.columns, indices, parts, k);
      assert HugeAt(schema, indices, line, k);
    } else if k :| low <= k < high && HugeAt(schema, indices, line, k) {
      assert OverflowsAt(schema.columns, indices, parts, k);
    }
  }

  /** Some line of the text has too large a number in one of the columns. */
  predicate HasHuge<F, T>(schema: TableSchema<F, T>, indices: Indices<F>, lines: seq<string>, low: nat, high: nat)
    requires high <= |schema.columns|
  {
    exists i :: 0 <= i < |lines| && HugeIn(schema, indices, lines[i], low, high)
  }

  predicate HugeIn<F, T>(schema: TableSchema<F, T>, indices: Indices<F>, line: string, low: nat, high: nat)
    requires high <= |schema.columns|
  {
    exists k :: low <= k < high && HugeAt(schema, indices, line, k)
  }

  lemma {:induction false} TextRaisesIff<F, T>(schema: TableSchema<F, T>, indices: Indices<F>, lines: seq<string>, low: nat, high: nat)
    requires MilliColumns(schema.columns, low, high)
    requires forall i :: 0 <= i < |lines| ==>
               var v := RowValues(schema.columns, indices, Split(lines[i]), |schema.columns|);
               v.Some? ==> schema.rowFactory(v.value).Ok?
    ensures LinesRows(schema, indices, lines).Err? <==> HasHuge(schema, indices, lines, low, high)
    ensures LinesRows(schema, indices, lines).Err? ==> LinesRows(schema, indices, lines).error == Overflow
  {
    forall i | 0 <= i < |lines|
      ensures LineRow(schema, indices, lines[i]).Raised? <==> HugeIn(schema, indices, lines[i], low, high)
      ensures var r := LineRow(schema, indices, lines[i]); r.Raised? ==> r.fault == Overflow
    {
      LineRaisesIff(schema, indices, lines[i], low, high);
    }
    LinesRaiseIff(schema, indices, lines);
  }

  lemma TransformsTooLarge(parts: Row, i: nat)
    ensures RequiredMilli(parts, i) == Err(TooLarge) <==> HoldsHuge(parts, i)
    ensures OptionalMilli(parts, i) == Err(TooLarge) <==> HoldsHuge(parts, i)
    ensures RequiredInt(parts, i) != Err(TooLarge) && RequiredStr(parts, i) != Err(TooLarge)
    ensures RequiredPercentInt(parts, i) != Err(TooLarge) && OptionalStatus(parts, i) != Err(TooLarge)
    ensures OptionalStrByBounds(parts, i) != Err(TooLarge) && OptionalIntByBounds(parts, i) != Err(TooLarge)
    ensures PercentIntOrZero(parts, i) != Err(TooLarge)
  {
    DashIsNoNumber();
  }

  lemma DashIsNoNumber()
    ensures ParseInt("-") == None
  {
    assert Strip("-") == "-" && "-"[1..] == "";
  }

  lemma PwrMilli()
    ensures MilliColumns(PWR_COLUMNS, 1, 8)
  {
    forall k, parts: Row, i: nat | 0 <= k < |PWR_COLUMNS| && PWR_COLUMNS[k].transform.Some?
      ensures PWR_COLUMNS[k].transform.value(parts, i) == Err(TooLarge) <==> 1 <= k < 8 && HoldsHuge(parts, i)
    {
      TransformsTooLarge(parts, i);
    }
  }

  lemma BatMilli()
    ensures MilliColumns(BAT_COLUMNS, 1, 4)
  {
    forall k, parts: Row, i: nat | 0 <= k < |BAT_COLUMNS| && BAT_COLUMNS[k].transform.Some?
      ensures BAT_COLUMNS[k].transform.value(parts, i) == Err(TooLarge) <==> 1 <= k < 4 && HoldsHuge(parts, i)
    {
      TransformsTooLarge(parts, i);
    }
  }

  /** The pwr parser raises exactly when a data row holds, under one of its seven columns of thousandths, a number no float
      is near, with no bad cell before it on the row to have the row skipped; and what it then raises is OverflowError. */
  lemma {:induction false} PwrRaisesIff(text: string)
    ensures TableIndices(PwrTable(), SplitLines(text)).Ok?
    ensures TableRows(PwrTable(), text).Err?
       <==> HasHuge(PwrTable(), TableIndices(PwrTable(), SplitLines(text)).value, SplitLines(text), 1, 8)
    ensures TableRows(PwrTable(), text).Err? ==> TableRows(PwrTable(), text).error == Overflow
  {
    var schema, lines := PwrTable(), SplitLines(text);
    PwrSound();
    PwrMilli();
    var indices := TableIndices(schema, lines).value;
    forall k | 0 <= k < |PWR_COLUMNS| && PWR_COLUMNS[k].field.Some?
      ensures PWR_COLUMNS[k].field.value in indices
    {
      IndexedAlways(schema, lines, k);
    }
    forall i | 0 <= i < |lines|
      ensures var v := RowValues(PWR_COLUMNS, indices, Split(lines[i]), |PWR_COLUMNS|);
              v.Some? ==> schema.rowFactory(v.value).Ok?
    {
      if RowValues(PWR_COLUMNS, indices, Split(lines[i]), |PWR_COLUMNS|).Some? {
        PwrRowBuilds(indices, Split(lines[i]));
      }
    }
    TextRaisesIff(schema, indices, lines, 1, 8);
  }

  // The bat header always has its capacity

  lemma {:induction false} WalkKeeps<F>(columns: seq<ColumnSpec<F>>, parts: Row, i: nat, data: nat, indices: Indices<F>, f: F)
    requires i <= |parts| && f in indices
    ensures f in Walk(columns, parts, i, data, indices)
    decreases |parts| - i
  {
    if i < |parts| {
      match ColumnAt(columns, parts, i) {
        case None =>
          WalkKeeps(columns, parts, i + 1, data + 1, indices, f);
        case Some(col) =>
          if col.headerTokens != [] {
            var next := if col.field.Some? then indices[col.field.value := data] else indices;
            WalkKeeps(columns, parts, i + |col.headerTokens|, data + col.dataWidth, next, f);
          }
      }
    }
  }

  /** The token is not inside the column's header, except at its front. */
  predicate OnlyInFront<F>(c: ColumnSpec<F>, t: string) {
    c.headerTokens != [] && forall o :: 1 <= o < |c.headerTokens| ==> Lower(c.headerTokens[o]) != Lower(t)
  }

  ghost predicate OnlyInFronts<F(!new)>(columns: seq<ColumnSpec<F>>, t: string) {
    forall c :: c in columns ==> OnlyInFront(c, t)
  }

  lemma {:induction false} NotSpanned<F(!new)>(columns: seq<ColumnSpec<F>>, parts: Row, i: nat, p: nat)
    requires i < p < |parts| && OnlyInFronts(columns, parts[p]) && ColumnAt(columns, parts, i).Some?
    requires ColumnAt(columns, parts, i).value in columns
    ensures i + |ColumnAt(columns, parts, i).value.headerTokens| <= p
  {
    var col := ColumnAt(columns, parts, i).value;
    assert OnlyInFront(col, parts[p]);
    NotInside(col, parts, i, p);
  }

  lemma NotInside<F>(col: ColumnSpec<F>, parts: Row, i: nat, p: nat)
    requires i < p < |parts| && StandsAt(col, parts, i) && OnlyInFront(col, parts[p])
    ensures i + |col.headerTokens| <= p
  {
    if i + |col.headerTokens| > p {
      StandsToken(col, parts, i, p - i);
    }
  }

  lemma {:induction false} ColumnAtIsOne<F>(columns: seq<ColumnSpec<F>>, parts: Row, i: nat)
    requires i <= |parts| && ColumnAt(columns, parts, i).Some?
    ensures ColumnAt(columns, parts, i).value in columns
  {
    if !StandsAt(columns[0], parts, i) {
      ColumnAtIsOne(columns[1..], parts, i);
    }
  }

  lemma {:induction false} WalkReaches<F(!new)>(
    columns: seq<ColumnSpec<F>>, parts: Row, i: nat, data: nat, indices: Indices<F>, p: nat, f: F)
    requires i <= p < |parts| && OnlyInFronts(columns, parts[p])
    requires ColumnAt(columns, parts, p).Some? && ColumnAt(columns, parts, p).value.field == Some(f)
    ensures f in Walk(columns, parts, i, data, indices)
    decreases |parts| - i
  {
    hide Walk;
    match ColumnAt(columns, parts, i) {
      case None =>
        WalkSkips(columns, parts, i, data, indices);
        WalkReaches(columns, parts, i + 1, data + 1, indices, p, f);
      case Some(col) =>
        StandsWhole(columns, parts, i, p);
        WalkColumn(columns, parts, i, data, indices, col);
        var next := if col.field.Some? then indices[col.field.value := data] else indices;
        if i == p {
          WalkKeeps(columns, parts, i + |col.headerTokens|, data + col.dataWidth, next, f);
        } else {
          WalkReaches(columns, parts, i + |col.headerTokens|, data + col.dataWidth, next, p, f);
        }
    }
  }

  /** The column that stands at i ends at or before p, when p is not i. */
  lemma {:induction false} StandsWhole<F(!new)>(columns: seq<ColumnSpec<F>>, parts: Row, i: nat, p: nat)
    requires i <= p < |parts| && OnlyInFronts(columns, parts[p]) && ColumnAt(columns, parts, i).Some?
    ensures ColumnAt(columns, parts, i).value.headerTokens != []
    ensures i < p ==> i + |ColumnAt(columns, parts, i).value.headerTokens| <= p
  {
    ColumnAtIsOne(columns, parts, i);
    assert OnlyInFront(ColumnAt(columns, parts, i).value, parts[p]);
    if i < p {
      NotSpanned(columns, parts, i, p);
    }
  }

  lemma {:induction false} WalkSkips<F>(
    columns: seq<ColumnSpec<F>>, parts: Row, i: nat, data: nat, indices: Indices<F>)
    requires i < |parts| && ColumnAt(columns, parts, i).None?
    ensures Walk(columns, parts, i, data, indices) == Walk(columns, parts, i + 1, data + 1, indices)
  {
  }

  lemma {:induction false} WalkColumn<F>(
    columns: seq<ColumnSpec<F>>, parts: Row, i: nat, data: nat, indices: Indices<F>, col: ColumnSpec<F>)
    requires i < |parts| && ColumnAt(columns, parts, i) == Some(col) && col.headerTokens != []
    ensures i + |col.headerTokens| <= |parts|
    ensures Walk(columns, parts, i, data, indices)
         == Walk(columns, parts, i + |col.headerTokens|, data + col.dataWidth,
                 if col.field.Some? then indices[col.field.value := data] else indices)
  {
  }

  lemma BatOnlyInFront(k: nat)
    requires k < |BAT_COLUMNS|
    ensures OnlyInFront(BAT_COLUMNS[k], "Coulomb")
  {
    forall o | 1 <= o < |BAT_COLUMNS[k].headerTokens|
      ensures Lower(BAT_COLUMNS[k].headerTokens[o]) != Lower("Coulomb")
    {
      BatSecondToken(k, o);
      StateIsNotCoulomb(BAT_COLUMNS[k].headerTokens[o]);
    }
  }

  lemma BatOnlyInFronts()
    ensures OnlyInFronts(LongestFirst(BAT_COLUMNS), "Coulomb")
  {
    LongestFirstKeeps(BAT_COLUMNS);
    forall c | c in LongestFirst(BAT_COLUMNS)
      ensures OnlyInFront(c, "Coulomb")
    {
      assert c in LongestFirst(BAT_COLUMNS);
      var k :| 0 <= k < |BAT_COLUMNS| && BAT_COLUMNS[k] == c;
      BatOnlyInFront(k);
    }
  }

  lemma {:induction false} StateIsNotCoulomb(t: string)
    requires |t| == 5
    ensures Lower(t) != Lower("Coulomb")
  {
    assert |Lower(t)| == 5 && |Lower("Coulomb")| == |"Coulomb"|;
  }

  lemma BatSecondToken(k: nat, o: nat)
    requires k < |BAT_COLUMNS| && 1 <= o < |BAT_COLUMNS[k].headerTokens|
    ensures BAT_COLUMNS[k].headerTokens[o] == "State"
  {
  }

  lemma CoulombStands(parts: Row, p: nat)
    requires p < |parts| && parts[p] == "Coulomb"
    ensures |BAT_COLUMNS| == 10 && BAT_COLUMNS[9].field == Some(Capacity) && StandsAt(BAT_COLUMNS[9], parts, p)
  {
    assert BAT_COLUMNS[9].headerTokens == ["Coulomb"];
    assert parts[p..p + 1] == ["Coulomb"];
  }

  /** Any header line of a bat table resolves the capacity before the header hook asks for it. */
  lemma {:induction false} BatHeaderHasCapacity(parts: Row)
    requires MatchesHeader(BatTable(), parts)
    ensures Capacity in Walk(LongestFirst(BAT_COLUMNS), parts, 0, 0, map[])
    ensures HeaderIndices(BatTable(), parts).Ok?
  {
    var p :| 0 <= p < |parts| && parts[p] == "Coulomb";
    BatSound();
    BatPrefixFree();
    BatOnlyInFronts();
    CoulombStands(parts, p);
    FindsDeclared(BAT_COLUMNS, parts, p, 9);
    WalkReaches(LongestFirst(BAT_COLUMNS), parts, 0, 0, map[], p, Capacity);
  }

  lemma {:induction false} FirstHeaderMatches<F, T>(schema: TableSchema<F, T>, lines: seq<string>)
    requires FirstHeader(schema, lines).Some?
    ensures MatchesHeader(schema, FirstHeader(schema, lines).value)
  {
    if !MatchesHeader(schema, Split(lines[0])) {
      FirstHeaderMatches(schema, lines[1..]);
    }
  }

  lemma {:induction false} BatCell(indices: Indices<BatField>, parts: Row, k: nat)
    requires k < |BAT_COLUMNS| && BAT_COLUMNS[k].field.Some? && BAT_COLUMNS[k].transform.Some?
    requires BAT_COLUMNS[k].field.value in indices && RowValues(BAT_COLUMNS, indices, parts, |BAT_COLUMNS|).Some?
    ensures var f, v := BAT_COLUMNS[k].field.value, RowValues(BAT_COLUMNS, indices, parts, |BAT_COLUMNS|).value;
            f in v && BAT_COLUMNS[k].transform.value(parts, indices[f]) == Ok(v[f])
  {
    BatSound();
    ValueIs(BAT_COLUMNS, indices, parts, |BAT_COLUMNS|, k);
  }

  lemma {:induction false} BatRowBuilds(indices: Indices<BatField>, parts: Row)
    requires forall k :: 0 <= k < |BAT_COLUMNS| ==> BAT_COLUMNS[k].field.Some? && BAT_COLUMNS[k].field.value in indices
    requires RowValues(BAT_COLUMNS, indices, parts, |BAT_COLUMNS|).Some?
    ensures BuildCellFromBatRow(RowValues(BAT_COLUMNS, indices, parts, |BAT_COLUMNS|).value).Ok?
  {
    BatCell(indices, parts, 0);
    BatCell(indices, parts, 1);
    BatCell(indices, parts, 2);
    BatCell(indices, parts, 3);
    BatCell(indices, parts, 4);
  }

  /** The bat parser raises exactly when a data row holds, as a cell's voltage, current or temperature, a number no float
      is near, with no bad cell before it on the row; and what it then raises is OverflowError. */
  lemma {:induction false} BatRaisesIff(text: string)
    ensures TableIndices(BatTable(), SplitLines(text)).Ok?
    ensures TableRows(BatTable(), text).Err?
       <==> HasHuge(BatTable(), TableIndices(BatTable(), SplitLines(text)).value, SplitLines(text), 1, 4)
    ensures TableRows(BatTable(), text).Err? ==> TableRows(BatTable(), text).error == Overflow
  {
    var schema, lines := BatTable(), SplitLines(text);
    BatSound();
    BatMilli();
    var header := FirstHeader(schema, lines);
    if header.Some? {
      FirstHeaderMatches(schema, lines);
      BatHeaderHasCapacity(header.value);
    }
    var indices := TableIndices(schema, lines).value;
    forall k | 0 <= k < |BAT_COLUMNS|
      ensures BAT_COLUMNS[k].field.Some? && BAT_COLUMNS[k].field.value in indices
    {
      IndexedAlways(schema, lines, k);
    }
    forall i | 0 <= i < |lines|
      ensures var v := RowValues(BAT_COLUMNS, indices, Split(lines[i]), |BAT_COLUMNS|);
              v.Some? ==> schema.rowFactory(v.value).Ok?
    {
      if RowValues(BAT_COLUMNS, indices, Split(lines[i]), |BAT_COLUMNS|).Some? {
        BatRowBuilds(indices, Split(lines[i]));
      }
    }
    TextRaisesIff(schema, indices, lines, 1, 4);
  }

  // A text on which both raise

  function Zeros(k: nat): string {
    if k == 0 then "" else " 0" + Zeros(k - 1)
  }

  function ZeroTokens(k: nat): (r: Row)
    ensures |r| == k
  {
    if k == 0 then [] else ["0"] + ZeroTokens(k - 1)
  }

  lemma {:induction false} ZerosSplit(k: nat)
    ensures Split(Zeros(k)) == ZeroTokens(k)
    ensures Zeros(k) == "" || IsSpace(Zeros(k)[0])
  {
    if k > 0 {
      ZerosSplit(k - 1);
      var rest := "0" + Zeros(k - 1);
      assert Zeros(k) == " " + rest;
      SplitBlank(" ", rest);
      SplitWord("0", Zeros(k - 1));
    }
  }

  lemma {:induction false} ZerosChars(k: nat)
    ensures OneLine(Zeros(k)) && 'A' !in Zeros(k)
  {
    if k > 0 {
      ZerosChars(k - 1);
    }
  }

  /** Enough tokens for a row of either table, the second of them the number. */
  function HugeRow(n: int): string {
    "1" + (" " + (IntText(n) + Zeros(11)))
  }

  lemma HugeRowSplits(n: int)
    ensures Split(HugeRow(n)) == ["1", IntText(n)] + ZeroTokens(11)
  {
    hide Split, Zeros, IntText;
    FirstOf("1", IntText(n) + Zeros(11));
    NumberAndZeros(n, 11);
    assert ["1"] + ([IntText(n)] + ZeroTokens(11)) == ["1", IntText(n)] + ZeroTokens(11);
  }

  lemma {:induction false} FirstOf(w: string, rest: string)
    requires IsWord(w)
    ensures Split(w + (" " + rest)) == [w] + Split(rest)
  {
    hide Split;
    SplitWord(w, " " + rest);
    SplitBlank(" ", rest);
  }

  lemma {:induction false} NumberAndZeros(n: int, k: nat)
    ensures Split(IntText(n) + Zeros(k)) == [IntText(n)] + ZeroTokens(k)
  {
    hide Split, Zeros, IntText;
    ZerosSplit(k);
    IntTextWord(n);
    SplitWord(IntText(n), Zeros(k));
  }

  lemma HugeRowLine(n: int)
    ensures SplitLines(HugeRow(n)) == [HugeRow(n)] && !Contains(HugeRow(n), "Absent")
  {
    hide Contains, HugeRow;
    HugeRowChars(n);
    LastLine(HugeRow(n));
    LacksNeedle(HugeRow(n), "Absent", 0);
  }

  lemma HugeRowChars(n: int)
    ensures HugeRow(n) != "" && OneLine(HugeRow(n)) && 'A' !in HugeRow(n)
  {
    hide Zeros, IntText, NatText;
    ZerosChars(11);
    IntTextChars(n);
  }

  lemma IntTextChars(n: int)
    ensures OneLine(IntText(n)) && 'A' !in IntText(n)
  {
    assert AllDigits(NatText(if n < 0 then -n else n));
  }

  lemma OneIsRead(parts: Row)
    requires parts != [] && parts[0] == "1"
    ensures RequiredInt(parts, 0) == Ok(Whole(1)) && AllDigits(parts[0])
  {
    assert IntText(1) == "1";
    IntTextReads(1);
  }

  /** Without a header, the number is where the defaults look for a voltage. */
  lemma {:induction false} HugeRowHuge<F, T>(schema: TableSchema<F, T>, n: int)
    requires BeyondFloat(n) && |IntText(n)| <= MAX_STR_DIGITS
    requires Sound(schema.columns) && |schema.columns| >= 2 && schema.headerFirstToken != "1"
    requires forall k :: 0 <= k < 2 ==>
               schema.columns[k].field.Some? && schema.columns[k].defaultIndex == Some(k) && schema.columns[k].transform.Some?
    requires schema.columns[0].transform == Some(RequiredInt)
    requires IsRow(schema, Defaults(schema.columns, |schema.columns|), HugeRow(n))
    ensures TableIndices(schema, SplitLines(HugeRow(n))).Ok?
    ensures HasHuge(schema, TableIndices(schema, SplitLines(HugeRow(n))).value, SplitLines(HugeRow(n)), 1, 2)
  {
    hide Sound, IsRow, Split, SplitLines, HugeAt, HugeRow, Defaults, TableIndices;
    var line := HugeRow(n);
    HugeRowSplits(n);
    HugeRowLine(n);
    NoHeaderDefaults(schema, line);
    DefaultsHave(schema.columns, |schema.columns|, 0);
    DefaultsHave(schema.columns, |schema.columns|, 1);
    var indices := Defaults(schema.columns, |schema.columns|);
    SecondIsHuge(schema, indices, line, n);
    assert HugeIn(schema, indices, [line][0], 1, 2);
  }

  lemma {:induction false} NoHeaderDefaults<F, T>(schema: TableSchema<F, T>, line: string)
    requires Split(line) != [] && Split(line)[0] != schema.headerFirstToken
    ensures TableIndices(schema, [line]) == Ok(Defaults(schema.columns, |schema.columns|))
  {
    hide Defaults, Split;
    assert FirstHeader(schema, [line]).None?;
  }

  lemma {:induction false} SecondIsHuge<F, T>(schema: TableSchema<F, T>, indices: Indices<F>, line: string, n: int)
    requires BeyondFloat(n) && |IntText(n)| <= MAX_STR_DIGITS
    requires |schema.columns| >= 2 && IsRow(schema, indices, line)
    requires |Split(line)| >= 2 && Split(line)[0] == "1" && Split(line)[1] == IntText(n)
    requires forall k :: 0 <= k < 2 ==> CellRead(schema.columns, indices, k) && indices[schema.columns[k].field.value] == k
    requires schema.columns[0].transform == Some(RequiredInt)
    ensures HugeAt(schema, indices, line, 1)
  {
    hide IsRow, Split, IntText;
    IntTextReads(n);
    OneIsRead(Split(line));
    assert CellPasses(schema.columns, indices, Split(line), 0);
  }

  lemma HasHugeWider<F, T>(schema: TableSchema<F, T>, indices: Indices<F>, lines: seq<string>, high: nat)
    requires 2 <= high <= |schema.columns| && HasHuge(schema, indices, lines, 1, 2)
    ensures HasHuge(schema, indices, lines, 1, high)
  {
    var i :| 0 <= i < |lines| && HugeIn(schema, indices, lines[i], 1, 2);
    var k :| 1 <= k < 2 && HugeAt(schema, indices, lines[i], k);
    assert HugeIn(schema, indices, lines[i], 1, high);
  }

  lemma PwrHugeRow(n: int)
    requires BeyondFloat(n) && |IntText(n)| <= MAX_STR_DIGITS
    ensures TableRows(PwrTable(), HugeRow(n)) == Err(Overflow)
  {
    hide HugeRow, Sound;
    var line := HugeRow(n);
    HugeRowSplits(n);
    HugeRowLine(n);
    OneIsRead(Split(line));
    PwrSound();
    HugeRowHuge(PwrTable(), n);
    PwrRaisesIff(line);
    HasHugeWider(PwrTable(), TableIndices(PwrTable(), SplitLines(line)).value, SplitLines(line), 8);
  }

  lemma BatHugeRow(n: int)
    requires BeyondFloat(n) && |IntText(n)| <= MAX_STR_DIGITS
    ensures TableRows(BatTable(), HugeRow(n)) == Err(Overflow)
  {
    var line := HugeRow(n);
    HugeRowSplits(n);
    OneIsRead(Split(line));
    BatSound();
    BatDefaultRow(line);
    HugeRowHuge(BatTable(), n);
    BatRaisesIff(line);
    HasHugeWider(BatTable(), TableIndices(BatTable(), SplitLines(line)).value, SplitLines(line), 4);
  }

  /** Without a header, a bat row needs nine tokens. */
  lemma {:induction false} BatDefaultRow(line: string)
    requires |Split(line)| >= 9 && AllDigits(Split(line)[0])
    ensures IsRow(BatTable(), Defaults(BAT_COLUMNS, |BAT_COLUMNS|), line)
  {
    BatSound();
    DefaultsHave(BAT_COLUMNS, |BAT_COLUMNS|, 8);
  }

  /** There is such a text: the smallest number that is too large, as a voltage, takes the whole response with it. */
  lemma HugeVoltageRaises()
    ensures TableRows(PwrTable(), HugeRow(FLOAT_LIMIT)) == Err(Overflow)
    ensures TableRows(BatTable(), HugeRow(FLOAT_LIMIT)) == Err(Overflow)
  {
    LimitIsRead();
    PwrHugeRow(FLOAT_LIMIT);
    BatHugeRow(FLOAT_LIMIT);
  }

  // Columns a header leaves out

  /** A column that the header does not have is read from its default place. */
  lemma {:induction false} MissingColumnDefaults<F(!new)>(columns: seq<ColumnSpec<F>>, items: seq<Item>, parts: Row, k: nat)
    requires Sound(columns) && PrefixFree(columns) && Arranged(columns, items, parts, 0) && OnceEach(items)
    requires AllInSchema(columns, items) && k < |columns| && Declared(k) !in items
    requires columns[k].field.Some? && columns[k].defaultIndex.Some?
    ensures var f, found := columns[k].field.value, IndicesOver(columns, parts);
            f in found && found[f] == columns[k].defaultIndex.value
  {
    var f := columns[k].field.value;
    WalkIs(columns, items, parts, 0, 0, map[]);
    forall j | 0 <= j < |items| && items[j].Declared?
      ensures columns[items[j].column].field != Some(f)
    {
      assert items[j] in items;
    }
    PlacedKeeps(columns, items, 0, map[], f);
    DefaultsHave(columns, |columns|, k);
  }

  /** Place p of the row whose items hold the blocks is in the block of item j. */
  predicate Within(blocks: seq<Row>, j: nat, p: nat)
    requires j < |blocks|
  {
    |Flatten(blocks[..j])| <= p < |Flatten(blocks[..j])| + |blocks[j]|
  }

  /** It is then read from another column exactly when the header puts that column there: item j gives the token if and
      only if the default place is one of the places its data takes. */
  lemma {:induction false} MissingColumnReadsAnother<F(!new)>(
    columns: seq<ColumnSpec<F>>, items: seq<Item>, parts: Row, blocks: seq<Row>, k: nat, j: nat)
    requires Sound(columns) && PrefixFree(columns) && Arranged(columns, items, parts, 0) && OnceEach(items)
    requires BlocksFit(columns, items, blocks) && k < |columns| && Declared(k) !in items
    requires columns[k].field.Some? && columns[k].defaultIndex.Some? && j < |items|
    ensures var f, found := columns[k].field.value, IndicesOver(columns, parts);
            && f in found
            && (Within(blocks, j, found[f]) <==>
                  var p := Position(columns, items, j);
                  p <= columns[k].defaultIndex.value < p + DataWidth(columns, items[j]))
            && (Within(blocks, j, found[f]) ==>
                  found[f] < |Flatten(blocks)|
                  && Flatten(blocks)[found[f]] == blocks[j][found[f] - |Flatten(blocks[..j])|])
  {
    MissingColumnDefaults(columns, items, parts, k);
    WithinIff(columns, items, blocks, j, columns[k].defaultIndex.value);
  }

  lemma {:induction false} WithinIff<F>(columns: seq<ColumnSpec<F>>, items: seq<Item>, blocks: seq<Row>, j: nat, d: nat)
    requires BlocksFit(columns, items, blocks) && j < |items|
    ensures var p := Position(columns, items, j);
            && (Within(blocks, j, d) <==> p <= d < p + DataWidth(columns, items[j]))
            && (Within(blocks, j, d) ==> d < |Flatten(blocks)| && Flatten(blocks)[d] == blocks[j][d - |Flatten(blocks[..j])|])
  {
    FlattenLength(columns, items, blocks, j);
    if Within(blocks, j, d) {
      FlattenWithin(columns, items, blocks, j, d);
    }
  }

  lemma {:induction false} FlattenWithin<F>(columns: seq<ColumnSpec<F>>, items: seq<Item>, blocks: seq<Row>, j: nat, p: nat)
    requires BlocksFit(columns, items, blocks) && j < |items|
    requires Position(columns, items, j) <= p < Position(columns, items, j) + DataWidth(columns, items[j])
    ensures p < |Flatten(blocks)| && Flatten(blocks)[p] == blocks[j][p - Position(columns, items, j)]
    decreases |items|
  {
    var n := |items| - 1;
    FlattenLength(columns, items, blocks, n);
    if j < n {
      PositionPrefix(columns, items, n, j);
      FlattenWithin(columns, items[..n], blocks[..n], j, p);
    }
  }
}
