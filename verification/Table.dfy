/** The table engine of src/parser.py. Field names are the values of a type F, one per key of the source's dicts. */
module Table {
  import opened Wrappers
  import opened Text

  type Row = seq<string>

  /** What a cell transform returns; Absent is None. */
  datatype Value = Whole(n: int) | Decimal(x: real) | Word(s: string) | Absent

  /** What a transform raises: ValueError or IndexError, which skip the row, or OverflowError, which nothing in the parser
      catches. */
  datatype CellError = BadNumber | OutOfRange | TooLarge

  type Transform = (Row, nat) -> Result<Value, CellError>

  // The cell transforms

  function IntCell(s: string): Result<Value, CellError> {
    match ParseInt(s)
    case None => Err(BadNumber)
    case Some(n) => Ok(Whole(n))
  }

  function MilliCell(s: string): Result<Value, CellError> {
    match ParseInt(s)
    case None => Err(BadNumber)
    case Some(n) => if BeyondFloat(n) then Err(TooLarge) else Ok(Decimal(n as real / 1000.0))
  }

  /** s.replace("%", "") */
  function WithoutPercent(s: string): string {
    if s == "" then "" else (if s[0] == '%' then "" else [s[0]]) + WithoutPercent(s[1..])
  }

  function RequiredInt(parts: Row, idx: nat): Result<Value, CellError> {
    if idx < |parts| then IntCell(parts[idx]) else Err(OutOfRange)
  }

  function RequiredMilli(parts: Row, idx: nat): Result<Value, CellError> {
    if idx < |parts| then MilliCell(parts[idx]) else Err(OutOfRange)
  }

  function RequiredStr(parts: Row, idx: nat): Result<Value, CellError> {
    if idx < |parts| then Ok(Word(parts[idx])) else Err(OutOfRange)
  }

  function RequiredPercentInt(parts: Row, idx: nat): Result<Value, CellError> {
    if idx < |parts| then IntCell(WithoutPercent(parts[idx])) else Err(OutOfRange)
  }

  function OptionalMilli(parts: Row, idx: nat): Result<Value, CellError> {
    if |parts| <= idx || parts[idx] == "-" then Ok(Absent) else MilliCell(parts[idx])
  }

  function OptionalStatus(parts: Row, idx: nat): Result<Value, CellError> {
    if |parts| <= idx then Ok(Absent)
    else
      var v := Strip(parts[idx]);
      Ok(if v != "-" then Word(v) else Absent)
  }

  function OptionalStrByBounds(parts: Row, idx: nat): Result<Value, CellError> {
    Ok(if |parts| > idx then Word(parts[idx]) else Absent)
  }

  function OptionalIntByBounds(parts: Row, idx: nat): Result<Value, CellError> {
    if |parts| > idx then IntCell(parts[idx]) else Ok(Absent)
  }

  function PercentIntOrZero(parts: Row, idx: nat): Result<Value, CellError> {
    if |parts| > idx then IntCell(WithoutPercent(parts[idx])) else Ok(Whole(0))
  }

  // Schemas

  datatype ColumnSpec<F> = ColumnSpec(
    headerTokens: Row, dataWidth: nat, field: Option<F>, defaultIndex: Option<nat>, transform: Option<Transform>)

  /** What gets out of the parser: what a row factory or a header hook raises when a key is missing from its dict, or
      holds no number, and the OverflowError of a number no float is near. */
  datatype Fault<F> = MissingKey(key: F) | WrongType(key: F) | Overflow

  type Indices<F> = map<F, nat>

  datatype TableSchema<!F, !T> = TableSchema(
    headerFirstToken: string,
    headerMustContain: string,
    columns: seq<ColumnSpec<F>>,
    isDataRow: Row -> bool,
    rowFactory: map<F, Value> -> Result<T, Fault<F>>,
    skipRow: string -> bool,
    minIndexField: Option<F>,
    headerPostprocess: (Indices<F>, Row) -> Result<Indices<F>, Fault<F>>)

  /** No two columns fill the same field, and every column has a header to look for. */
  predicate Sound<F(==)>(columns: seq<ColumnSpec<F>>) {
    && (forall i :: 0 <= i < |columns| ==> columns[i].headerTokens != [])
    && (forall i, j :: 0 <= i < j < |columns| && columns[i].field.Some? ==> columns[i].field != columns[j].field)
  }

  // Headers

  predicate MatchesHeader<F, T>(schema: TableSchema<F, T>, parts: Row) {
    parts != [] && parts[0] == schema.headerFirstToken && schema.headerMustContain in parts
  }

  function LowerAll(parts: Row): (r: Row)
    ensures |r| == |parts|
    ensures forall i :: 0 <= i < |parts| ==> r[i] == Lower(parts[i])
  {
    if parts == [] then [] else [Lower(parts[0])] + LowerAll(parts[1..])
  }

  /** The column's header stands at position i of a header line. */
  predicate StandsAt<F>(col: ColumnSpec<F>, parts: Row, i: nat)
    requires i <= |parts|
  {
    var w := |col.headerTokens|;
    i + w <= |parts| && LowerAll(parts[i..i + w]) == LowerAll(col.headerTokens)
  }

  /** The columns longest header first; columns of equal length keep their order. */
  function LongestFirst<F>(columns: seq<ColumnSpec<F>>): seq<ColumnSpec<F>> {
    if columns == [] then [] else InsertByLength(columns[0], LongestFirst(columns[1..]))
  }

  function InsertByLength<F>(col: ColumnSpec<F>, sorted: seq<ColumnSpec<F>>): seq<ColumnSpec<F>> {
    if sorted == [] || |col.headerTokens| >= |sorted[0].headerTokens| then [col] + sorted
    else [sorted[0]] + InsertByLength(col, sorted[1..])
  }

  /** The first of the columns that stands at position i. */
  function ColumnAt<F>(columns: seq<ColumnSpec<F>>, parts: Row, i: nat): (c: Option<ColumnSpec<F>>)
    requires i <= |parts|
    ensures c.Some? ==> StandsAt(c.value, parts, i)
  {
    if columns == [] then None
    else if StandsAt(columns[0], parts, i) then Some(columns[0])
    else ColumnAt(columns[1..], parts, i)
  }

  /** The header walk from position i, with data the number of data tokens before it. */
  function Walk<F>(columns: seq<ColumnSpec<F>>, parts: Row, i: nat, data: nat, indices: Indices<F>): Indices<F>
    requires i <= |parts|
    decreases |parts| - i
  {
    if i == |parts| then indices
    else
      match ColumnAt(columns, parts, i)
      case None => Walk(columns, parts, i + 1, data + 1, indices)
      case Some(col) =>
        var next := if col.field.Some? then indices[col.field.value := data] else indices;
        if col.headerTokens == [] then next
        else Walk(columns, parts, i + |col.headerTokens|, data + col.dataWidth, next)
  }

  function HeaderIndices<F, T>(schema: TableSchema<F, T>, parts: Row): Result<Indices<F>, Fault<F>> {
    schema.headerPostprocess(Walk(LongestFirst(schema.columns), parts, 0, 0, map[]), parts)
  }

  /** The default indices of the first n columns. */
  function Defaults<F>(columns: seq<ColumnSpec<F>>, n: nat): Indices<F>
    requires n <= |columns|
  {
    if n == 0 then map[]
    else
      var col := columns[n - 1];
      if col.field.Some? && col.defaultIndex.Some?
      then Defaults(columns, n - 1)[col.field.value := col.defaultIndex.value]
      else Defaults(columns, n - 1)
  }

  /** The tokens of the first header line among the lines. */
  function FirstHeader<F, T>(schema: TableSchema<F, T>, lines: seq<string>): Option<Row> {
    if lines == [] then None
    else if MatchesHeader(schema, Split(lines[0])) then Some(Split(lines[0]))
    else FirstHeader(schema, lines[1..])
  }

  function TableIndices<F, T>(schema: TableSchema<F, T>, lines: seq<string>): Result<Indices<F>, Fault<F>> {
    var defaults := Defaults(schema.columns, |schema.columns|);
    match FirstHeader(schema, lines)
    case None => Ok(defaults)
    case Some(parts) =>
      match HeaderIndices(schema, parts)
      case Err(fault) => Err(fault)
      case Ok(found) => Ok(defaults + found)
  }

  // Rows

  /** The fields of the first n columns of one row; None when a transform raised. */
  function RowValues<F>(columns: seq<ColumnSpec<F>>, indices: Indices<F>, parts: Row, n: nat): Option<map<F, Value>>
    requires n <= |columns|
  {
    if n == 0 then Some(map[])
    else
      var before, col := RowValues(columns, indices, parts, n - 1), columns[n - 1];
      if before.None? || col.field.None? || col.transform.None? || col.field.value !in indices then before
      else
        match col.transform.value(parts, indices[col.field.value])
        case Err(_) => None
        case Ok(v) => Some(before.value[col.field.value := v])
  }

  /** The first transform to raise, among the first n columns, raised OverflowError. */
  predicate RowOverflows<F>(columns: seq<ColumnSpec<F>>, indices: Indices<F>, parts: Row, n: nat)
    requires n <= |columns|
  {
    n > 0
    && if RowValues(columns, indices, parts, n - 1).None? then RowOverflows(columns, indices, parts, n - 1)
       else
         var col := columns[n - 1];
         col.field.Some? && col.transform.Some? && col.field.value in indices
         && col.transform.value(parts, indices[col.field.value]) == Err(TooLarge)
  }

  /** One line is no data row, or is dropped, or yields an object, or its factory raises. */
  datatype LineResult<F, T> = NoRow | Built(row: T) | Raised(fault: Fault<F>)

  predicate IsRow<F, T>(schema: TableSchema<F, T>, indices: Indices<F>, line: string) {
    var parts := Split(line);
    && schema.isDataRow(parts)
    && !schema.skipRow(line)
    && (schema.minIndexField.Some? && schema.minIndexField.value in indices
        ==> |parts| >= indices[schema.minIndexField.value] + 1)
  }

  function LineRow<F, T>(schema: TableSchema<F, T>, indices: Indices<F>, line: string): LineResult<F, T> {
    if !IsRow(schema, indices, line) then NoRow
    else
      match RowValues(schema.columns, indices, Split(line), |schema.columns|)
      case None => if RowOverflows(schema.columns, indices, Split(line), |schema.columns|) then Raised(Overflow) else NoRow
      case Some(values) =>
        match schema.rowFactory(values)
        case Ok(row) => Built(row)
        case Err(fault) => Raised(fault)
  }

  function LinesRows<F, T>(schema: TableSchema<F, T>, indices: Indices<F>, lines: seq<string>): Result<seq<T>, Fault<F>> {
    if lines == [] then Ok([])
    else
      match LineRow(schema, indices, lines[0])
      case Raised(fault) => Err(fault)
      case NoRow => LinesRows(schema, indices, lines[1..])
      case Built(row) =>
        match LinesRows(schema, indices, lines[1..])
        case Err(fault) => Err(fault)
        case Ok(rows) => Ok([row] + rows)
  }

  /** The rows of a text. */
  function TableRows<F, T>(schema: TableSchema<F, T>, text: string): Result<seq<T>, Fault<F>> {
    var lines := SplitLines(text);
    match TableIndices(schema, lines)
    case Err(fault) => Err(fault)
    case Ok(indices) => LinesRows(schema, indices, lines)
  }

  predicate HasHeader<F, T>(schema: TableSchema<F, T>, text: string) {
    FirstHeader(schema, SplitLines(text)).Some?
  }

  // The loops

  /** _resolve_indices */
  method ResolveIndices<F(!new), T>(schema: TableSchema<F, T>, parts: Row) returns (r: Result<Indices<F>, Fault<F>>)
    requires Sound(schema.columns)
    ensures r == HeaderIndices(schema, parts)
  {
    LongestFirstSound(schema.columns);
    var indices := WalkHeader(LongestFirst(schema.columns), parts);
    r := schema.headerPostprocess(indices, parts);
  }

  /** Its outer loop, over the header tokens. */
  method WalkHeader<F>(columns: seq<ColumnSpec<F>>, parts: Row) returns (indices: Indices<F>)
    requires forall c :: c in columns ==> c.headerTokens != []
    ensures indices == Walk(columns, parts, 0, 0, map[])
  {
    indices := map[];
    var hdr, data: nat := 0, 0;
    while hdr < |parts|
      invariant hdr <= |parts|
      invariant Walk(columns, parts, hdr, data, indices) == Walk(columns, parts, 0, 0, map[])
      decreases |parts| - hdr
    {
      var found := FindColumn(columns, parts, hdr);
      if found.Some? {
        var col := found.value;
        if col.field.Some? {
          indices := indices[col.field.value := data];
        }
        hdr := hdr + |col.headerTokens|;
        data := data + col.dataWidth;
      } else {
        hdr := hdr + 1;
        data := data + 1;
      }
    }
  }

  /** The inner loop of _resolve_indices: the first column that matches at position hdr. */
  method FindColumn<F>(columns: seq<ColumnSpec<F>>, parts: Row, hdr: nat) returns (c: Option<ColumnSpec<F>>)
    requires hdr <= |parts|
    ensures c == ColumnAt(columns, parts, hdr)
    ensures c.Some? ==> c.value in columns
  {
    var k := 0;
    while k < |columns|
      invariant 0 <= k <= |columns|
      invariant ColumnAt(columns, parts, hdr) == ColumnAt(columns[k..], parts, hdr)
    {
      if StandsAt(columns[k], parts, hdr) {
        return Some(columns[k]);
      }
      assert columns[k..][1..] == columns[k + 1..];
      k := k + 1;
    }
    c := None;
  }

  lemma {:induction false} LongestFirstKeeps<F(!new)>(columns: seq<ColumnSpec<F>>)
    ensures forall c :: c in LongestFirst(columns) <==> c in columns
  {
    if columns != [] {
      LongestFirstKeeps(columns[1..]);
      InsertKeeps(columns[0], LongestFirst(columns[1..]));
      assert columns == [columns[0]] + columns[1..];
    }
  }

  lemma {:induction false} LongestFirstSound<F(!new)>(columns: seq<ColumnSpec<F>>)
    requires Sound(columns)
    ensures forall c :: c in LongestFirst(columns) ==> c.headerTokens != []
  {
    LongestFirstKeeps(columns);
    forall c | c in LongestFirst(columns)
      ensures c.headerTokens != []
    {
      assert c in LongestFirst(columns);
      assert c in columns;
      var i :| 0 <= i < |columns| && columns[i] == c;
    }
  }

  lemma {:induction false} InsertKeeps<F(!new)>(col: ColumnSpec<F>, sorted: seq<ColumnSpec<F>>)
    ensures forall c :: c in InsertByLength(col, sorted) <==> c == col || c in sorted
  {
    if sorted != [] && |col.headerTokens| < |sorted[0].headerTokens| {
      InsertKeeps(col, sorted[1..]);
      assert sorted == [sorted[0]] + sorted[1..];
    }
  }

  method DefaultIndices<F>(columns: seq<ColumnSpec<F>>) returns (indices: Indices<F>)
    ensures indices == Defaults(columns, |columns|)
  {
    indices := map[];
    for n := 0 to |columns|
      invariant indices == Defaults(columns, n)
    {
      var col := columns[n];
      if col.field.Some? && col.defaultIndex.Some? {
        indices := indices[col.field.value := col.defaultIndex.value];
      }
    }
  }

  /** The cells of one row; None when a transform raised, and whether that was an OverflowError. */
  method ReadCells<F>(columns: seq<ColumnSpec<F>>, indices: Indices<F>, parts: Row)
    returns (r: Option<map<F, Value>>, overflow: bool)
    ensures r == RowValues(columns, indices, parts, |columns|)
    ensures overflow == (r.None? && RowOverflows(columns, indices, parts, |columns|))
  {
    var values: map<F, Value> := map[];
    for n := 0 to |columns|
      invariant RowValues(columns, indices, parts, n) == Some(values)
    {
      var col := columns[n];
      if col.field.Some? && col.transform.Some? && col.field.value in indices {
        var cell := col.transform.value(parts, indices[col.field.value]);
        if cell.Err? {
          RowValuesFail(columns, indices, parts, n + 1, |columns|);
          return None, cell.error == TooLarge;
        }
        values := values[col.field.value := cell.value];
      }
    }
    r, overflow := Some(values), false;
  }

  lemma {:induction false} RowValuesFail<F>(columns: seq<ColumnSpec<F>>, indices: Indices<F>, parts: Row, n: nat, m: nat)
    requires n <= m <= |columns| && RowValues(columns, indices, parts, n).None?
    ensures RowValues(columns, indices, parts, m).None?
    ensures RowOverflows(columns, indices, parts, m) == RowOverflows(columns, indices, parts, n)
  {
    if n < m {
      RowValuesFail(columns, indices, parts, n, m - 1);
    }
  }

  /** The first loop of parse_table: default indices, then those of the first header line. */
  method FindIndices<F(!new), T>(schema: TableSchema<F, T>, lines: seq<string>) returns (r: Result<Indices<F>, Fault<F>>)
    requires Sound(schema.columns)
    ensures r == TableIndices(schema, lines)
  {
    var indices := DefaultIndices(schema.columns);
    var i := 0;
    while i < |lines|
      invariant 0 <= i <= |lines|
      invariant FirstHeader(schema, lines) == FirstHeader(schema, lines[i..])
    {
      var parts := Split(lines[i]);
      if MatchesHeader(schema, parts) {
        var found := ResolveIndices(schema, parts);
        match found {
          case Err(fault) => return Err(fault);
          case Ok(m) => return Ok(indices + m);
        }
      }
      assert lines[i..][1..] == lines[i + 1..];
      i := i + 1;
    }
    r := Ok(indices);
  }

  /** parse_table */
  method ParseTable<F(!new), T>(text: string, schema: TableSchema<F, T>) returns (r: Result<seq<T>, Fault<F>>)
    requires Sound(schema.columns)
    ensures r == TableRows(schema, text)
  {
    var lines := SplitLines(text);
    var found := FindIndices(schema, lines);
    if found.Err? {
      return Err(found.error);
    }
    r := ParseRows(schema, found.value, lines);
  }

  /** The second loop of parse_table. */
  method ParseRows<F, T>(schema: TableSchema<F, T>, indices: Indices<F>, lines: seq<string>)
    returns (r: Result<seq<T>, Fault<F>>)
    ensures r == LinesRows(schema, indices, lines)
  {
    var rows: seq<T> := [];
    var i := 0;
    PrependedNothing(LinesRows(schema, indices, lines));
    while i < |lines|
      invariant 0 <= i <= |lines|
      invariant LinesRows(schema, indices, lines) == Prepended(rows, LinesRows(schema, indices, lines[i..]))
    {
      LinesStep(schema, indices, lines, i, rows);
      if IsRow(schema, indices, lines[i]) {
        var values, overflow := ReadCells(schema.columns, indices, Split(lines[i]));
        if overflow {
          return Err(Overflow);
        }
        if values.Some? {
          var built := schema.rowFactory(values.value);
          if built.Err? {
            return Err(built.error);
          }
          rows := rows + [built.value];
        }
      }
      i := i + 1;
    }
    assert rows + [] == rows;
    r := Ok(rows);
  }

  lemma PrependedNothing<F, T>(rest: Result<seq<T>, Fault<F>>)
    ensures Prepended([], rest) == rest
  {
    if rest.Ok? {
      assert [] + rest.value == rest.value;
    }
  }

  /** What line i does to the rows found before it. */
  lemma {:induction false} LinesStep<F, T>(schema: TableSchema<F, T>, indices: Indices<F>, lines: seq<string>, i: nat, rows: seq<T>)
    requires i < |lines|
    ensures var here, after := LinesRows(schema, indices, lines[i..]), LinesRows(schema, indices, lines[i + 1..]);
            match LineRow(schema, indices, lines[i])
            case NoRow => here == after
            case Built(row) => Prepended(rows, here) == Prepended(rows + [row], after)
            case Raised(fault) => here == Err(fault)
  {
    assert lines[i..][0] == lines[i] && lines[i..][1..] == lines[i + 1..];
    var line, after := LineRow(schema, indices, lines[i]), LinesRows(schema, indices, lines[i + 1..]);
    if line.Built? && after.Ok? {
      assert rows + ([line.row] + after.value) == rows + [line.row] + after.value;
    }
  }

  function Prepended<F, T>(rows: seq<T>, rest: Result<seq<T>, Fault<F>>): Result<seq<T>, Fault<F>> {
    match rest
    case Err(fault) => Err(fault)
    case Ok(more) => Ok(rows + more)
  }
}