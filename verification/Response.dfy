/** Parsing a table response: whatever its lines give on their own, in order. */
module Response {
  import opened Wrappers
  import opened Text
  import opened Table
  import opened Stub
  import opened Rendering

  lemma {:induction false} LinesAppend<F, T>(schema: TableSchema<F, T>, indices: Indices<F>, a: seq<string>, c: seq<string>)
    requires LinesRows(schema, indices, a).Ok? && LinesRows(schema, indices, c).Ok?
    ensures LinesRows(schema, indices, a + c)
         == Ok(LinesRows(schema, indices, a).value + LinesRows(schema, indices, c).value)
  {
    if a == [] {
      assert a + c == c;
      var rows := LinesRows(schema, indices, c).value;
      assert [] + rows == rows;
    } else {
      assert (a + c)[0] == a[0] && (a + c)[1..] == a[1..] + c;
      LinesAppend(schema, indices, a[1..], c);
      var here, more := LineRow(schema, indices, a[0]), LinesRows(schema, indices, a[1..]);
      if here.Built? {
        assert [here.row] + (more.value + LinesRows(schema, indices, c).value)
            == ([here.row] + more.value) + LinesRows(schema, indices, c).value;
      }
    }
  }

  lemma {:induction false} NoRows<F, T>(schema: TableSchema<F, T>, indices: Indices<F>, lines: seq<string>)
    requires forall i :: 0 <= i < |lines| ==> LineRow(schema, indices, lines[i]) == NoRow
    ensures LinesRows(schema, indices, lines) == Ok([])
  {
    if lines != [] {
      NoRows(schema, indices, lines[1..]);
    }
  }

  // Lines that are no rows

  /** Data rows begin with a number. */
  ghost predicate NumberFirst<F, T>(schema: TableSchema<F, T>) {
    forall parts: Row :: schema.isDataRow(parts) ==> parts != [] && AllDigits(parts[0])
  }

  /** A line that starts with neither a blank nor a digit. */
  predicate Quiet(line: string) {
    line == "" || (!IsSpace(line[0]) && !IsDigit(line[0]))
  }

  lemma {:induction false} QuietStart(fields: seq<Field>, start: string)
    requires fields != [] && fields[0].value == start && start != "" && !IsSpace(start[0]) && !IsDigit(start[0])
    ensures Quiet(Render(fields))
  {
    RenderStarts(fields);
  }

  lemma {:induction false} FirstToken(line: string)
    requires line != "" && !IsSpace(line[0])
    ensures Split(line) != [] && Split(line)[0] != "" && Split(line)[0][0] == line[0]
  {
    assert LeftStrip(line) == line;
  }

  lemma QuietLine<F, T>(schema: TableSchema<F, T>, indices: Indices<F>, line: string)
    requires NumberFirst(schema) && Quiet(line)
    ensures LineRow(schema, indices, line) == NoRow
  {
    if line != "" {
      FirstToken(line);
    }
  }

  lemma {:induction false} NotHeader<F, T>(schema: TableSchema<F, T>, line: string)
    requires Quiet(line) && schema.headerFirstToken != "" && (line == "" || line[0] != schema.headerFirstToken[0])
    ensures !MatchesHeader(schema, Split(line))
  {
    if line != "" {
      FirstToken(line);
    }
  }

  lemma {:induction false} FirstHeaderAfter<F, T>(schema: TableSchema<F, T>, before: seq<string>, header: string, rest: seq<string>)
    requires forall i :: 0 <= i < |before| ==> !MatchesHeader(schema, Split(before[i]))
    requires MatchesHeader(schema, Split(header))
    ensures FirstHeader(schema, before + ([header] + rest)) == Some(Split(header))
  {
    var lines := before + ([header] + rest);
    if before == [] {
      assert lines[0] == header;
    } else {
      assert lines[0] == before[0] && lines[1..] == before[1..] + ([header] + rest);
      assert !MatchesHeader(schema, Split(lines[0]));
      FirstHeaderAfter(schema, before[1..], header, rest);
    }
  }

  // Printed rows

  function RowOf<F, T>(r: LineResult<F, T>): seq<T> {
    if r.Built? then [r.row] else []
  }

  lemma {:induction false} TwoLines<F, T>(schema: TableSchema<F, T>, indices: Indices<F>, line: string, gap: string)
    requires !LineRow(schema, indices, line).Raised? && LineRow(schema, indices, gap) == NoRow
    ensures LinesRows(schema, indices, [line, gap]) == Ok(RowOf(LineRow(schema, indices, line)))
  {
    NoRows(schema, indices, [gap]);
    assert [line, gap][1..] == [gap];
    var here := LineRow(schema, indices, line);
    assert here.Built? ==> [here.row] + [] == [here.row];
  }

  /** One more printed row, and the empty line after it. */
  lemma {:induction false} SpreadStep<F, T>(schema: TableSchema<F, T>, indices: Indices<F>, rows: seq<string>, before: seq<T>)
    requires rows != [] && LinesRows(schema, indices, Spread(rows[..|rows| - 1])) == Ok(before)
    requires !LineRow(schema, indices, rows[|rows| - 1]).Raised? && LineRow(schema, indices, "") == NoRow
    ensures LinesRows(schema, indices, Spread(rows)) == Ok(before + RowOf(LineRow(schema, indices, rows[|rows| - 1])))
  {
    var line := rows[|rows| - 1];
    TwoLines(schema, indices, line, "");
    LinesAppend(schema, indices, Spread(rows[..|rows| - 1]), [line, ""]);
  }

  function Collected<F, T>(results: seq<LineResult<F, T>>): seq<T> {
    if results == [] then [] else Collected(results[..|results| - 1]) + RowOf(results[|results| - 1])
  }

  /** Each line gives its result, and none raises. */
  predicate Give<F(==), T(==)>(schema: TableSchema<F, T>, indices: Indices<F>, rows: seq<string>, results: seq<LineResult<F, T>>) {
    |rows| == |results|
    && forall i :: 0 <= i < |rows| ==> !results[i].Raised? && LineRow(schema, indices, rows[i]) == results[i]
  }

  lemma {:induction false} SpreadRows<F, T>(
    schema: TableSchema<F, T>, indices: Indices<F>, rows: seq<string>, results: seq<LineResult<F, T>>)
    requires LineRow(schema, indices, "") == NoRow && Give(schema, indices, rows, results)
    ensures LinesRows(schema, indices, Spread(rows)) == Ok(Collected(results))
  {
    if rows != [] {
      var n := |rows| - 1;
      SpreadRows(schema, indices, rows[..n], results[..n]);
      SpreadStep(schema, indices, rows, Collected(results[..n]));
    }
  }

  lemma {:induction false} BodyRows<F, T>(
    schema: TableSchema<F, T>, indices: Indices<F>, rows: seq<string>, results: seq<LineResult<F, T>>)
    requires LineRow(schema, indices, "") == NoRow && Give(schema, indices, rows, results)
    ensures LinesRows(schema, indices, Spread(if rows == [] then [""] else rows)) == Ok(Collected(results))
  {
    if rows == [] {
      SpreadFront([""]);
      assert [""][1..] == [] && Spread([]) == [];
      NoRows(schema, indices, ["", ""]);
    } else {
      SpreadRows(schema, indices, rows, results);
    }
  }

  // The envelope

  /** A command echo that no row and no header of the table can be taken for. */
  predicate Echo<F, T>(schema: TableSchema<F, T>, cmd: string) {
    && OneLine(cmd) && cmd != "" && Quiet(cmd)
    && schema.headerFirstToken != ""
    && schema.headerFirstToken[0] != cmd[0] && schema.headerFirstToken[0] != '@'
  }

  lemma FrontLine<F, T>(schema: TableSchema<F, T>, cmd: string, i: nat)
    requires Echo(schema, cmd) && i < |FrontOf(cmd)|
    ensures Quiet(FrontOf(cmd)[i]) && !MatchesHeader(schema, Split(FrontOf(cmd)[i]))
  {
    NotHeader(schema, FrontOf(cmd)[i]);
  }

  lemma TailQuiet(i: nat)
    requires i < |TAIL_LINES|
    ensures Quiet(TAIL_LINES[i])
  {
  }

  lemma {:induction false} FrontRows<F, T>(schema: TableSchema<F, T>, indices: Indices<F>, cmd: string)
    requires NumberFirst(schema) && Echo(schema, cmd)
    ensures LinesRows(schema, indices, FrontOf(cmd)) == Ok([])
  {
    forall i | 0 <= i < |FrontOf(cmd)|
      ensures LineRow(schema, indices, FrontOf(cmd)[i]) == NoRow
    {
      FrontLine(schema, cmd, i);
      QuietLine(schema, indices, FrontOf(cmd)[i]);
    }
    NoRows(schema, indices, FrontOf(cmd));
  }

  lemma {:induction false} TailRows<F, T>(schema: TableSchema<F, T>, indices: Indices<F>)
    requires NumberFirst(schema)
    ensures LinesRows(schema, indices, TAIL_LINES) == Ok([])
  {
    forall i | 0 <= i < |TAIL_LINES|
      ensures LineRow(schema, indices, TAIL_LINES[i]) == NoRow
    {
      TailQuiet(i);
      QuietLine(schema, indices, TAIL_LINES[i]);
    }
    NoRows(schema, indices, TAIL_LINES);
  }

  lemma {:induction false} ResponseHeader<F, T>(schema: TableSchema<F, T>, cmd: string, header: string, rows: seq<string>)
    requires Echo(schema, cmd) && MatchesHeader(schema, Split(header))
    ensures FirstHeader(schema, ResponseLines(cmd, header, rows)) == Some(Split(header))
  {
    forall i | 0 <= i < |FrontOf(cmd)|
      ensures !MatchesHeader(schema, Split(FrontOf(cmd)[i]))
    {
      FrontLine(schema, cmd, i);
    }
    FirstHeaderAfter(schema, FrontOf(cmd), header, [""] + Spread(if rows == [] then [""] else rows) + TAIL_LINES);
  }

  /** The rows of the whole are those of the body, when the lines around it give none. */
  lemma {:induction false} Enclosed<F, T>(
    schema: TableSchema<F, T>, indices: Indices<F>, front: seq<string>, header: string, body: seq<string>, tail: seq<string>,
    r: seq<T>)
    requires LinesRows(schema, indices, front) == Ok([]) && LinesRows(schema, indices, tail) == Ok([])
    requires LineRow(schema, indices, header) == NoRow && LineRow(schema, indices, "") == NoRow
    requires LinesRows(schema, indices, body) == Ok(r)
    ensures LinesRows(schema, indices, front + ([header] + ([""] + body + tail))) == Ok(r)
  {
    NoRows(schema, indices, [""]);
    NoRows(schema, indices, [header]);
    LinesAppend(schema, indices, [""], body);
    LinesAppend(schema, indices, [""] + body, tail);
    LinesAppend(schema, indices, [header], [""] + body + tail);
    LinesAppend(schema, indices, front, [header] + ([""] + body + tail));
    assert [] + r == r && r + [] == r;
  }

  lemma {:induction false} TableRowsAre<F, T>(schema: TableSchema<F, T>, text: string, lines: seq<string>, indices: Indices<F>, rows: seq<T>)
    requires SplitLines(text) == lines && TableIndices(schema, lines) == Ok(indices)
    requires LinesRows(schema, indices, lines) == Ok(rows)
    ensures TableRows(schema, text) == Ok(rows)
  {
  }

  /** What a printed table is parsed to: the results of its row lines, in order, and nothing from the envelope. */
  lemma {:induction false} ResponseRows<F, T>(
    schema: TableSchema<F, T>, cmd: string, header: string, indices: Indices<F>, rows: seq<string>,
    results: seq<LineResult<F, T>>)
    requires NumberFirst(schema) && Echo(schema, cmd)
    requires OneLine(header) && Quiet(header) && MatchesHeader(schema, Split(header)) && AllOneLine(rows)
    requires TableIndices(schema, [header]) == Ok(indices) && Give(schema, indices, rows, results)
    ensures TableRows(schema, Wrap(cmd, header + "\r\r\n" + Join(rows), false)) == Ok(Collected(results))
  {
    TableLines(cmd, header, rows);
    ResponseHeader(schema, cmd, header, rows);
    assert TableIndices(schema, ResponseLines(cmd, header, rows)) == Ok(indices);
    QuietLine(schema, indices, "");
    QuietLine(schema, indices, header);
    FrontRows(schema, indices, cmd);
    TailRows(schema, indices);
    BodyRows(schema, indices, rows, results);
    Enclosed(schema, indices, FrontOf(cmd), header, Spread(if rows == [] then [""] else rows), TAIL_LINES, Collected(results));
    TableRowsAre(schema, Wrap(cmd, header + "\r\r\n" + Join(rows), false), ResponseLines(cmd, header, rows), indices,
                 Collected(results));
  }
}
