/** What the parser's line and token splitting makes of what the emulator's formatting printed. */
module Rendering {
  import opened Search
  import opened Text
  import opened Stub

  // A line of fields

  /** The field prints the word and nothing else but blanks. */
  predicate Shows(f: Field, w: string) {
    IsWord(w) && w <= f.value && Blank(f.value[|w|..])
  }

  /** Every value but the last is shorter than its column. */
  predicate Fits(fields: seq<Field>) {
    forall i :: 0 <= i < |fields| - 1 ==> |fields[i].value| < fields[i].width
  }

  predicate AllShow(fields: seq<Field>, words: seq<string>) {
    |fields| == |words| && forall i :: 0 <= i < |fields| ==> Shows(fields[i], words[i])
  }

  lemma {:induction false} FieldSplits(f: Field, w: string, rest: string)
    requires Shows(f, w) && (|f.value| < f.width || rest == "")
    ensures Split(Left(f.value, f.width) + rest) == [w] + Split(rest)
  {
    var cell := Left(f.value, f.width);
    var blanks := cell[|w|..];
    assert Blank(blanks);
    assert cell + rest == w + (blanks + rest);
    SplitWord(w, blanks + rest);
    SplitBlank(blanks, rest);
  }

  /** Splitting a printed line at its blanks gives back the words of its fields. */
  lemma {:induction false} SplitRender(fields: seq<Field>, words: seq<string>)
    requires AllShow(fields, words) && Fits(fields)
    ensures Split(Render(fields)) == words
  {
    if fields != [] {
      RestShows(fields, words);
      SplitRender(fields[1..], words[1..]);
      FieldSplits(fields[0], words[0], Render(fields[1..]));
      assert words == [words[0]] + words[1..];
    }
  }

  lemma {:induction false} RestShows(fields: seq<Field>, words: seq<string>)
    requires AllShow(fields, words) && Fits(fields) && fields != []
    ensures AllShow(fields[1..], words[1..]) && Fits(fields[1..])
    ensures |fields[0].value| < fields[0].width || Render(fields[1..]) == ""
  {
    assert |fields| == 1 ==> fields[1..] == [];
  }

  /** A printed line begins with what its first field does. */
  lemma {:induction false} RenderStarts(fields: seq<Field>)
    requires fields != [] && fields[0].value != ""
    ensures Render(fields) != "" && Render(fields)[0] == fields[0].value[0]
  {
  }

  /** c is nowhere on the printed line, when it is in none of the values. */
  lemma {:induction false} RenderLacks(fields: seq<Field>, c: char)
    requires c != ' ' && forall i :: 0 <= i < |fields| ==> c !in fields[i].value
    ensures c !in Render(fields)
  {
    if fields != [] {
      RenderLacks(fields[1..], c);
      assert c !in Spaces(if |fields[0].value| < fields[0].width then fields[0].width - |fields[0].value| else 0);
    }
  }

  predicate OneLineFields(fields: seq<Field>) {
    forall i :: 0 <= i < |fields| ==> OneLine(fields[i].value)
  }

  lemma {:induction false} RenderOneLine(fields: seq<Field>)
    requires OneLineFields(fields)
    ensures OneLine(Render(fields))
  {
    if fields != [] {
      RenderOneLine(fields[1..]);
    }
  }

  lemma ContainsAfter(front: string, hay: string, needle: string)
    requires Contains(hay, needle)
    ensures Contains(front + hay, needle)
  {
    var i := FindIt(hay, needle);
    assert (front + hay)[|front| + i..|front| + i + |needle|] == hay[i..i + |needle|];
    Found(front + hay, needle, |front| + i);
  }

  /** A field's value is on the printed line. */
  lemma {:induction false} RenderContains(fields: seq<Field>, k: nat)
    requires k < |fields|
    ensures Contains(Render(fields), fields[k].value)
  {
    if k == 0 {
      PrefixFound(Render(fields), fields[0].value);
    } else {
      RenderContains(fields[1..], k - 1);
      ContainsAfter(Left(fields[0].value, fields[0].width), Render(fields[1..]), fields[k].value);
    }
  }

  // The envelope

  /** The lines the parser sees for the printed rows: each is followed by an empty one. */
  function Spread(rows: seq<string>): seq<string> {
    if rows == [] then [] else Spread(rows[..|rows| - 1]) + [rows[|rows| - 1], ""]
  }

  lemma {:induction false} SpreadFront(rows: seq<string>)
    requires rows != []
    ensures Spread(rows) == [rows[0], ""] + Spread(rows[1..])
  {
    var n := |rows|;
    if n == 1 {
      assert rows[..0] == [] && rows[1..] == [];
    } else {
      SpreadFront(rows[..n - 1]);
      assert rows[..n - 1][1..] == rows[1..][..n - 2];
      assert rows[1..][n - 2] == rows[n - 1];
    }
  }

  const TAIL_LINES := ["Command completed successfully", "", "$$", "", "pylon>"]

  predicate AllOneLine(rows: seq<string>) {
    forall i :: 0 <= i < |rows| ==> OneLine(rows[i])
  }

  lemma {:induction false} RowThen(row: string, s: string)
    requires OneLine(row)
    ensures SplitLines(row + "\r\r\n" + s) == [row, ""] + SplitLines(s)
  {
    RowShape(row, s);
    LineThen(row, '\r', "" + "\r\n" + s);
    LineThenCrLf("", s);
    TwoFirst(row, SplitLines(s));
  }

  lemma RowShape(row: string, s: string)
    ensures row + "\r\r\n" + s == row + ['\r'] + ("" + "\r\n" + s)
  {
  }

  lemma {:induction false} EmptyThen(c: char, s: string)
    requires IsLineBreak(c) && !(c == '\r' && s != "" && s[0] == '\n')
    ensures SplitLines([c] + s) == [""] + SplitLines(s)
  {
    LineThen("", c, s);
    assert "" + [c] + s == [c] + s;
  }

  lemma LastRowShape(row: string, s: string)
    ensures row + "\r\n\r" + s == row + "\r\n" + (['\r'] + s)
  {
  }

  lemma TwoFirst(row: string, lines: seq<string>)
    ensures [row] + ([""] + lines) == [row, ""] + lines
  {
  }

  lemma {:induction false} LastRow(row: string, s: string)
    requires OneLine(row) && (s == "" || s[0] != '\n')
    ensures SplitLines(row + "\r\n\r" + s) == [row, ""] + SplitLines(s)
  {
    LastRowShape(row, s);
    LineThenCrLf(row, ['\r'] + s);
    EmptyThen('\r', s);
    TwoFirst(row, SplitLines(s));
  }

  lemma {:induction false} TwoLines(y: string, z: string)
    requires OneLine(y) && OneLine(z) && z != ""
    ensures SplitLines(y + "\r\n\r" + z) == [y, "", z]
  {
    LastRow(y, z);
    LastLine(z);
  }

  lemma ThreeShape(x: string, y: string, z: string)
    requires y != ""
    ensures x + "\r\n\r" + y + "\r\n\r" + z == x + "\r\n\r" + (y + "\r\n\r" + z)
    ensures (y + "\r\n\r" + z)[0] == y[0]
  {
  }

  lemma {:induction false} ThreeLines(x: string, y: string, z: string)
    requires OneLine(x) && OneLine(y) && OneLine(z) && y != "" && z != ""
    ensures SplitLines(x + "\r\n\r" + y + "\r\n\r" + z) == [x, "", y, "", z]
  {
    ThreeShape(x, y, z);
    TwoLines(y, z);
    LastRow(x, y + "\r\n\r" + z);
  }

  lemma TailLines()
    ensures SplitLines(TAIL) == TAIL_LINES
  {
    ThreeLines("Command completed successfully", "$$", "pylon>");
  }

  lemma {:induction false} JoinFront(rows: seq<string>, end: string)
    requires |rows| > 1
    ensures Join(rows) + "\r\n\r" + end == rows[0] + "\r\r\n" + (Join(rows[1..]) + "\r\n\r" + end)
  {
  }

  lemma {:induction false} LastRowLines(row: string)
    requires OneLine(row)
    ensures SplitLines(row + "\r\n\r" + TAIL) == [row, ""] + TAIL_LINES
  {
    hide SplitLines;
    TailLines();
    LastRow(row, TAIL);
  }

  /** The lines of the printed rows and of the envelope's tail. */
  lemma {:induction false} RowLines(rows: seq<string>)
    requires AllOneLine(rows)
    ensures SplitLines(Join(rows) + "\r\n\r" + TAIL)
         == Spread(if rows == [] then [""] else rows) + TAIL_LINES
  {
    hide SplitLines, TAIL, TAIL_LINES;
    if |rows| <= 1 {
      var row := if rows == [] then "" else rows[0];
      LastRowLines(row);
      SpreadFront([row]);
    } else {
      RowLines(rows[1..]);
      JoinFront(rows, TAIL);
      RowThen(rows[0], Join(rows[1..]) + "\r\n\r" + TAIL);
      SpreadFront(rows);
    }
  }

  lemma EchoShape(cmd: string, mark: string, s: string)
    ensures cmd + "\n\r" + mark + "\r" + s == cmd + ['\n'] + (['\r'] + (mark + ['\r'] + s))
  {
  }

  lemma ThreeFirst(cmd: string, mark: string, lines: seq<string>)
    ensures [cmd] + ([""] + ([mark] + lines)) == [cmd, "", mark] + lines
  {
  }

  lemma {:induction false} EchoLines(cmd: string, mark: string, s: string)
    requires OneLine(cmd) && OneLine(mark) && mark != "" && (s == "" || s[0] != '\n')
    ensures SplitLines(cmd + "\n\r" + mark + "\r" + s) == [cmd, "", mark] + SplitLines(s)
  {
    var rest := mark + ['\r'] + s;
    assert rest[0] == mark[0];
    EchoShape(cmd, mark, s);
    LineThen(cmd, '\n', ['\r'] + rest);
    EmptyThen('\r', rest);
    LineThen(mark, '\r', s);
    ThreeFirst(cmd, mark, SplitLines(s));
  }

  lemma FrontShape(cmd: string, s: string)
    ensures cmd + "\n\r@\r" + "\r\n" + s == cmd + "\n\r" + "@" + "\r" + ("\r\n" + s)
  {
  }

  lemma {:induction false} BlankThen(s: string)
    ensures SplitLines("\r\n" + s) == [""] + SplitLines(s)
  {
    LineThenCrLf("", s);
    assert "" + "\r\n" + s == "\r\n" + s;
  }

  lemma {:induction false} EchoAndBlank(cmd: string, mark: string, s: string)
    requires OneLine(cmd) && OneLine(mark) && mark != ""
    ensures SplitLines(cmd + "\n\r" + mark + "\r" + ("\r\n" + s)) == [cmd, "", mark] + ([""] + SplitLines(s))
  {
    BlankThen(s);
    EchoLines(cmd, mark, "\r\n" + s);
  }

  /** The lines before a table's header. */
  function FrontOf(cmd: string): seq<string> {
    [cmd, "", "@", ""]
  }

  lemma {:induction false} FrontLines(cmd: string, s: string)
    requires OneLine(cmd)
    ensures SplitLines(cmd + "\n\r@\r" + "\r\n" + s) == FrontOf(cmd) + SplitLines(s)
  {
    FrontShape(cmd, s);
    EchoAndBlank(cmd, "@", s);
    assert [cmd, "", "@"] + ([""] + SplitLines(s)) == FrontOf(cmd) + SplitLines(s);
  }

  /** The lines of a table response. */
  function ResponseLines(cmd: string, header: string, rows: seq<string>): seq<string> {
    FrontOf(cmd) + ([header] + ([""] + Spread(if rows == [] then [""] else rows) + TAIL_LINES))
  }

  lemma Regrouped(front: seq<string>, header: string, body: seq<string>, tail: seq<string>)
    ensures front + ([header, ""] + (body + tail)) == front + ([header] + ([""] + body + tail))
  {
  }

  lemma {:induction false} TableLines(cmd: string, header: string, rows: seq<string>)
    requires OneLine(cmd) && OneLine(header) && AllOneLine(rows)
    ensures SplitLines(Wrap(cmd, header + "\r\r\n" + Join(rows), false)) == ResponseLines(cmd, header, rows)
  {
    hide SplitLines;
    var rest := Join(rows) + "\r\n\r" + TAIL;
    assert Wrap(cmd, header + "\r\r\n" + Join(rows), false)
        == cmd + "\n\r@\r" + "\r\n" + (header + "\r\r\n" + rest);
    FrontLines(cmd, header + "\r\r\n" + rest);
    RowThen(header, rest);
    RowLines(rows);
    Regrouped(FrontOf(cmd), header, Spread(if rows == [] then [""] else rows), TAIL_LINES);
  }
}
