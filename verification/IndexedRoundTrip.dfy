/** What the parser reads of the vertical "pwr N" block the emulator prints. */
module IndexedRoundTrip {
  import opened Search
  import opened Wrappers
  import opened Text
  import opened Table
  import opened Schemas
  import opened KeyValue
  import opened Stub
  import opened StubBlock
  import opened Rendering
  import opened PwrReading

  // Lines of a block response

  lemma BodyGroup(line: string, more: seq<string>, end: seq<string>)
    ensures [line, ""] + (more + end) == [line, ""] + more + end
  {
  }

  /** Lines that can stand in a block. */
  predicate BlockBody(lines: seq<string>) {
    AllOneLine(lines) && forall i :: 0 <= i < |lines| ==> lines[i] != "" && lines[i][0] != '\n'
  }

  lemma {:induction false} JoinStarts(lines: seq<string>)
    requires lines != [] && lines[0] != ""
    ensures BlockJoin(lines) != "" && BlockJoin(lines)[0] == lines[0][0]
  {
  }

  lemma {:induction false} BlockBodyLines(lines: seq<string>)
    requires lines != [] && BlockBody(lines)
    ensures SplitLines(BlockJoin(lines) + "\r\n\r" + TAIL) == Spread(lines) + TAIL_LINES
  {
    SpreadFront(lines);
    if |lines| == 1 {
      TailLines();
      LastRow(lines[0], TAIL);
      assert Spread([]) == [] && lines[1..] == [];
    } else {
      var rest := BlockJoin(lines[1..]) + "\r\n\r" + TAIL;
      BlockBodyLines(lines[1..]);
      JoinStarts(lines[1..]);
      BodyText(lines, TAIL);
      LastRow(lines[0], rest);
      BodyGroup(lines[0], Spread(lines[1..]), TAIL_LINES);
    }
  }

  lemma {:induction false} BodyText(lines: seq<string>, end: string)
    requires |lines| > 1
    ensures BlockJoin(lines) + "\r\n\r" + end == lines[0] + "\r\n\r" + (BlockJoin(lines[1..]) + "\r\n\r" + end)
  {
  }

  lemma {:induction false} BlockFrontLines(cmd: string, s: string)
    requires OneLine(cmd) && s != "" && s[0] != '\n'
    ensures SplitLines(cmd + "\n\r@\r" + "\n\r" + s) == FrontOf(cmd) + SplitLines(s)
  {
    BlockFrontShape(cmd, s);
    EchoThen(cmd, "@", s);
  }

  lemma BlockFrontShape(cmd: string, s: string)
    ensures cmd + "\n\r@\r" + "\n\r" + s == cmd + "\n\r" + ("@" + "\r\n\r" + s)
  {
  }

  lemma {:induction false} EchoThen(cmd: string, mark: string, s: string)
    requires OneLine(cmd) && OneLine(mark) && mark != "" && s != "" && s[0] != '\n'
    ensures SplitLines(cmd + "\n\r" + (mark + "\r\n\r" + s)) == [cmd, "", mark, ""] + SplitLines(s)
  {
    hide SplitLines;
    var rest := mark + "\r\n\r" + s;
    assert rest[0] == mark[0];
    LastRow(mark, s);
    CommandThen(cmd, rest);
    assert [cmd, ""] + ([mark, ""] + SplitLines(s)) == [cmd, "", mark, ""] + SplitLines(s);
  }

  lemma CommandShape(cmd: string, rest: string)
    ensures cmd + "\n\r" + rest == cmd + ['\n'] + (['\r'] + rest)
  {
  }

  lemma {:induction false} CommandThen(cmd: string, rest: string)
    requires OneLine(cmd) && rest != "" && rest[0] != '\n'
    ensures SplitLines(cmd + "\n\r" + rest) == [cmd, ""] + SplitLines(rest)
  {
    EmptyThen('\r', rest);
    LineThen(cmd, '\n', ['\r'] + rest);
    CommandShape(cmd, rest);
    assert [cmd] + ([""] + SplitLines(rest)) == [cmd, ""] + SplitLines(rest);
  }

  lemma WrappedBlock(cmd: string, body: string)
    ensures Wrap(cmd, body, true) == cmd + "\n\r@\r" + "\n\r" + (body + "\r\n\r" + TAIL)
  {
  }

  lemma {:induction false} BlockResponseLines(cmd: string, lines: seq<string>)
    requires OneLine(cmd) && lines != [] && BlockBody(lines)
    ensures SplitLines(Wrap(cmd, BlockJoin(lines), true)) == FrontOf(cmd) + (Spread(lines) + TAIL_LINES)
  {
    BlockBodyLines(lines);
    JoinStarts(lines);
    var rest := BlockJoin(lines) + "\r\n\r" + TAIL;
    assert rest[0] == lines[0][0];
    BlockFrontLines(cmd, rest);
    WrappedBlock(cmd, BlockJoin(lines));
  }

  // The dict of the lines

  /** The dict after one more line. */
  function Extended(raw: RawFields, field: Option<(string, string)>): RawFields {
    if field.None? then raw else raw[field.value.0 := field.value.1]
  }

  lemma {:induction false} FieldsLast(lines: seq<string>, line: string)
    ensures Fields(lines + [line]) == Extended(Fields(lines), LineField(line))
  {
    assert (lines + [line])[..|lines|] == lines;
  }

  lemma ExtendedMerge(x: RawFields, y: RawFields, field: Option<(string, string)>)
    ensures Extended(x + y, field) == x + Extended(y, field)
  {
  }

  lemma {:induction false} FieldsAppend(a: seq<string>, c: seq<string>)
    ensures Fields(a + c) == Fields(a) + Fields(c)
  {
    hide LineField;
    if c == [] {
      assert a + c == a;
    } else {
      var front, last := c[..|c| - 1], c[|c| - 1];
      FieldsAppend(a, front);
      FieldsLast(a + front, last);
      FieldsLast(front, last);
      ExtendedMerge(Fields(a), Fields(front), LineField(last));
      assert c == front + [last] && a + c == (a + front) + [last];
    }
  }

  lemma {:induction false} FieldsWithin(front: seq<string>, lines: seq<string>, tail: seq<string>)
    requires Fields(front) == map[] && Fields(tail) == map[]
    ensures Fields(front + (lines + tail)) == Fields(lines)
  {
    FieldsAppend(front, lines + tail);
    FieldsAppend(lines, tail);
  }

  lemma {:induction false} NoFields(lines: seq<string>)
    requires forall i :: 0 <= i < |lines| ==> ':' !in lines[i]
    ensures Fields(lines) == map[]
  {
    if lines != [] {
      NoFields(lines[..|lines| - 1]);
      NoColon(lines[|lines| - 1]);
    }
  }

  lemma NoColon(line: string)
    requires ':' !in line
    ensures LineField(line) == None
  {
    UntilIs(line, (c: char) => c == ':', |line|);
  }

  lemma {:induction false} FieldsSpread(lines: seq<string>)
    ensures Fields(Spread(lines)) == Fields(lines)
  {
    if lines != [] {
      var n := |lines| - 1;
      FieldsSpread(lines[..n]);
      NoColon("");
      PairField(lines[n]);
      FieldsAppend(Spread(lines[..n]), [lines[n], ""]);
    }
  }

  lemma PairField(line: string)
    ensures Fields([line, ""]) == match LineField(line) case None => map[] case Some(f) => map[f.0 := f.1]
  {
    NoColon("");
    assert [line, ""][..1] == [line] && [line][..0] == [];
    assert Fields([]) == map[];
    assert Fields([line]) == match LineField(line) case None => map[] case Some(f) => map[f.0 := f.1];
  }

  /** The line gives a value for the key. */
  predicate HasKey(line: string, key: string) {
    var field := LineField(line);
    field.Some? && field.value.0 == key
  }

  /** A key that no later line has keeps its token. */
  lemma {:induction false} FieldKept(lines: seq<string>, i: nat, key: string, token: string)
    requires i < |lines| && LineField(lines[i]) == Some((key, token))
    requires forall j :: i < j < |lines| ==> !HasKey(lines[j], key)
    ensures key in Fields(lines) && Fields(lines)[key] == token
  {
    hide Fields, LineField;
    var front, later := lines[..i + 1], lines[i + 1..];
    FieldsLast(lines[..i], lines[i]);
    assert front == lines[..i] + [lines[i]];
    forall j | 0 <= j < |later| ensures !HasKey(later[j], key) {
      assert later[j] == lines[i + 1 + j];
    }
    KeyAbsent(later, key);
    FieldsAppend(front, later);
    assert lines == front + later;
  }

  /** No line of these has the key. */
  lemma {:induction false} KeyAbsent(lines: seq<string>, key: string)
    requires forall j :: 0 <= j < |lines| ==> !HasKey(lines[j], key)
    ensures key !in Fields(lines)
  {
    hide LineField;
    if lines != [] {
      var n := |lines| - 1;
      KeyAbsent(lines[..n], key);
      FieldsLast(lines[..n], lines[n]);
      assert lines == lines[..n] + [lines[n]];
      assert !HasKey(lines[n], key);
    }
  }

  // Entries

  lemma {:induction false} RightStripSpaces(s: string, n: nat)
    requires s != "" && !IsSpace(s[|s| - 1])
    ensures RightStrip(s + Spaces(n)) == s
  {
    var t := s + Spaces(n);
    if n == 0 {
      assert t == s;
    } else {
      SpacesBack(n);
      assert t[..|t| - 1] == s + Spaces(n - 1);
      RightStripSpaces(s, n - 1);
    }
  }

  lemma SpacesBack(n: nat)
    requires n > 0
    ensures Spaces(n)[..n - 1] == Spaces(n - 1)
  {
  }

  lemma {:induction false} StripPadded(s: string, n: nat)
    requires s != "" && !IsSpace(s[0]) && !IsSpace(s[|s| - 1])
    ensures Strip(s + Spaces(n)) == s
  {
    assert LeftStrip(s + Spaces(n)) == s + Spaces(n);
    RightStripSpaces(s, n);
  }

  lemma KeyEnds(k: BlockKey)
    ensures var s := KeyText(k); 7 <= |s| < 16 && !IsSpace(s[0]) && !IsSpace(s[|s| - 1])
  {
  }

  predicate FirstKeys(k: BlockKey) {
    match k
    case KVoltage | KSocVoltage | KCurrent | KTemperature | KCoulomb | KTotalCoulomb | KRealCoulomb | KPowerIn | KPowerOut
      | KBasic | KVolt => true
    case _ => false
  }

  lemma FirstKeyChars(k: BlockKey)
    requires FirstKeys(k)
    ensures forall i :: 0 <= i < |KeyText(k)| ==> ' ' <= KeyText(k)[i] != ':'
  {
  }

  predicate StatusKeys(k: BlockKey) {
    k == KCurr || k == KTmpr || k == KCoul || k == KBat || k == KCmos || k == KDmos
  }

  lemma StatusKeyChars(k: BlockKey)
    requires StatusKeys(k)
    ensures forall i :: 0 <= i < |KeyText(k)| ==> ' ' <= KeyText(k)[i] != ':'
  {
  }

  lemma OtherKeyChars(k: BlockKey)
    requires !FirstKeys(k) && !StatusKeys(k)
    ensures forall i :: 0 <= i < |KeyText(k)| ==> ' ' <= KeyText(k)[i] != ':'
  {
  }

  lemma KeyShape(k: BlockKey)
    ensures var s := KeyText(k);
            s != "" && |s| < 16 && ':' !in s && OneLine(s) && !IsSpace(s[0]) && !IsSpace(s[|s| - 1])
  {
    KeyEnds(k);
    if FirstKeys(k) { FirstKeyChars(k); } else if StatusKeys(k) { StatusKeyChars(k); } else { OtherKeyChars(k); }
  }

  function ValuePart(e: Entry): string {
    Left(e.value, 8) + e.unit
  }

  lemma {:induction false} PaddedKeyField(key: string, n: nat, part: string)
    requires key != "" && ':' !in key && !IsSpace(key[0]) && !IsSpace(key[|key| - 1])
    ensures LineField(key + Spaces(n) + ": " + part) == if Split(part) == [] then None else Some((key, Split(part)[0]))
  {
    var cell := key + Spaces(n);
    var line := cell + ": " + part;
    ColonAfter(cell, part);
    StripPadded(key, n);
    SplitBlank(" ", part);
    CellAndRest(cell, part);
    FieldOfParts(line, |cell|, key, part);
  }

  lemma CellAndRest(cell: string, part: string)
    ensures var line := cell + ": " + part; line[..|cell|] == cell && line[|cell| + 1..] == " " + part
  {
  }

  lemma {:induction false} FieldOfParts(line: string, i: nat, key: string, part: string)
    requires UntilColon(line) == i < |line| && Strip(line[..i]) == key != "" && Split(line[i + 1..]) == Split(part)
    ensures LineField(line) == if Split(part) == [] then None else Some((key, Split(part)[0]))
  {
  }

  lemma ColonAfter(cell: string, part: string)
    requires ':' !in cell
    ensures UntilColon(cell + ": " + part) == |cell|
  {
    var line := cell + ": " + part;
    assert line[|cell|] == ':';
    UntilIs(line, (c: char) => c == ':', |cell|);
  }

  lemma EntryShape(e: Entry)
    requires |KeyText(e.key)| < 16
    ensures EntryLine(e) == KeyText(e.key) + Spaces(16 - |KeyText(e.key)|) + ": " + ValuePart(e)
  {
  }

  lemma {:induction false} KeyedLine(line: string, key: string, n: nat, part: string)
    requires key != "" && ':' !in key && !IsSpace(key[0]) && !IsSpace(key[|key| - 1])
    requires line == key + Spaces(n) + ": " + part
    ensures LineField(line) == if Split(part) == [] then None else Some((key, Split(part)[0]))
  {
    PaddedKeyField(key, n, part);
  }

  lemma EntryField(e: Entry)
    ensures LineField(EntryLine(e))
         == if Split(ValuePart(e)) == [] then None else Some((KeyText(e.key), Split(ValuePart(e))[0]))
  {
    hide LineField, Split, KeyText, EntryLine, ValuePart;
    KeyShape(e.key);
    EntryShape(e);
    KeyedLine(EntryLine(e), KeyText(e.key), 16 - |KeyText(e.key)|, ValuePart(e));
  }

  /** The entry's value is one token, and a blank or the end of the line comes after it. */
  predicate CleanEntry(e: Entry) {
    IsWord(e.value) && (|e.value| < 8 || e.unit == "")
  }

  lemma CleanEntryField(e: Entry)
    requires CleanEntry(e)
    ensures LineField(EntryLine(e)) == Some((KeyText(e.key), e.value))
  {
    EntryField(e);
    CleanValue(e.value, e.unit);
  }

  lemma {:induction false} CleanValue(value: string, unit: string)
    requires IsWord(value) && (|value| < 8 || unit == "")
    ensures var words := Split(Left(value, 8) + unit); words != [] && words[0] == value
  {
    var part := Left(value, 8) + unit;
    var rest := part[|value|..];
    assert part == value + rest;
    SplitWord(value, rest);
  }

  predicate DistinctKeys(entries: seq<Entry>) {
    forall i, j :: 0 <= i < j < |entries| ==> entries[i].key != entries[j].key
  }

  /** The dict has the value of a clean entry under its key's text. */
  lemma {:induction false} EntryKept(entries: seq<Entry>, i: nat)
    requires DistinctKeys(entries) && i < |entries| && CleanEntry(entries[i])
    ensures var raw, key := Fields(EntryLines(entries)), KeyText(entries[i].key); key in raw && raw[key] == entries[i].value
  {
    var lines, key := EntryLines(entries), KeyText(entries[i].key);
    CleanEntryField(entries[i]);
    KeyTextRead(entries[i].key);
    forall j | i < j < |lines| ensures !HasKey(lines[j], key) {
      EntryField(entries[j]);
      KeyTextRead(entries[j].key);
    }
    FieldKept(lines, i, key, entries[i].value);
  }

  /** Printable characters among which the not-found marker cannot begin. */
  predicate NiceText(s: string) {
    && (forall i :: 0 <= i < |s| ==> ' ' <= s[i])
    && ('n' !in s || ('o' !in s && s[|s| - 1] != 'n'))
  }

  predicate NiceEntry(e: Entry) {
    NiceText(e.value) && NiceText(e.unit)
  }

  predicate NiceEntries(entries: seq<Entry>) {
    forall i :: 0 <= i < |entries| ==> NiceEntry(entries[i])
  }

  lemma NiceOneLine(s: string)
    requires NiceText(s)
    ensures OneLine(s) && NoNo(s) && (s != "" ==> s[|s| - 1] != 'n')
  {
  }

  lemma EntryLineShape(e: Entry)
    requires NiceEntry(e)
    ensures OneLine(EntryLine(e)) && EntryLine(e) != "" && EntryLine(e)[0] != '\n'
  {
    hide KeyText;
    KeyShape(e.key);
    NiceOneLine(e.value);
    NiceOneLine(e.unit);
    assert EntryLine(e)[0] == KeyText(e.key)[0];
  }

  lemma PowerLine(id: int)
    ensures var s := "Power " + IntText(id); OneLine(s) && ':' !in s && s[0] == 'P' && 'n' !in s
  {
    assert AllDigits(NatText(if id < 0 then -id else id));
  }

  lemma SepShape()
    ensures OneLine(SEP) && ':' !in SEP && SEP != "" && SEP[0] == '-' && 'n' !in SEP
  {
  }

  lemma BlockLinesShape(id: nat, entries: seq<Entry>)
    requires NiceEntries(entries)
    ensures var lines := BlockLines(id, entries);
            lines != [] && BlockBody(lines)
  {
    var lines := BlockLines(id, entries);
    SepShape();
    PowerLine(id);
    forall i | 0 <= i < |lines|
      ensures OneLine(lines[i]) && lines[i] != "" && lines[i][0] != '\n'
    {
      if 2 <= i < |lines| - 1 {
        assert lines[i] == EntryLine(entries[i - 2]);
        assert NiceEntry(entries[i - 2]);
        EntryLineShape(entries[i - 2]);
      }
    }
  }

  lemma {:induction false} FieldsFramed(front: seq<string>, lines: seq<string>, tail: seq<string>)
    requires forall i :: 0 <= i < |front| ==> ':' !in front[i]
    requires forall i :: 0 <= i < |tail| ==> ':' !in tail[i]
    ensures Fields(front + lines + tail) == Fields(lines)
  {
    NoFields(front);
    NoFields(tail);
    FieldsWithin(front, lines, tail);
    assert front + lines + tail == front + (lines + tail);
  }

  lemma {:induction false} BlockFields(id: nat, entries: seq<Entry>)
    ensures Fields(BlockLines(id, entries)) == Fields(EntryLines(entries))
  {
    SepShape();
    PowerLine(id);
    FieldsFramed([SEP, "Power " + IntText(id)], EntryLines(entries), [SEP]);
  }

  lemma CommandShown(id: int)
    ensures var s := IndexedCommand(id); OneLine(s) && ':' !in s && s != "" && 'n' !in s
  {
    assert AllDigits(NatText(if id < 0 then -id else id));
  }

  lemma TailNoColon(i: nat)
    requires i < |TAIL_LINES|
    ensures ':' !in TAIL_LINES[i]
  {
  }

  lemma EnvelopeNoFields(cmd: string)
    requires ':' !in cmd
    ensures Fields(FrontOf(cmd)) == map[] && Fields(TAIL_LINES) == map[]
  {
    NoFields(FrontOf(cmd));
    forall i | 0 <= i < |TAIL_LINES|
      ensures ':' !in TAIL_LINES[i]
    {
      TailNoColon(i);
    }
    NoFields(TAIL_LINES);
  }

  /** The dict the parser gets out of a printed block is that of its entries. */
  lemma {:induction false} ResponseFields(id: nat, entries: seq<Entry>)
    requires NiceEntries(entries)
    ensures Fields(SplitLines(Wrap(IndexedCommand(id), BlockJoin(BlockLines(id, entries)), true)))
         == Fields(EntryLines(entries))
  {
    var cmd, lines := IndexedCommand(id), BlockLines(id, entries);
    CommandShown(id);
    BlockLinesShape(id, entries);
    BlockResponseLines(cmd, lines);
    EnvelopeNoFields(cmd);
    FieldsWithin(FrontOf(cmd), Spread(lines), TAIL_LINES);
    FieldsSpread(lines);
    BlockFields(id, entries);
  }

  // A present battery's entries

  function EntryPos(k: BlockKey): nat {
    match k
    case KVoltage => 0 case KSocVoltage => 1 case KCurrent => 2 case KTemperature => 3 case KCoulomb => 4
    case KTotalCoulomb => 5 case KRealCoulomb => 6 case KPowerIn => 7 case KPowerOut => 8 case KBasic => 9
    case KVolt => 10 case KCurr => 11 case KTmpr => 12 case KCoul => 13 case KBat => 14 case KCmos => 15 case KDmos => 16
    case KBatEna => 17 case KPwrEna => 18 case KBatEvents => 19 case KPowerEvents => 20 case KSysFault => 21 case KComm => 22
  }

  lemma MeasurePlace(b: Bms, id: nat, i: nat)
    requires i < 9
    ensures EntryPos(MeasureAt(b, id, i).key) == i
  {
  }

  lemma StatusPlace(b: Bms, id: nat, i: nat)
    requires 9 <= i < 17
    ensures EntryPos(StatusAt(b, id, i).key) == i
  {
  }

  lemma EventPlace(f: FaultKind, i: nat)
    requires 17 <= i < ENTRY_COUNT
    ensures EntryPos(EventAt(f, i).key) == i
  {
  }

  lemma EntryPlace(b: Bms, id: nat, i: nat)
    requires i < ENTRY_COUNT
    ensures EntryPos(EntryAt(b, id, i).key) == i
  {
    if i < 9 { MeasurePlace(b, id, i); } else if i < 17 { StatusPlace(b, id, i); } else { EventPlace(b.FaultOf(id), i); }
  }

  lemma EntriesDistinct(b: Bms, id: nat)
    ensures DistinctKeys(Entries(b, id))
  {
    forall i, j | 0 <= i < j < |Entries(b, id)|
      ensures Entries(b, id)[i].key != Entries(b, id)[j].key
    {
      EntryPlace(b, id, i);
      EntryPlace(b, id, j);
    }
  }

  ghost predicate NumbersSatisfy(p: Entry -> bool, b: Bms, id: nat) {
    var v := BlockShown(b, id);
    && p(Entry(KVoltage, IntText(v.voltage), "mV")) && p(Entry(KCurrent, IntText(v.current), "mA"))
    && p(Entry(KTemperature, IntText(v.temperature), "mC")) && p(Entry(KCoulomb, IntText(b.state.soc), "%"))
    && p(Entry(KTotalCoulomb, IntText(b.cfg.capMah), "mAH")) && p(Entry(KRealCoulomb, IntText(RealCapacity(b)), "mAH"))
    && p(Entry(KPowerIn, IntText(b.state.pwrCoulomb), "AS")) && p(Entry(KPowerOut, IntText(b.state.dsgCap), "AS"))
  }

  ghost predicate WordsSatisfy(p: Entry -> bool, b: Bms, id: nat) {
    var f := b.FaultOf(id);
    && p(Entry(KBasic, StateWord(b.state.current), "")) && p(Entry(KVolt, VoltWord(f), ""))
    && p(Entry(KCurr, CurrWord(f), "")) && p(Entry(KTmpr, TempWord(f), "")) && p(Entry(KBat, BatWord(f), ""))
    && p(Entry(KCmos, CmosWord(f), "")) && p(Entry(KDmos, DmosWord(f), ""))
    && p(Entry(KBatEvents, BatEventBits(f), "")) && p(Entry(KPowerEvents, PowerEventBits(f), ""))
    && p(Entry(KSysFault, SysFaultBits(f), ""))
  }

  ghost predicate FixedSatisfy(p: Entry -> bool) {
    && p(Entry(KSocVoltage, "0", "mV")) && p(Entry(KCoul, "Normal", ""))
    && p(Entry(KBatEna, BatteryGuards(), ""))
    && p(Entry(KPwrEna, PowerGuards(), ""))
    && p(Entry(KComm, "0x0", ""))
  }

  lemma EntriesSatisfy(p: Entry -> bool, b: Bms, id: nat)
    requires NumbersSatisfy(p, b, id) && WordsSatisfy(p, b, id) && FixedSatisfy(p)
    ensures forall i :: 0 <= i < |Entries(b, id)| ==> p(Entries(b, id)[i])
  {
  }

  /** Printable characters, none of them the letter that begins the marker. */
  predicate PlainEntry(e: Entry) {
    PlainText(e.value) && PlainText(e.unit)
  }

  predicate PlainText(s: string) {
    forall i :: 0 <= i < |s| ==> ' ' <= s[i] != 'n'
  }

  lemma IntTextNice(n: int)
    ensures PlainText(IntText(n))
  {
    assert AllDigits(NatText(if n < 0 then -n else n));
  }

  lemma NumbersNice(b: Bms, id: nat)
    ensures NumbersSatisfy(PlainEntry, b, id)
  {
    var v := BlockShown(b, id);
    IntTextNice(v.voltage);
    IntTextNice(v.current);
    IntTextNice(v.temperature);
    IntTextNice(b.state.soc);
    IntTextNice(b.cfg.capMah);
    IntTextNice(RealCapacity(b));
    IntTextNice(b.state.pwrCoulomb);
    IntTextNice(b.state.dsgCap);
  }

  lemma StatusWordsPlain(f: FaultKind, current: int)
    ensures PlainText(StateWord(current)) && PlainText(VoltWord(f)) && PlainText(CurrWord(f)) && PlainText(TempWord(f))
  {
  }

  lemma BoardWordsPlain(f: FaultKind)
    ensures PlainText(BatWord(f)) && PlainText(CmosWord(f)) && PlainText(DmosWord(f))
  {
  }

  lemma BitsPlain(f: FaultKind)
    ensures PlainText(BatEventBits(f)) && PlainText(PowerEventBits(f)) && PlainText(SysFaultBits(f))
  {
  }

  lemma WordsNice(b: Bms, id: nat)
    ensures WordsSatisfy(PlainEntry, b, id)
  {
    var f := b.FaultOf(id);
    StatusWordsPlain(f, b.state.current);
    BoardWordsPlain(f);
    BitsPlain(f);
  }

  lemma GuardsPlain()
    ensures PlainText(BatteryGuards()) && PlainText(PowerGuards())
  {
  }

  lemma FixedNice()
    ensures FixedSatisfy(PlainEntry)
  {
    GuardsPlain();
  }

  lemma PlainNice(e: Entry)
    requires PlainEntry(e)
    ensures NiceEntry(e)
  {
  }

  lemma EntriesNice(b: Bms, id: nat)
    ensures NiceEntries(Entries(b, id))
  {
    NumbersNice(b, id);
    WordsNice(b, id);
    FixedNice();
    EntriesSatisfy(PlainEntry, b, id);
    forall i | 0 <= i < |Entries(b, id)|
      ensures NiceEntry(Entries(b, id)[i])
    {
      assert PlainEntry(Entries(b, id)[i]);
      PlainNice(Entries(b, id)[i]);
    }
  }

  // What is read of it

  /** The place of the entry that declared field k is read from. */
  function ReadPlace(k: nat): (i: nat)
    requires k < 12
    ensures i < ENTRY_COUNT
  {
    if k == 0 then 0 else if k < 4 then k + 1 else if k < 9 then k + 5 else k + 10
  }

  function ReadEntry(b: Bms, id: nat, k: nat): Entry
    requires k < 12
  {
    EntryAt(b, id, ReadPlace(k))
  }

  /** The key of the entry that declared field k is read from. */
  function ReadKey(k: nat): BlockKey
    requires k < 12
  {
    match k
    case 0 => KVoltage
    case 1 => KCurrent
    case 2 => KTemperature
    case 3 => KCoulomb
    case 4 => KBasic
    case 5 => KVolt
    case 6 => KCurr
    case 7 => KTmpr
    case 8 => KCoul
    case 9 => KBatEvents
    case 10 => KPowerEvents
    case _ => KSysFault
  }

  lemma PlaceKey(b: Bms, id: nat, k: nat)
    requires k < 12
    ensures ReadEntry(b, id, k).key == ReadKey(k)
  {
    hide BlockShown, IntText, StateWord;
  }

  lemma NumberKey(k: nat)
    requires k < 4
    ensures |INDEXED_FIELDS| == 12 && INDEXED_FIELDS[k].key == KeyText(ReadKey(k))
  {
  }

  lemma StatusKey(k: nat)
    requires 4 <= k < 9
    ensures |INDEXED_FIELDS| == 12 && INDEXED_FIELDS[k].key == KeyText(ReadKey(k))
  {
  }

  lemma EventKey(k: nat)
    requires 9 <= k < 12
    ensures |INDEXED_FIELDS| == 12 && INDEXED_FIELDS[k].key == KeyText(ReadKey(k))
  {
  }

  lemma IndexedKey(k: nat)
    requires k < 12
    ensures |INDEXED_FIELDS| == 12 && INDEXED_FIELDS[k].key == KeyText(ReadKey(k))
  {
    if k < 4 { NumberKey(k); } else if k < 9 { StatusKey(k); } else { EventKey(k); }
  }

  function BatEventNumber(f: FaultKind): int {
    match f
    case OverVoltage => 1
    case UnderVoltage => 4
    case OverTemp => 16
    case UnderTemp => 64
    case _ => 0
  }

  /** The battery that stands behind a printed block. */
  function IndexedReading(b: Bms, id: nat): Battery {
    var f, v := b.FaultOf(id), BlockShown(b, id);
    Battery(id, Milli(v.voltage), Milli(v.current), Milli(v.temperature), b.state.soc, StateWord(b.state.current),
            Power(Milli(v.voltage), Milli(v.current)), 0.0, None, None, None, None,
            Some(VoltWord(f)), Some(CurrWord(f)), Some(TempWord(f)), None, None, Some("Normal"),
            Some(BatEventNumber(f)), Some(if f == OverCurrent then 1 else 0),
            Some(if f == NoFault || f == MarkedAbsent then 0 else 1), [])
  }

  function IndexedValue(b: Bms, id: nat, k: nat): Value
    requires k < 12
  {
    var r := IndexedReading(b, id);
    match k
    case 0 => Decimal(r.voltage)
    case 1 => Decimal(r.current)
    case 2 => Decimal(r.temperature)
    case 3 => Whole(r.soc)
    case 4 => Word(r.status)
    case 5 => Word(r.voltStatus.value)
    case 6 => Word(r.currStatus.value)
    case 7 => Word(r.tempStatus.value)
    case 8 => Word("Normal")
    case 9 => Whole(r.batEvents.value)
    case 10 => Whole(r.powerEvents.value)
    case _ => Whole(r.sysFault.value)
  }

  /** The numbers in the block's value fields are shorter than the fields. */
  predicate BlockFits(b: Bms, id: nat) {
    var v := BlockShown(b, id);
    |IntText(v.voltage)| < 8 && |IntText(v.current)| < 8 && |IntText(v.temperature)| < 8 && |IntText(b.state.soc)| < 8
  }

  /** The number printed for field k. */
  function ReadNumber(b: Bms, id: nat, k: nat): int
    requires k < 4
  {
    var v := BlockShown(b, id);
    match k
    case 0 => v.voltage
    case 1 => v.current
    case 2 => v.temperature
    case _ => b.state.soc
  }

  lemma NumberEntry(b: Bms, id: nat, k: nat)
    requires k < 4
    ensures ReadEntry(b, id, k).value == IntText(ReadNumber(b, id, k))
    ensures IndexedValue(b, id, k)
         == if k < 3 then Decimal(Milli(ReadNumber(b, id, k))) else Whole(ReadNumber(b, id, k))
    ensures BlockFits(b, id) ==> |IntText(ReadNumber(b, id, k))| < 8
  {
  }

  lemma NumberEntryClean(b: Bms, id: nat, k: nat)
    requires BlockFits(b, id) && k < 4
    ensures CleanEntry(ReadEntry(b, id, k))
  {
    NumberEntry(b, id, k);
    IntTextWord(ReadNumber(b, id, k));
  }

  lemma StatusEntry(b: Bms, id: nat, k: nat)
    requires 4 <= k < 9
    ensures ReadEntry(b, id, k).unit == ""
    ensures IndexedValue(b, id, k) == Word(ReadEntry(b, id, k).value)
  {
  }

  lemma StatusEntryClean(b: Bms, id: nat, k: nat)
    requires 4 <= k < 9
    ensures CleanEntry(ReadEntry(b, id, k))
  {
    StatusEntry(b, id, k);
    WordsPlain(b.FaultOf(id), b.state.current);
  }

  /** The bits printed for event field k. */
  function EventBits(f: FaultKind, k: nat): string {
    if k == 9 then BatEventBits(f) else if k == 10 then PowerEventBits(f) else SysFaultBits(f)
  }

  function EventNumber(f: FaultKind, k: nat): int {
    if k == 9 then BatEventNumber(f)
    else if k == 10 then if f == OverCurrent then 1 else 0
    else if f == NoFault || f == MarkedAbsent then 0 else 1
  }

  lemma EventEntry(b: Bms, id: nat, k: nat)
    requires 9 <= k < 12
    ensures ReadEntry(b, id, k).value == EventBits(b.FaultOf(id), k) && ReadEntry(b, id, k).unit == ""
    ensures IndexedValue(b, id, k) == Whole(EventNumber(b.FaultOf(id), k))
  {
  }

  lemma EventEntryClean(b: Bms, id: nat, k: nat)
    requires 9 <= k < 12
    ensures CleanEntry(ReadEntry(b, id, k))
  {
    EventEntry(b, id, k);
  }

  /** The dict has the text printed for field k. */
  predicate RawHas(raw: RawFields, b: Bms, id: nat, k: nat)
    requires k < 12
  {
    |INDEXED_FIELDS| == 12 && INDEXED_FIELDS[k].key in raw && raw[INDEXED_FIELDS[k].key] == ReadEntry(b, id, k).value
  }

  lemma RawText(b: Bms, id: nat, k: nat)
    requires BlockFits(b, id) && k < 12
    ensures RawHas(Fields(EntryLines(Entries(b, id))), b, id, k)
  {
    EntriesDistinct(b, id);
    if k < 4 {
      NumberEntryClean(b, id, k);
    } else if k < 9 {
      StatusEntryClean(b, id, k);
    } else {
      EventEntryClean(b, id, k);
    }
    IndexedKey(k);
    PlaceKey(b, id, k);
    EntryKept(Entries(b, id), ReadPlace(k));
  }

  lemma {:induction false} NoPercent(s: string)
    requires '%' !in s
    ensures WithoutPercent(s) == s
  {
    if s != "" {
      NoPercent(s[1..]);
    }
  }

  lemma NumberTexts(n: int)
    requires Short(IntText(n))
    ensures MilliText(IntText(n)) == Ok(Decimal(Milli(n))) && PercentText(IntText(n)) == Ok(Whole(n))
  {
    IntTextReads(n);
    ShortIsFloat(n);
    IntTextPlain(n);
    NoPercent(IntText(n));
  }

  lemma OneHexDigit(s: string)
    requires |s| == 3 && s[0] == '0' && s[1] == 'x' && IsDigit(s[2])
    ensures NumberText(s) == Ok(Whole(s[2] as int - '0' as int))
  {
    StripWord(s);
    assert s[2..] == [s[2]] && [s[2]][1..] == "";
    assert ParseHex([s[2]], true, 0) == ParseHex([s[2]][1..], true, 16 * 0 + HexDigit(s[2]));
  }

  lemma TwoHexDigits(s: string)
    requires |s| == 4 && s[0] == '0' && s[1] == 'x' && IsDigit(s[2]) && IsDigit(s[3])
    ensures NumberText(s) == Ok(Whole(16 * (s[2] as int - '0' as int) + (s[3] as int - '0' as int)))
  {
    StripWord(s);
    var t, d := s[2..], HexDigit(s[2]);
    assert t == [s[2], s[3]] && t[1..] == [s[3]] && [s[3]][1..] == "";
    assert ParseHex(t, true, 0) == ParseHex(t[1..], true, 16 * 0 + d);
    assert ParseHex([s[3]], true, d) == ParseHex([s[3]][1..], true, 16 * d + HexDigit(s[3]));
  }

  lemma EventTexts(f: FaultKind, k: nat)
    ensures NumberText(EventBits(f, k)) == Ok(Whole(EventNumber(f, k)))
  {
    if k == 9 && (f == OverTemp || f == UnderTemp) {
      TwoHexDigits(EventBits(f, k));
    } else {
      OneHexDigit(EventBits(f, k));
    }
  }

  lemma {:induction false} TransformedField<F>(kv: KVField<F>, raw: RawFields, text: string, v: Value)
    requires kv.key in raw && raw[kv.key] == text && kv.transform.Some? && kv.transform.value(text) == Ok(v)
    ensures FieldValue(kv, raw) == Some(v)
  {
  }

  lemma {:induction false} WordField<F>(kv: KVField<F>, raw: RawFields, text: string)
    requires kv.key in raw && raw[kv.key] == text && kv.transform.None?
    ensures FieldValue(kv, raw) == Some(Word(text))
  {
  }

  lemma FieldTransform(k: nat)
    requires k < 12
    ensures |INDEXED_FIELDS| == 12
    ensures INDEXED_FIELDS[k].transform
         == if k < 3 then Some(MilliText) else if k == 3 then Some(PercentText) else if k < 9 then None else Some(NumberText)
  {
  }

  lemma NumberShown(b: Bms, id: nat, k: nat)
    requires BlockFits(b, id) && k < 4
    ensures var text := ReadEntry(b, id, k).value;
            (if k < 3 then MilliText(text) else PercentText(text)) == Ok(IndexedValue(b, id, k))
  {
    NumberEntry(b, id, k);
    NumberTexts(ReadNumber(b, id, k));
  }

  lemma EventShown(b: Bms, id: nat, k: nat)
    requires 9 <= k < 12
    ensures NumberText(ReadEntry(b, id, k).value) == Ok(IndexedValue(b, id, k))
  {
    EventEntry(b, id, k);
    EventTexts(b.FaultOf(id), k);
  }

  lemma FieldRead(b: Bms, id: nat, raw: RawFields, k: nat)
    requires BlockFits(b, id) && k < 12 && RawHas(raw, b, id, k)
    ensures FieldValue(INDEXED_FIELDS[k], raw) == Some(IndexedValue(b, id, k))
  {
    var text := ReadEntry(b, id, k).value;
    FieldTransform(k);
    if k < 4 {
      NumberShown(b, id, k);
      TransformedField(INDEXED_FIELDS[k], raw, text, IndexedValue(b, id, k));
    } else if k < 9 {
      StatusEntry(b, id, k);
      WordField(INDEXED_FIELDS[k], raw, text);
    } else {
      EventShown(b, id, k);
      TransformedField(INDEXED_FIELDS[k], raw, text, IndexedValue(b, id, k));
    }
  }

  // The battery of a block

  /** The values of the declared fields, and beside them those that came from outside the block. */
  lemma {:induction false} BlockValueIs<F>(fields: seq<KVField<F>>, raw: RawFields, extra: map<F, Value>, n: nat, k: nat)
    requires k < n <= |fields| && BlockValues(fields, raw, extra, n).Some?
    requires forall i, j :: 0 <= i < j < |fields| ==> fields[i].field != fields[j].field
    ensures FieldValue(fields[k], raw).Some?
    ensures var v := BlockValues(fields, raw, extra, n).value;
            fields[k].field in v && v[fields[k].field] == FieldValue(fields[k], raw).value
  {
    if k < n - 1 {
      BlockValueIs(fields, raw, extra, n - 1, k);
    }
  }

  lemma {:induction false} ExtraKept<F>(fields: seq<KVField<F>>, raw: RawFields, extra: map<F, Value>, n: nat, f: F)
    requires n <= |fields| && f in extra && BlockValues(fields, raw, extra, n).Some?
    requires forall i :: 0 <= i < |fields| ==> fields[i].field != f
    ensures var v := BlockValues(fields, raw, extra, n).value; f in v && v[f] == extra[f]
  {
    if n > 0 {
      ExtraKept(fields, raw, extra, n - 1, f);
    }
  }

  lemma {:induction false} AllFieldsGood<F>(fields: seq<KVField<F>>, raw: RawFields, extra: map<F, Value>, n: nat)
    requires n <= |fields| && forall k :: 0 <= k < n ==> FieldValue(fields[k], raw).Some?
    ensures BlockValues(fields, raw, extra, n).Some?
  {
    if n > 0 {
      AllFieldsGood(fields, raw, extra, n - 1);
    }
  }

  lemma IndexedDistinct()
    ensures forall i, j :: 0 <= i < j < |INDEXED_FIELDS| ==> INDEXED_FIELDS[i].field != INDEXED_FIELDS[j].field
    ensures forall i :: 0 <= i < |INDEXED_FIELDS| ==> INDEXED_FIELDS[i].field != BlockSysId
  {
  }

  predicate BlockHas(v: Values<BlockField>, f: BlockField, value: Value) {
    f in v && v[f] == value
  }

  /** The dict handed to the factory holds what was printed. */
  predicate BlockHolds(b: Bms, id: nat, v: Values<BlockField>) {
    && BlockHas(v, BlockSysId, Whole(id))
    && forall k :: 0 <= k < |INDEXED_FIELDS| && k < 12 ==> BlockHas(v, INDEXED_FIELDS[k].field, IndexedValue(b, id, k))
  }

  lemma {:induction false} PrintedValues(b: Bms, id: nat, raw: RawFields)
    requires BlockFits(b, id)
    requires forall k :: 0 <= k < 12 ==> RawHas(raw, b, id, k)
    ensures BlockValues(INDEXED_FIELDS, raw, map[BlockSysId := Whole(id)], |INDEXED_FIELDS|).Some?
    ensures BlockHolds(b, id, BlockValues(INDEXED_FIELDS, raw, map[BlockSysId := Whole(id)], |INDEXED_FIELDS|).value)
  {
    var extra := map[BlockSysId := Whole(id)];
    IndexedKey(0);
    forall k | 0 <= k < |INDEXED_FIELDS|
      ensures FieldValue(INDEXED_FIELDS[k], raw) == Some(IndexedValue(b, id, k))
    {
      assert RawHas(raw, b, id, k);
      FieldRead(b, id, raw, k);
    }
    AllFieldsGood(INDEXED_FIELDS, raw, extra, |INDEXED_FIELDS|);
    IndexedDistinct();
    ExtraKept(INDEXED_FIELDS, raw, extra, |INDEXED_FIELDS|, BlockSysId);
    var v := BlockValues(INDEXED_FIELDS, raw, extra, |INDEXED_FIELDS|).value;
    forall k | 0 <= k < |INDEXED_FIELDS| && k < 12
      ensures BlockHas(v, INDEXED_FIELDS[k].field, IndexedValue(b, id, k))
    {
      BlockValueIs(INDEXED_FIELDS, raw, extra, |INDEXED_FIELDS|, k);
    }
  }

  predicate HasReadings(v: Values<BlockField>, r: Battery) {
    && BlockHas(v, BlockSysId, Whole(r.sysId)) && BlockHas(v, BlockVoltage, Decimal(r.voltage))
    && BlockHas(v, BlockCurrent, Decimal(r.current)) && BlockHas(v, BlockTemperature, Decimal(r.temperature))
    && BlockHas(v, BlockSoc, Whole(r.soc)) && BlockHas(v, BlockStatus, Word(r.status))
  }

  predicate HasDetails(v: Values<BlockField>, r: Battery) {
    && r.voltStatus.Some? && BlockHas(v, BlockVoltStatus, Word(r.voltStatus.value))
    && r.currStatus.Some? && BlockHas(v, BlockCurrStatus, Word(r.currStatus.value))
    && r.tempStatus.Some? && BlockHas(v, BlockTempStatus, Word(r.tempStatus.value))
    && r.coulStatus.Some? && BlockHas(v, BlockCoulStatus, Word(r.coulStatus.value))
    && r.batEvents.Some? && BlockHas(v, BlockBatEvents, Whole(r.batEvents.value))
    && r.powerEvents.Some? && BlockHas(v, BlockPowerEvents, Whole(r.powerEvents.value))
    && r.sysFault.Some? && BlockHas(v, BlockSysFault, Whole(r.sysFault.value))
  }

  lemma HeldReadings(b: Bms, id: nat, v: Values<BlockField>)
    requires BlockHolds(b, id, v)
    ensures HasReadings(v, IndexedReading(b, id))
  {
    assert BlockHas(v, INDEXED_FIELDS[0].field, IndexedValue(b, id, 0));
    assert BlockHas(v, INDEXED_FIELDS[1].field, IndexedValue(b, id, 1));
    assert BlockHas(v, INDEXED_FIELDS[2].field, IndexedValue(b, id, 2));
    assert BlockHas(v, INDEXED_FIELDS[3].field, IndexedValue(b, id, 3));
    assert BlockHas(v, INDEXED_FIELDS[4].field, IndexedValue(b, id, 4));
  }

  lemma HeldDetails(b: Bms, id: nat, v: Values<BlockField>)
    requires BlockHolds(b, id, v)
    ensures HasDetails(v, IndexedReading(b, id))
  {
    assert BlockHas(v, INDEXED_FIELDS[5].field, IndexedValue(b, id, 5));
    assert BlockHas(v, INDEXED_FIELDS[6].field, IndexedValue(b, id, 6));
    assert BlockHas(v, INDEXED_FIELDS[7].field, IndexedValue(b, id, 7));
    assert BlockHas(v, INDEXED_FIELDS[8].field, IndexedValue(b, id, 8));
    assert BlockHas(v, INDEXED_FIELDS[9].field, IndexedValue(b, id, 9));
    assert BlockHas(v, INDEXED_FIELDS[10].field, IndexedValue(b, id, 10));
    assert BlockHas(v, INDEXED_FIELDS[11].field, IndexedValue(b, id, 11));
  }

  lemma ReadingsBuild(v: Values<BlockField>, r: Battery)
    requires HasReadings(v, r) && HasDetails(v, r)
    requires r.power == Power(r.voltage, r.current) && r.energyStored == 0.0 && r.cells == []
    requires r.tempLow == r.tempHigh == r.voltLow == r.voltHigh == None && r.battVoltStatus == r.battTempStatus == None
    ensures BuildBatteryFromPwrIndexed(v) == Ok(r)
  {
  }

  lemma {:induction false} BlockBuilds(b: Bms, id: nat, raw: RawFields)
    requires BlockFits(b, id)
    requires forall k :: 0 <= k < 12 ==> RawHas(raw, b, id, k)
    ensures BlockValues(INDEXED_FIELDS, raw, map[BlockSysId := Whole(id)], |INDEXED_FIELDS|).Some?
    ensures BuildBatteryFromPwrIndexed(BlockValues(INDEXED_FIELDS, raw, map[BlockSysId := Whole(id)], |INDEXED_FIELDS|).value)
         == Ok(IndexedReading(b, id))
  {
    PrintedValues(b, id, raw);
    var v := BlockValues(INDEXED_FIELDS, raw, map[BlockSysId := Whole(id)], |INDEXED_FIELDS|).value;
    HeldReadings(b, id, v);
    HeldDetails(b, id, v);
    ReadingsBuild(v, IndexedReading(b, id));
  }

  // The not-found marker

  /** "no" is nowhere in the text. */
  predicate NoNo(s: string) {
    forall i :: 0 <= i < |s| - 1 ==> !(s[i] == 'n' && s[i + 1] == 'o')
  }

  lemma {:induction false} NoNoLacksMarker(s: string)
    requires NoNo(s)
    ensures !Contains(s, NOT_FOUND)
  {
    if Contains(s, NOT_FOUND) {
      MarkerHasNo(s);
    }
  }

  lemma {:induction false} MarkerHasNo(s: string)
    requires Contains(s, NOT_FOUND)
    ensures !NoNo(s)
  {
    var i := FindIt(s, NOT_FOUND);
    assert s[i] == s[i..i + |NOT_FOUND|][0] && s[i + 1] == s[i..i + |NOT_FOUND|][1];
  }

  lemma NoNoJoin(s: string, t: string)
    requires NoNo(s) && NoNo(t) && (s == "" || s[|s| - 1] != 'n' || t == "" || t[0] != 'o')
    ensures NoNo(s + t)
  {
    var u := s + t;
    forall i | 0 <= i < |u| - 1
      ensures !(u[i] == 'n' && u[i + 1] == 'o')
    {
      if i < |s| - 1 {
        assert u[i] == s[i] && u[i + 1] == s[i + 1];
      } else if i >= |s| {
        assert u[i] == t[i - |s|] && u[i + 1] == t[i - |s| + 1];
      } else {
        assert u[i] == s[i] && u[i + 1] == t[0];
      }
    }
  }

  lemma NoLetterNoNo(s: string)
    requires 'n' !in s
    ensures NoNo(s)
  {
  }

  lemma FirstKeyNoNo(k: BlockKey)
    requires FirstKeys(k)
    ensures NoNo(KeyText(k))
  {
    if k == KBasic || k == KVolt || k == KPowerIn || k == KPowerOut { PowerKeyNoNo(k); } else { MeasureKeyNoNo(k); }
  }

  lemma PowerKeyNoNo(k: BlockKey)
    requires k == KBasic || k == KVolt || k == KPowerIn || k == KPowerOut
    ensures NoNo(KeyText(k))
  {
  }

  lemma MeasureKeyNoNo(k: BlockKey)
    requires FirstKeys(k) && k != KBasic && k != KVolt && k != KPowerIn && k != KPowerOut
    ensures NoNo(KeyText(k))
  {
  }

  lemma StatusKeyNoNo(k: BlockKey)
    requires StatusKeys(k)
    ensures NoNo(KeyText(k))
  {
    if k != KCurr {
      StatusKeyNoLetter(k);
    }
  }

  lemma StatusKeyNoLetter(k: BlockKey)
    requires StatusKeys(k) && k != KCurr
    ensures 'n' !in KeyText(k)
  {
  }

  lemma OtherKeyNoNo(k: BlockKey)
    requires !FirstKeys(k) && !StatusKeys(k)
    ensures NoNo(KeyText(k))
  {
    hide KeyText, NoNo;
    if k == KBatEvents || k == KPowerEvents || k == KSysFault { EventKeyNoNo(k); } else { GuardKeyNoNo(k); }
  }

  lemma EventKeyNoNo(k: BlockKey)
    requires k == KBatEvents || k == KPowerEvents || k == KSysFault
    ensures NoNo(KeyText(k))
  {
  }

  lemma GuardKeyNoNo(k: BlockKey)
    requires !FirstKeys(k) && !StatusKeys(k) && k != KBatEvents && k != KPowerEvents && k != KSysFault
    ensures NoNo(KeyText(k))
  {
  }

  lemma KeyNoNo(k: BlockKey)
    ensures NoNo(KeyText(k)) && NoNo(Left(KeyText(k), 16)) && |Left(KeyText(k), 16)| == 16
  {
    if FirstKeys(k) { FirstKeyNoNo(k); } else if StatusKeys(k) { StatusKeyNoNo(k); } else { OtherKeyNoNo(k); }
    KeyShape(k);
    var blanks := Spaces(16 - |KeyText(k)|);
    NoLetterNoNo(blanks);
    NoNoJoin(KeyText(k), blanks);
  }

  lemma ValueNoNo(s: string)
    requires NiceText(s)
    ensures NoNo(Left(s, 8)) && (Left(s, 8) != "" ==> Left(s, 8)[|Left(s, 8)| - 1] != 'n')
  {
    NiceOneLine(s);
    var blanks := Spaces(if |s| < 8 then 8 - |s| else 0);
    NoLetterNoNo(blanks);
    NoNoJoin(s, blanks);
    assert Left(s, 8) == s + blanks;
  }

  lemma EntryNoNo(e: Entry)
    requires NiceEntry(e)
    ensures NoNo(EntryLine(e))
  {
    var key, value := Left(KeyText(e.key), 16), Left(e.value, 8);
    KeyNoNo(e.key);
    ValueNoNo(e.value);
    NiceOneLine(e.unit);
    NoLetterNoNo(": ");
    NoNoJoin(key, ": ");
    NoNoJoin(key + ": ", value);
    NoNoJoin(key + ": " + value, e.unit);
  }

  lemma {:induction false} JoinNoNo(lines: seq<string>)
    requires forall i :: 0 <= i < |lines| ==> NoNo(lines[i])
    ensures NoNo(BlockJoin(lines))
  {
    if |lines| > 1 {
      JoinNoNo(lines[1..]);
      NoLetterNoNo("\r\n\r");
      NoNoJoin(lines[0], "\r\n\r");
      NoNoJoin(lines[0] + "\r\n\r", BlockJoin(lines[1..]));
    }
  }

  lemma BlockNoNo(id: nat, entries: seq<Entry>)
    requires NiceEntries(entries)
    ensures NoNo(BlockJoin(BlockLines(id, entries)))
  {
    var lines := BlockLines(id, entries);
    SepShape();
    PowerLine(id);
    forall i | 0 <= i < |lines|
      ensures NoNo(lines[i])
    {
      if 2 <= i < |lines| - 1 {
        assert NiceEntry(entries[i - 2]);
        EntryNoNo(entries[i - 2]);
      } else {
        NoLetterNoNo(lines[i]);
      }
    }
    JoinNoNo(lines);
  }

  lemma CompletedNoNo()
    ensures NoNo("Command completed successfully")
  {
  }

  lemma TailNoNo()
    ensures NoNo(TAIL)
  {
    CompletedNoNo();
    var end := "\r\n\r" + "$$" + "\r\n\r" + "pylon>";
    assert NoNo(end);
    assert TAIL == "Command completed successfully" + end;
    NoNoJoin("Command completed successfully", end);
  }

  lemma WrappedNoNo(cmd: string, body: string)
    requires 'n' !in cmd && NoNo(body)
    ensures NoNo(Wrap(cmd, body, true))
  {
    var front := cmd + "\n\r@\r" + "\n\r";
    NoLetterNoNo(front);
    TailNoNo();
    NoNoJoin(front, body);
    NoLetterNoNo("\r\n\r");
    NoNoJoin(front + body, "\r\n\r");
    NoNoJoin(front + body + "\r\n\r", TAIL);
  }

  // The three answers to "pwr N"

  lemma EntriesLackMarker(id: nat, entries: seq<Entry>)
    requires NiceEntries(entries)
    ensures !Contains(Wrap(IndexedCommand(id), BlockJoin(BlockLines(id, entries)), true), NOT_FOUND)
  {
    CommandShown(id);
    BlockNoNo(id, entries);
    WrappedNoNo(IndexedCommand(id), BlockJoin(BlockLines(id, entries)));
    NoNoLacksMarker(Wrap(IndexedCommand(id), BlockJoin(BlockLines(id, entries)), true));
  }

  lemma StateNotAbsent(current: int)
    ensures Lower(StateWord(current)) != "absent"
  {
    var s := StateWord(current);
    assert Lower(s)[0] == LowerChar(s[0]);
  }

  /** A present battery's block is read as its values. */
  lemma PresentBlock(b: Bms, id: nat)
    requires 1 <= id <= b.Count() && Present(b, id) && BlockFits(b, id)
    ensures !Contains(IndexedResponse(b, id), NOT_FOUND)
    ensures IndexedBattery(IndexedResponse(b, id), id) == Ok(Some(IndexedReading(b, id)))
  {
    var text, raw := IndexedResponse(b, id), Fields(EntryLines(Entries(b, id)));
    EntriesNice(b, id);
    EntriesLackMarker(id, Entries(b, id));
    ResponseFields(id, Entries(b, id));
    forall k | 0 <= k < 12
      ensures RawHas(raw, b, id, k)
    {
      RawText(b, id, k);
    }
    BlockBuilds(b, id, raw);
    StateNotAbsent(b.state.current);
    PrintedIsValid(b, id, raw);
    BlockIs(text, id, raw, IndexedReading(b, id));
  }

  lemma StatusShown(b: Bms, id: nat)
    ensures |INDEXED_FIELDS| == 12 && INDEXED_FIELDS[4].key == "Basic Status"
    ensures ReadEntry(b, id, 4).value == StateWord(b.state.current)
  {
  }

  lemma PrintedIsValid(b: Bms, id: nat, raw: RawFields)
    requires forall k :: 0 <= k < 12 ==> RawHas(raw, b, id, k)
    ensures raw != map[] && "Basic Status" in raw && raw["Basic Status"] == StateWord(b.state.current)
  {
    assert RawHas(raw, b, id, 4);
    StatusShown(b, id);
  }

  lemma {:induction false} BlockIs(text: string, id: nat, raw: RawFields, r: Battery)
    requires Fields(SplitLines(text)) == raw && raw != map[] && !Contains(text, NOT_FOUND)
    requires "Basic Status" in raw ==> Lower(raw["Basic Status"]) != "absent"
    requires BlockValues(INDEXED_FIELDS, raw, map[BlockSysId := Whole(id)], |INDEXED_FIELDS|).Some?
    requires BuildBatteryFromPwrIndexed(BlockValues(INDEXED_FIELDS, raw, map[BlockSysId := Whole(id)], |INDEXED_FIELDS|).value)
          == Ok(r)
    ensures IndexedBattery(text, id) == Ok(Some(r))
  {
  }

  lemma AbsentLower()
    ensures Lower("Absent") == "absent"
  {
  }

  /** An absent slot's block is no battery, but does not end the probing. */
  lemma AbsentBlock(b: Bms, id: nat)
    requires 1 <= id <= b.Count() && !Present(b, id)
    ensures !Contains(IndexedResponse(b, id), NOT_FOUND)
    ensures IndexedBattery(IndexedResponse(b, id), id) == Ok(None)
  {
    AbsentRaw();
    EntriesLackMarker(id, ABSENT_ENTRIES);
    ResponseFields(id, ABSENT_ENTRIES);
    AbsentIs(IndexedResponse(b, id), id, Fields(EntryLines(ABSENT_ENTRIES)));
  }

  lemma AbsentEntry()
    ensures |ABSENT_ENTRIES| == 1 && ABSENT_ENTRIES[0] == Entry(KBasic, "Absent", "") && IsWord("Absent") && NiceText("Absent")
  {
  }

  lemma {:induction false} OneEntry(entries: seq<Entry>, key: string, value: string)
    requires |entries| == 1 && NiceText(value) && IsWord(value) && KeyText(entries[0].key) == key
    requires entries[0].value == value && entries[0].unit == ""
    ensures NiceEntries(entries)
    ensures var raw := Fields(EntryLines(entries)); key in raw && raw[key] == value
  {
    EntryKept(entries, 0);
  }

  lemma AbsentRaw()
    ensures NiceEntries(ABSENT_ENTRIES)
    ensures var raw := Fields(EntryLines(ABSENT_ENTRIES)); "Basic Status" in raw && raw["Basic Status"] == "Absent"
  {
    AbsentEntry();
    OneEntry(ABSENT_ENTRIES, "Basic Status", "Absent");
  }

  lemma {:induction false} AbsentIs(text: string, id: nat, raw: RawFields)
    requires Fields(SplitLines(text)) == raw && "Basic Status" in raw && raw["Basic Status"] == "Absent"
    ensures IndexedBattery(text, id) == Ok(None)
  {
    AbsentLower();
  }

  /** An id past the last slot is answered with the marker. */
  lemma LostBlock(b: Bms, id: nat)
    requires id > b.Count()
    ensures Contains(IndexedResponse(b, id), NOT_FOUND)
  {
    var cmd, title := IndexedCommand(id), "Power " + IntText(id) + " ";
    var front, tail := cmd + "\n\r@\r" + "\n\r" + title, "\r\n\r" + TAIL;
    PrefixFound(NOT_FOUND + tail, NOT_FOUND);
    ContainsAfter(front, NOT_FOUND + tail, NOT_FOUND);
    MarkerShape(cmd, IntText(id));
  }

  lemma MarkerShape(cmd: string, n: string)
    ensures Wrap(cmd, "Power " + n + " not found", true)
         == cmd + "\n\r@\r" + "\n\r" + ("Power " + n + " ") + (NOT_FOUND + ("\r\n\r" + TAIL))
  {
    assert " not found" == " " + NOT_FOUND;
  }

  // When the block parser raises

  /** Field k raises OverflowError, and every field before it has a value. */
  predicate FieldStops<F>(fields: seq<KVField<F>>, raw: RawFields, k: nat)
    requires k < |fields|
  {
    FieldOverflows(fields[k], raw) && forall j :: 0 <= j < k ==> FieldValue(fields[j], raw).Some?
  }

  lemma {:induction false} BlockValuesIff<F>(fields: seq<KVField<F>>, raw: RawFields, extra: map<F, Value>, n: nat)
    requires n <= |fields|
    ensures BlockValues(fields, raw, extra, n).Some? <==> forall k :: 0 <= k < n ==> FieldValue(fields[k], raw).Some?
  {
    if n > 0 {
      BlockValuesIff(fields, raw, extra, n - 1);
    }
  }

  lemma {:induction false} BlockOverflowsIff<F>(fields: seq<KVField<F>>, raw: RawFields, extra: map<F, Value>, n: nat)
    requires n <= |fields|
    ensures BlockOverflows(fields, raw, extra, n) <==> exists k :: 0 <= k < n && FieldStops(fields, raw, k)
  {
    if n > 0 {
      BlockOverflowsIff(fields, raw, extra, n - 1);
      BlockValuesIff(fields, raw, extra, n - 1);
      if BlockValues(fields, raw, extra, n - 1).None? {
        var j :| 0 <= j < n - 1 && FieldValue(fields[j], raw).None?;
      } else {
        assert BlockOverflows(fields, raw, extra, n) <==> FieldStops(fields, raw, n - 1);
        GoodFieldsGoOn(fields, raw, n - 1);
      }
    }
  }

  lemma GoodFieldsGoOn<F>(fields: seq<KVField<F>>, raw: RawFields, n: nat)
    requires n <= |fields| && forall k :: 0 <= k < n ==> FieldValue(fields[k], raw).Some?
    ensures forall k :: 0 <= k < n ==> !FieldStops(fields, raw, k)
  {
    forall k | 0 <= k < n
      ensures !FieldStops(fields, raw, k)
    {
      assert FieldValue(fields[k], raw).Some?;
    }
  }

  /** The text under the key is a number no float is near. */
  predicate HugeText(raw: RawFields, key: string) {
    key in raw && ParseInt(raw[key]).Some? && BeyondFloat(ParseInt(raw[key]).value)
  }

  lemma FieldTooLarge(raw: RawFields, k: nat)
    requires k < 12
    ensures |INDEXED_FIELDS| == 12
    ensures FieldOverflows(INDEXED_FIELDS[k], raw) <==> k < 3 && HugeText(raw, INDEXED_FIELDS[k].key)
  {
  }

  /** What the builder cannot do without. */
  predicate HasNeeded(v: Values<BlockField>) {
    && BlockSysId in v && v[BlockSysId].Whole? && BlockVoltage in v && v[BlockVoltage].Decimal?
    && BlockCurrent in v && v[BlockCurrent].Decimal? && BlockTemperature in v && v[BlockTemperature].Decimal?
    && BlockSoc in v && v[BlockSoc].Whole? && BlockStatus in v && v[BlockStatus].Word?
  }

  lemma NeededBuild(v: Values<BlockField>)
    requires HasNeeded(v)
    ensures BuildBatteryFromPwrIndexed(v).Ok?
  {
  }

  lemma NeededFields()
    ensures |INDEXED_FIELDS| == 12
    ensures INDEXED_FIELDS[0].field == BlockVoltage && INDEXED_FIELDS[1].field == BlockCurrent
    ensures INDEXED_FIELDS[2].field == BlockTemperature && INDEXED_FIELDS[3].field == BlockSoc
    ensures INDEXED_FIELDS[4].field == BlockStatus
  {
  }

  /** The dict of any fields, when there is one, holds each field's value. */
  lemma {:induction false} AllHeld<F>(fields: seq<KVField<F>>, raw: RawFields, extra: map<F, Value>)
    requires BlockValues(fields, raw, extra, |fields|).Some?
    requires forall i, j :: 0 <= i < j < |fields| ==> fields[i].field != fields[j].field
    ensures forall k :: 0 <= k < |fields| ==>
              var f, v := fields[k].field, BlockValues(fields, raw, extra, |fields|).value;
              FieldValue(fields[k], raw).Some? && f in v && v[f] == FieldValue(fields[k], raw).value
  {
    forall k | 0 <= k < |fields|
      ensures var f, v := fields[k].field, BlockValues(fields, raw, extra, |fields|).value;
              FieldValue(fields[k], raw).Some? && f in v && v[f] == FieldValue(fields[k], raw).value
    {
      BlockValueIs(fields, raw, extra, |fields|, k);
    }
  }

  lemma {:induction false} BuilderNeeds(raw: RawFields, id: int)
    requires BlockValues(INDEXED_FIELDS, raw, map[BlockSysId := Whole(id)], |INDEXED_FIELDS|).Some?
    ensures BuildBatteryFromPwrIndexed(
              BlockValues(INDEXED_FIELDS, raw, map[BlockSysId := Whole(id)], |INDEXED_FIELDS|).value).Ok?
  {
    var extra := map[BlockSysId := Whole(id)];
    IndexedDistinct();
    ExtraKept(INDEXED_FIELDS, raw, extra, |INDEXED_FIELDS|, BlockSysId);
    AllHeld(INDEXED_FIELDS, raw, extra);
    NeededFields();
    FieldKinds(raw);
    NeededBuild(BlockValues(INDEXED_FIELDS, raw, extra, |INDEXED_FIELDS|).value);
  }

  /** What the fields that the builder needs hold, when they hold anything. */
  lemma FieldKinds(raw: RawFields)
    ensures |INDEXED_FIELDS| == 12
    ensures forall k :: 0 <= k < 3 && FieldValue(INDEXED_FIELDS[k], raw).Some? ==> FieldValue(INDEXED_FIELDS[k], raw).value.Decimal?
    ensures FieldValue(INDEXED_FIELDS[3], raw).Some? ==> FieldValue(INDEXED_FIELDS[3], raw).value.Whole?
    ensures FieldValue(INDEXED_FIELDS[4], raw).Some? ==> FieldValue(INDEXED_FIELDS[4], raw).value.Word?
  {
  }

  /** The block gets as far as its values. */
  predicate BlockIsRead(text: string) {
    var raw := Fields(SplitLines(text));
    !Contains(text, NOT_FOUND) && raw != map[] && !PwrIndexed().invalidIf(raw)
  }

  /** Parsing a block raises exactly when its voltage, current or temperature is a number no float is near and the ones
      before it are good. */
  lemma {:induction false} IndexedRaisesIff(text: string, id: int)
    ensures |INDEXED_FIELDS| == 12
    ensures IndexedBattery(text, id).Err? <==>
              && BlockIsRead(text)
              && exists k :: 0 <= k < 3 && HugeText(Fields(SplitLines(text)), INDEXED_FIELDS[k].key)
                            && forall j :: 0 <= j < k ==> FieldValue(INDEXED_FIELDS[j], Fields(SplitLines(text))).Some?
  {
    var raw, extra := Fields(SplitLines(text)), map[BlockSysId := Whole(id)];
    forall k | 0 <= k < 12
      ensures |INDEXED_FIELDS| == 12
      ensures FieldOverflows(INDEXED_FIELDS[k], raw) <==> k < 3 && HugeText(raw, INDEXED_FIELDS[k].key)
    {
      FieldTooLarge(raw, k);
    }
    BlockOverflowsIff(INDEXED_FIELDS, raw, extra, |INDEXED_FIELDS|);
    BlockValuesIff(INDEXED_FIELDS, raw, extra, |INDEXED_FIELDS|);
    if BlockValues(INDEXED_FIELDS, raw, extra, |INDEXED_FIELDS|).Some? {
      BuilderNeeds(raw, id);
      GoodFieldsGoOn(INDEXED_FIELDS, raw, |INDEXED_FIELDS|);
    }
    if BlockOverflows(INDEXED_FIELDS, raw, extra, |INDEXED_FIELDS|) {
      var k :| 0 <= k < |INDEXED_FIELDS| && FieldStops(INDEXED_FIELDS, raw, k);
      assert k < 3 && HugeText(raw, INDEXED_FIELDS[k].key);
    } else if k :| 0 <= k < 3 && HugeText(raw, INDEXED_FIELDS[k].key)
                   && forall j :: 0 <= j < k ==> FieldValue(INDEXED_FIELDS[j], raw).Some? {
      assert FieldStops(INDEXED_FIELDS, raw, k);
    }
  }

  /** A block of one line. */
  function HugeBlock(n: int): string {
    "Voltage" + Spaces(9) + ": " + IntText(n)
  }

  lemma HugeBlockLine(n: int)
    ensures SplitLines(HugeBlock(n)) == [HugeBlock(n)] && !Contains(HugeBlock(n), NOT_FOUND)
  {
    hide HugeBlock, SplitLines, NOT_FOUND;
    HugeBlockChars(n);
    LastLine(HugeBlock(n));
    LacksNeedle(HugeBlock(n), NOT_FOUND, 0);
  }

  lemma HugeBlockChars(n: int)
    ensures HugeBlock(n) != "" && OneLine(HugeBlock(n)) && NOT_FOUND != "" && NOT_FOUND[0] !in HugeBlock(n)
  {
    hide IntText;
    IntTextNice(n);
  }

  lemma {:induction false} HugeBlockField(n: int)
    ensures LineField(HugeBlock(n)) == Some(("Voltage", IntText(n)))
  {
    IntTextWord(n);
    SplitWord(IntText(n), "");
    assert IntText(n) + "" == IntText(n);
    KeyedLine(HugeBlock(n), "Voltage", 9, IntText(n));
  }

  lemma {:induction false} OneField(line: string, key: string, value: string)
    requires LineField(line) == Some((key, value))
    ensures Fields([line]) == map[key := value]
  {
    assert [line][..0] == [];
  }

  /** Whatever the number beyond floats that stands for the voltage, as long as int reads it. */
  lemma HugeBlockRaises(n: int, id: int)
    requires BeyondFloat(n) && |IntText(n)| <= MAX_STR_DIGITS
    ensures IndexedBattery(HugeBlock(n), id).Err?
  {
    HugeBlockLine(n);
    HugeBlockField(n);
    OneField(HugeBlock(n), "Voltage", IntText(n));
    IntTextReads(n);
    IndexedRaisesIff(HugeBlock(n), id);
    FirstKey();
    assert HugeText(Fields(SplitLines(HugeBlock(n))), INDEXED_FIELDS[0].key);
  }

  lemma FirstKey()
    ensures |INDEXED_FIELDS| == 12 && INDEXED_FIELDS[0].key == "Voltage" && "Basic Status" != "Voltage"
  {
  }

  /** There is such a block. */
  lemma HugeBlockVoltage(id: int)
    ensures IndexedBattery(HugeBlock(FLOAT_LIMIT), id).Err?
  {
    LimitIsRead();
    HugeBlockRaises(FLOAT_LIMIT, id);
  }
}
