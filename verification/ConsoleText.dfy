/** From the bytes on the wire to the text that a command returns, and on to the parser. */
module ConsoleText {
  import opened Search
  import opened Wrappers
  import opened Text
  import opened Table
  import opened Schemas
  import opened SchemaLaws
  import opened Stub
  import opened Rendering
  import opened PwrReading
  import opened RoundTrip
  import opened Console
  import opened ConsoleSync

  // Decoding

  lemma {:induction false} DecodeJoins(a: Bytes, b: Bytes)
    ensures Decode(a + b) == Decode(a) + Decode(b)
  {
    if a == [] {
      assert a + b == b;
    } else {
      assert (a + b)[1..] == a[1..] + b;
      DecodeJoins(a[1..], b);
    }
  }

  /** Bytes of 128 and above vanish. */
  lemma {:induction false} DecodeDrops(d: Bytes)
    requires forall i :: 0 <= i < |d| ==> d[i] >= 128
    ensures Decode(d) == ""
  {
    if d != [] {
      DecodeDrops(d[1..]);
    }
  }

  /** All others are characters, newlines and all. */
  lemma {:induction false} DecodeKeeps(d: Bytes)
    requires forall i :: 0 <= i < |d| ==> d[i] < 128
    ensures |Decode(d)| == |d| && forall i :: 0 <= i < |d| ==> Decode(d)[i] == d[i] as char
  {
    if d != [] {
      DecodeKeeps(d[1..]);
    }
  }

  predicate Ascii(text: string) {
    forall i :: 0 <= i < |text| ==> text[i] as int < 128
  }

  function Encoded(text: string): (d: Bytes)
    requires Ascii(text)
    ensures |d| == |text| && forall i :: 0 <= i < |d| ==> d[i] < 128 && d[i] as char == text[i]
  {
    seq(|text|, i requires 0 <= i < |text| => text[i] as int as byte)
  }

  lemma EncodedDecodes(text: string)
    requires Ascii(text)
    ensures Decode(Encoded(text)) == text
  {
    DecodeKeeps(Encoded(text));
  }

  lemma DecodesTo(d: Bytes, text: string)
    requires |d| == |text| && forall i :: 0 <= i < |d| ==> d[i] < 128 && d[i] as char == text[i]
    ensures Decode(d) == text
  {
    DecodeKeeps(d);
  }

  lemma PromptIs()
    ensures Decode(PROMPT) == "pylon>"
  {
    DecodesTo(PROMPT, "pylon>");
  }

  lemma AltTerminatorIs()
    ensures Decode(ALT_TERMINATOR) == "Command completed"
  {
    DecodesTo(ALT_TERMINATOR, "Command completed");
  }

  // A reply's text

  /** A text that ends in the prompt, with more before it but no other '>'. */
  predicate PromptedText(text: string) {
    var n := |text| - 6;
    Ascii(text) && n > 0 && text[n..] == "pylon>" && '>' !in text[..n]
  }

  /** The attempt brings the text's bytes and nothing else, in whatever chunks. */
  function Carrying(text: string, a: Attempt): Turn
    requires Ascii(text)
  {
    Turn(0, [], Encoded(text), Prompted, a)
  }

  /** All of it arrives in time. */
  predicate Carries(text: string, a: Attempt) {
    Ascii(text) && exists n :: 0 <= n <= |a.polls| && Delivered(Carrying(text, a), n) && OnTime(Carrying(text, a), n)
  }

  /** The link is open, or opens and gets through the banner. */
  predicate Opens(isOpen: bool, stray: bool, c: Call) {
    isOpen || (c.opening.Opened? && Read(stray, c.opening.start, c.opening.polls).result.Ok?)
  }

  lemma PromptBytes(d: Bytes, text: string)
    requires text == "pylon>" && |d| == |text| && forall i :: 0 <= i < |d| ==> d[i] as char == text[i]
    ensures d == PROMPT
  {
    forall i | 0 <= i < 6
      ensures d[i] == PROMPT[i]
    {
      assert PROMPT[i] as char == "pylon>"[i];
    }
  }

  lemma TextFormed(text: string, a: Attempt)
    requires PromptedText(text)
    ensures WellFormed(Carrying(text, a)) && InPlace(Carrying(text, a))
  {
    var d, n := Encoded(text), |text| - 6;
    PromptBytes(d[n..], text[n..]);
    forall i | 0 <= i < n
      ensures d[i] != 62
    {
      assert text[..n][i] == text[i];
    }
    LacksNeedle(d[..n], PROMPT, 5);
  }

  /** A command whose reply's text arrives in time, however it is cut into chunks, returns that very text, whether or not a
      straggler was pending; it writes once. */
  lemma TextIsReturned(text: string, c: Call, isOpen: bool, stray: bool)
    requires PromptedText(text) && Carries(text, AttemptAt(c, 0)) && Opens(isOpen, stray, c)
    ensures var (s, o) := Send(isOpen, stray, c); o && s.result == Ok(Encoded(text)) && s.writes == 1
    ensures Decode(Encoded(text)) == text
  {
    var a := AttemptAt(c, 0);
    var flag := if isOpen then stray else Read(stray, c.opening.start, c.opening.polls).stray;
    TextFormed(text, a);
    TurnInStep(Carrying(text, a), flag);
    EncodedDecodes(text);
  }

  // The emulator's table on the wire

  /** ASCII without the prompt's last character. */
  predicate Tame(text: string) {
    forall i :: 0 <= i < |text| ==> text[i] as int < 128 && text[i] != '>'
  }

  const TAME_FIELD: Showing := (f: Field, w: string) => Tame(f.value)

  lemma TameNumber(n: int)
    ensures Tame(IntText(n))
  {
    assert AllDigits(NatText(if n < 0 then -n else n));
  }

  lemma TameStates(current: int, f: FaultKind)
    ensures Tame(StateWord(current)) && Tame(Padded(AlarmWord(f)))
  {
  }

  lemma TameWords(f: FaultKind)
    ensures Tame(Padded(VoltWord(f))) && Tame(Padded(CurrWord(f))) && Tame(Padded(TempWord(f)))
  {
  }

  lemma TameRow(b: Bms, id: nat)
    requires Printable(b)
    ensures AllHold(TAME_FIELD, SlotFields(b, id, true), Words(b, id))
  {
    hide IntText, StateWord, VoltWord, CurrWord, TempWord, AlarmWord, Padded;
    forall n: int
      ensures Tame(IntText(n)) && Tame(IntText(n) + "%")
    {
      TameNumber(n);
    }
    TameStates(b.state.current, b.FaultOf(id));
    TameWords(b.FaultOf(id));
    if b.cfg.firmware == OldFirmware {
      OldRowHolds(TAME_FIELD, b, id);
    } else {
      NewRowHolds(TAME_FIELD, b, id);
    }
  }

  lemma TameAbsent(b: Bms, id: nat, j: nat)
    requires j < |SlotFields(b, id, false)|
    ensures Tame(SlotFields(b, id, false)[j].value)
  {
    hide IntText;
    TameNumber(id);
  }

  lemma TameHeader(fw: Firmware, j: nat)
    requires j < |Header(fw)|
    ensures Tame(Header(fw)[j].value)
  {
    if fw == OldFirmware { TameOldName(j); } else if j < 12 { TameNewName(j); } else { TameLaterName(j); }
  }

  lemma TameOldName(j: nat)
    requires j < |OLD_HEADER|
    ensures Tame(OLD_HEADER[j].value)
  {
  }

  lemma TameNewName(j: nat)
    requires j < 12
    ensures Tame(NEW_HEADER[j].value)
  {
  }

  lemma TameLaterName(j: nat)
    requires 12 <= j < |NEW_HEADER|
    ensures Tame(NEW_HEADER[j].value)
  {
  }

  lemma {:induction false} TameRender(fields: seq<Field>)
    requires forall i :: 0 <= i < |fields| ==> Tame(fields[i].value)
    ensures Tame(Render(fields))
  {
    if fields != [] {
      TameRender(fields[1..]);
    }
  }

  lemma TameSlot(b: Bms, id: nat, present: bool)
    requires Printable(b)
    ensures Tame(Render(SlotFields(b, id, present)))
  {
    var fields := SlotFields(b, id, present);
    if present {
      TameRow(b, id);
      assert forall j :: 0 <= j < |fields| ==> TAME_FIELD(fields[j], Words(b, id)[j]);
    } else {
      forall j | 0 <= j < |fields| ensures Tame(fields[j].value) { TameAbsent(b, id, j); }
    }
    TameRender(fields);
  }

  predicate AllTame(rows: seq<string>) {
    forall i :: 0 <= i < |rows| ==> Tame(rows[i])
  }

  lemma {:induction false} TameRows(b: Bms, n: nat)
    requires Printable(b)
    ensures AllTame(RowTexts(b, Format(b), n))
  {
    if n > 0 {
      TameRows(b, n - 1);
      TameSlot(b, n, Present(b, n));
    }
  }

  lemma {:induction false} TameJoin(rows: seq<string>)
    requires AllTame(rows)
    ensures Tame(Join(rows))
  {
    if |rows| > 1 {
      TameJoin(rows[1..]);
    }
  }

  lemma TameSum(a: string, b: string)
    requires Tame(a) && Tame(b)
    ensures Tame(a + b)
  {
  }

  lemma EnvelopeTame()
    ensures Tame("\n\r@\r" + "\r\n") && Tame("\r\n\r" + "Command completed successfully" + "\r\n\r" + "$$" + "\r\n\r")
  {
  }

  lemma WrapIs(cmd: string, body: string, up: string, down: string)
    requires up == "\n\r@\r" + "\r\n"
    requires down == "\r\n\r" + "Command completed successfully" + "\r\n\r" + "$$" + "\r\n\r"
    ensures Wrap(cmd, body, false) == cmd + up + body + down + "pylon>"
  {
  }

  lemma WrapEnds(cmd: string, body: string) returns (front: string)
    requires Tame(cmd) && Tame(body)
    ensures Wrap(cmd, body, false) == front + "pylon>" && Tame(front) && front != ""
  {
    hide Tame, Wrap;
    var up := "\n\r@\r" + "\r\n";
    var down := "\r\n\r" + "Command completed successfully" + "\r\n\r" + "$$" + "\r\n\r";
    EnvelopeTame();
    WrapIs(cmd, body, up, down);
    TameSum(cmd, up);
    TameSum(cmd + up, body);
    TameSum(cmd + up + body, down);
    front := cmd + up + body + down;
  }

  lemma FrontPrompted(front: string)
    requires Tame(front) && front != ""
    ensures PromptedText(front + "pylon>")
  {
    var text := front + "pylon>";
    assert text[..|front|] == front && text[|front|..] == "pylon>";
  }

  lemma TameTogether(header: string, rows: string)
    requires Tame(header) && Tame(rows)
    ensures Tame(header + "\r\r\n" + rows)
  {
  }

  lemma TameBody(b: Bms)
    requires Printable(b)
    ensures Tame(Render(Header(b.cfg.firmware)) + "\r\r\n" + Join(RowTexts(b, Format(b), b.Count())))
  {
    hide Header, Tame, RowTexts, Format, Render, Join;
    forall j | 0 <= j < |Header(b.cfg.firmware)| ensures Tame(Header(b.cfg.firmware)[j].value) {
      TameHeader(b.cfg.firmware, j);
    }
    TameRender(Header(b.cfg.firmware));
    TameRows(b, b.Count());
    TameJoin(RowTexts(b, Format(b), b.Count()));
    TameTogether(Render(Header(b.cfg.firmware)), Join(RowTexts(b, Format(b), b.Count())));
  }

  lemma TameCommand()
    ensures Tame("pwr")
  {
  }

  lemma PwrIsPrompted(b: Bms)
    requires Printable(b)
    ensures PromptedText(PwrResponse(b))
  {
    hide Tame, Wrap, PromptedText, Render, RowTexts, Join, Header, Format;
    TameBody(b);
    TameCommand();
    var front := WrapEnds("pwr", Render(Header(b.cfg.firmware)) + "\r\r\n" + Join(RowTexts(b, Format(b), b.Count())));
    FrontPrompted(front);
  }

  /** The two halves together: when the emulator's table arrives in time, in whatever chunks, the command returns it as it
      was printed, and parsing it gives exactly the batteries in the present slots. */
  method AskForTable(link: BmsConnection, ghost b: Bms, c: Call) returns (batteries: Result<seq<Battery>, Fault<PwrField>>)
    requires Opens(link.isOpen, link.strayPromptPending, c)
    requires Printable(b) && AllFit(b) && Carries(PwrResponse(b), AttemptAt(c, 0))
    modifies link
    ensures link.isOpen && batteries == Ok(Readings(b, b.Count()))
  {
    PwrIsPrompted(b);
    TextIsReturned(PwrResponse(b), c, link.isOpen, link.strayPromptPending);
    PwrRoundTrip(b);
    PwrSound();
    var text, _ := link.SendCommand(c);
    batteries := ParseTable(text.value, PwrTable());
  }
}
