/** The pwr table round trip: what the parser reads of what the emulator prints, in both firmware layouts. */
module RoundTrip {
  import opened Search
  import opened Wrappers
  import opened Text
  import opened Table
  import opened Schemas
  import opened Layout
  import opened Stub
  import opened Rendering
  import opened PwrReading
  import opened Response

  // The printed rows

  /** The characters of a printed date or clock time. */
  predicate Stamp(s: string) {
    s != "" && forall i :: 0 <= i < |s| ==> IsDigit(s[i]) || s[i] == '-' || s[i] == ':'
  }

  predicate Printable(b: Bms) {
    Stamp(b.draws.date) && Stamp(b.draws.clock)
  }

  function Words(b: Bms, id: nat): seq<string> {
    if b.cfg.firmware == OldFirmware then OldWords(b, id) else NewWords(b, id)
  }

  function OldWords(b: Bms, id: nat): seq<string> {
    OldRow(CellTexts(b, id), b.draws.date, b.draws.clock)
  }

  function OldRow(t: seq<string>, date: string, clock: string): seq<string>
    requires |t| == 16
  {
    [t[0], t[1], t[2], t[3], t[4], t[5], t[6], t[7], t[8], t[9], t[10], t[11], t[12], date, clock, t[14], t[15]]
  }

  function NewWords(b: Bms, id: nat): seq<string> {
    NewRow(CellTexts(b, id), b.draws.date, b.draws.clock,
           [IntText(b.draws.tlowId(id)), IntText(b.draws.thighId(id)), IntText(b.draws.vlowId(id)),
            IntText(b.draws.vhighId(id)), IntText(b.state.mostempr + b.draws.mosOffset(id)), "Normal",
            AlarmWord(b.FaultOf(id))])
  }

  function NewRow(t: seq<string>, date: string, clock: string, e: seq<string>): seq<string>
    requires |t| == 16 && |e| == 7
  {
    [t[0], t[1], t[2], t[3], t[4], e[0], t[5], e[1], t[6], e[2], t[7], e[3], t[8], t[9], t[10], t[11], t[12],
     date, clock, t[14], t[15], e[4], e[5], e[6]]
  }

  /** The field shows the word, on one line, without the letter that tells an absent row. */
  predicate Clean(f: Field, w: string) {
    Shows(f, w) && 'b' !in f.value && OneLine(f.value)
  }

  lemma PlainClean(w: string, width: nat)
    requires Plain(w)
    ensures Clean(Field(w, width), w)
  {
  }

  lemma NumClean(n: int, width: nat)
    ensures Clean(Num(n, width), IntText(n))
  {
    IntTextPlain(n);
    PlainClean(IntText(n), width);
  }

  lemma PercentClean(n: int, width: nat)
    ensures Clean(Field(IntText(n) + "%", width), IntText(n) + "%")
  {
    IntTextPlain(n);
  }

  lemma PaddedClean(w: string, width: nat)
    requires Plain(w)
    ensures Clean(Field(Padded(w), width), w)
  {
  }

  lemma StampClean(s: string, width: nat)
    requires Stamp(s)
    ensures Clean(Field(s, width), s)
  {
  }

  /** A property of a printed field and the word it shows. */
  type Showing = (Field, string) -> bool

  ghost predicate AllHold(p: Showing, fields: seq<Field>, words: seq<string>) {
    |fields| == |words| && forall j :: 0 <= j < |fields| ==> p(fields[j], words[j])
  }

  ghost predicate NumbersHold(p: Showing, b: Bms, id: nat) {
    var v := ShownBy(b.state, b.cfg.cells, b.FaultOf(id), TABLE_OVER_CURRENT);
    && p(Num(id, 6), IntText(id))
    && p(Num(v.voltage, 7), IntText(v.voltage)) && p(Num(v.current, 7), IntText(v.current))
    && p(Num(v.temperature, 7), IntText(v.temperature))
    && p(Num(v.tempLow, 7), IntText(v.tempLow)) && p(Num(v.tempHigh, 7), IntText(v.tempHigh))
    && p(Num(v.voltLow, 7), IntText(v.voltLow)) && p(Num(v.voltHigh, 7), IntText(v.voltHigh))
  }

  ghost predicate StatesHold(p: Showing, b: Bms, id: nat) {
    var f := b.FaultOf(id);
    && p(Field(StateWord(b.state.current), 9), StateWord(b.state.current))
    && p(Field(Padded(VoltWord(f)), 9), VoltWord(f)) && p(Field(Padded(CurrWord(f)), 9), CurrWord(f))
    && p(Field(Padded(TempWord(f)), 9), TempWord(f)) && p(Field(Padded(TempWord(f)), 8), TempWord(f))
    && p(Field(IntText(b.state.soc) + "%", 9), IntText(b.state.soc) + "%")
    && p(Field(b.draws.date, |b.draws.date| + 1), b.draws.date)
    && p(Field(b.draws.clock, |b.draws.clock| + 2), b.draws.clock)
  }

  ghost predicate ExtrasHold(p: Showing, b: Bms, id: nat) {
    var mos := b.state.mostempr + b.draws.mosOffset(id);
    && p(Num(b.draws.tlowId(id), 8), IntText(b.draws.tlowId(id)))
    && p(Num(b.draws.thighId(id), 9), IntText(b.draws.thighId(id)))
    && p(Num(b.draws.vlowId(id), 9), IntText(b.draws.vlowId(id)))
    && p(Num(b.draws.vhighId(id), 9), IntText(b.draws.vhighId(id)))
    && p(Num(mos, 10), IntText(mos))
    && p(Field("Normal", 9), "Normal")
    && p(Field(Padded(AlarmWord(b.FaultOf(id))), 8), AlarmWord(b.FaultOf(id)))
  }

  lemma OldRowHolds(p: Showing, b: Bms, id: nat)
    requires NumbersHold(p, b, id) && StatesHold(p, b, id)
    ensures AllHold(p, PresentOld(b, id), OldWords(b, id))
  {
    hide IntText, ShownBy, StateWord, VoltWord, CurrWord, TempWord;
  }

  lemma NewRowHolds(p: Showing, b: Bms, id: nat)
    requires NumbersHold(p, b, id) && StatesHold(p, b, id) && ExtrasHold(p, b, id)
    ensures AllHold(p, PresentNew(b, id), NewWords(b, id))
  {
    hide IntText, ShownBy, StateWord, VoltWord, CurrWord, TempWord;
  }

  lemma NumbersClean(b: Bms, id: nat)
    ensures NumbersHold(Clean, b, id)
  {
    var v := ShownBy(b.state, b.cfg.cells, b.FaultOf(id), TABLE_OVER_CURRENT);
    NumClean(id, 6);
    NumClean(v.voltage, 7);
    NumClean(v.current, 7);
    NumClean(v.temperature, 7);
    NumClean(v.tempLow, 7);
    NumClean(v.tempHigh, 7);
    NumClean(v.voltLow, 7);
    NumClean(v.voltHigh, 7);
  }

  lemma StatesClean(b: Bms, id: nat)
    requires Printable(b)
    ensures StatesHold(Clean, b, id)
  {
    var f := b.FaultOf(id);
    WordsPlain(f, b.state.current);
    PlainClean(StateWord(b.state.current), 9);
    PaddedClean(VoltWord(f), 9);
    PaddedClean(CurrWord(f), 9);
    PaddedClean(TempWord(f), 9);
    PaddedClean(TempWord(f), 8);
    PercentClean(b.state.soc, 9);
    StampClean(b.draws.date, |b.draws.date| + 1);
    StampClean(b.draws.clock, |b.draws.clock| + 2);
  }

  lemma ExtrasClean(b: Bms, id: nat)
    ensures ExtrasHold(Clean, b, id)
  {
    NumClean(b.draws.tlowId(id), 8);
    NumClean(b.draws.thighId(id), 9);
    NumClean(b.draws.vlowId(id), 9);
    NumClean(b.draws.vhighId(id), 9);
    NumClean(b.state.mostempr + b.draws.mosOffset(id), 10);
    PlainClean("Normal", 9);
    WordsPlain(b.FaultOf(id), 0);
    PaddedClean(AlarmWord(b.FaultOf(id)), 8);
  }

  lemma RowClean(b: Bms, id: nat)
    requires Printable(b)
    ensures AllHold(Clean, SlotFields(b, id, true), Words(b, id))
  {
    NumbersClean(b, id);
    StatesClean(b, id);
    if b.cfg.firmware == OldFirmware {
      OldRowHolds(Clean, b, id);
    } else {
      ExtrasClean(b, id);
      NewRowHolds(Clean, b, id);
    }
  }

  lemma {:induction false} CleanLine(fields: seq<Field>, words: seq<string>)
    requires AllHold(Clean, fields, words) && Fits(fields)
    ensures Split(Render(fields)) == words && OneLine(Render(fields)) && !Contains(Render(fields), "Absent")
  {
    forall j | 0 <= j < |fields|
      ensures Shows(fields[j], words[j]) && 'b' !in fields[j].value && OneLine(fields[j].value)
    {
      assert Clean(fields[j], words[j]);
    }
    SplitRender(fields, words);
    RenderLacks(fields, 'b');
    RenderOneLine(fields);
    LacksNeedle(Render(fields), "Absent", 1);
  }

  // What a line gives

  function PwrIndices(fw: Firmware): Indices<PwrField> {
    IndicesOver(PWR_COLUMNS, Names(Header(fw)))
  }

  lemma OldRowAt(t: seq<string>, date: string, clock: string, k: nat)
    requires |t| == 16 && k < 16 && k != 13
    ensures TokenOf(OldFirmware, k) < |OldRow(t, date, clock)|
    ensures OldRow(t, date, clock)[TokenOf(OldFirmware, k)] == t[k]
  {
  }

  lemma NewRowAt(t: seq<string>, date: string, clock: string, e: seq<string>, k: nat)
    requires |t| == 16 && |e| == 7 && k < 16 && k != 13
    ensures TokenOf(NewFirmware, k) < |NewRow(t, date, clock, e)|
    ensures NewRow(t, date, clock, e)[TokenOf(NewFirmware, k)] == t[k]
  {
  }

  lemma WordAt(b: Bms, id: nat, k: nat)
    requires k < 16 && k != 13
    ensures var p := TokenOf(b.cfg.firmware, k); p < |Words(b, id)| && Words(b, id)[p] == CellTexts(b, id)[k]
  {
    var t, date, clock := CellTexts(b, id), b.draws.date, b.draws.clock;
    if b.cfg.firmware == OldFirmware {
      OldRowAt(t, date, clock, k);
    } else {
      NewRowAt(t, date, clock,
               [IntText(b.draws.tlowId(id)), IntText(b.draws.thighId(id)), IntText(b.draws.vlowId(id)),
                IntText(b.draws.vhighId(id)), IntText(b.state.mostempr + b.draws.mosOffset(id)), "Normal",
                AlarmWord(b.FaultOf(id))], k);
    }
  }

  lemma RowLeads(b: Bms, id: nat)
    ensures Leads(b, id, PwrIndices(b.cfg.firmware), Words(b, id))
  {
    var fw := b.cfg.firmware;
    forall k | 0 <= k < 16 && k != 13
      ensures var f := PWR_COLUMNS[k].field;
              && f.Some? && f.value in PwrIndices(fw) && PwrIndices(fw)[f.value] < |Words(b, id)|
              && Words(b, id)[PwrIndices(fw)[f.value]] == CellTexts(b, id)[k]
    {
      FieldOf(k);
      FieldIndex(fw, k);
      WordAt(b, id, k);
    }
  }

  lemma FieldOf(k: nat)
    requires k < 16 && k != 13
    ensures PWR_COLUMNS[k].field.Some?
  {
  }

  lemma FirstWord(b: Bms, id: nat)
    ensures |Words(b, id)| > 10 && AllDigits(Words(b, id)[0])
  {
  }

  /** A present slot's line is read as the battery that stands behind it. */
  lemma PresentLine(b: Bms, id: nat)
    requires Printable(b) && Fits(SlotFields(b, id, true))
    ensures OneLine(Render(SlotFields(b, id, true)))
    ensures LineRow(PwrTable(), PwrIndices(b.cfg.firmware), Render(SlotFields(b, id, true))) == Built(Reading(b, id))
  {
    RowClean(b, id);
    CleanLine(SlotFields(b, id, true), Words(b, id));
    FirstWord(b, id);
    RowLeads(b, id);
    FitsShort(b, id);
    LeadsBuild(b, id, PwrIndices(b.cfg.firmware), Render(SlotFields(b, id, true)), Words(b, id));
  }

  lemma FitsShort(b: Bms, id: nat)
    requires Fits(SlotFields(b, id, true))
    ensures ShortNumbers(b, id)
  {
    forall k | 0 <= k < 16 && (k < 8 || k == 12)
      ensures Short(CellTexts(b, id)[k])
    {
      if b.cfg.firmware == OldFirmware { FitsOld(b, id, k); } else { FitsNew(b, id, k); }
    }
  }

  lemma FieldFits(fields: seq<Field>, p: nat, text: string)
    requires Fits(fields) && p + 1 < |fields| && fields[p].value == text && fields[p].width <= 9
    ensures Short(text)
  {
  }

  lemma FitsOld(b: Bms, id: nat, k: nat)
    requires Fits(PresentOld(b, id)) && (k < 8 || k == 12)
    ensures Short(CellTexts(b, id)[k])
  {
    FieldFits(PresentOld(b, id), k, CellTexts(b, id)[k]);
  }

  lemma FitsNew(b: Bms, id: nat, k: nat)
    requires Fits(PresentNew(b, id)) && (k < 8 || k == 12)
    ensures Short(CellTexts(b, id)[k])
  {
    hide IntText, ShownBy, Short;
    if k <= 4 {
      FieldFits(PresentNew(b, id), k, CellTexts(b, id)[k]);
    } else if k == 12 {
      FieldFits(PresentNew(b, id), 16, CellTexts(b, id)[12]);
    } else if k == 5 {
      FieldFits(PresentNew(b, id), 6, CellTexts(b, id)[5]);
    } else {
      ExtremeFits(b, id, k);
    }
  }

  lemma ExtremeFits(b: Bms, id: nat, k: nat)
    requires Fits(PresentNew(b, id)) && 6 <= k < 8
    ensures Short(CellTexts(b, id)[k])
  {
    hide IntText, ShownBy, Short;
    if k == 6 {
      FieldFits(PresentNew(b, id), 8, CellTexts(b, id)[6]);
    } else {
      FieldFits(PresentNew(b, id), 10, CellTexts(b, id)[7]);
    }
  }

  lemma {:induction false} LeadsBuild(b: Bms, id: nat, indices: Indices<PwrField>, line: string, words: Row)
    requires Leads(b, id, indices, words) && ShortNumbers(b, id) && Split(line) == words && !Contains(line, "Absent")
    requires |words| > 10 && AllDigits(words[0])
    ensures LineRow(PwrTable(), indices, line) == Built(Reading(b, id))
  {
    RowHolds(b, id, indices, words);
    HoldsBuilds(b, id, RowValues(PWR_COLUMNS, indices, words, |PWR_COLUMNS|).value);
  }

  predicate SomewhereAbsent(fields: seq<Field>) {
    exists k :: 0 <= k < |fields| && fields[k].value == "Absent"
  }

  lemma OldAbsent(id: nat)
    ensures OneLineFields(AbsentOld(id)) && SomewhereAbsent(AbsentOld(id))
  {
    hide IntText;
    IntTextPlain(id);
    assert AbsentOld(id)[8].value == "Absent";
  }

  lemma NewAbsent(id: nat)
    ensures OneLineFields(AbsentNew(id)) && SomewhereAbsent(AbsentNew(id))
  {
    hide IntText;
    IntTextPlain(id);
    assert AbsentNew(id)[12].value == "Absent";
  }

  lemma AbsentFields(b: Bms, id: nat)
    ensures OneLineFields(SlotFields(b, id, false)) && SomewhereAbsent(SlotFields(b, id, false))
  {
    if b.cfg.firmware == OldFirmware { OldAbsent(id); } else { NewAbsent(id); }
  }

  /** An absent slot's line is read as nothing. */
  lemma AbsentLine(b: Bms, id: nat, indices: Indices<PwrField>)
    ensures OneLine(Render(SlotFields(b, id, false)))
    ensures LineRow(PwrTable(), indices, Render(SlotFields(b, id, false))) == NoRow
  {
    AbsentFields(b, id);
    var fields := SlotFields(b, id, false);
    RenderOneLine(fields);
    var k :| 0 <= k < |fields| && fields[k].value == "Absent";
    RenderContains(fields, k);
  }

  // Headers

  lemma EarlyName(k: nat)
    requires k < 8
    ensures PWR_COLUMNS[k].headerTokens != [] && IsWord(PWR_COLUMNS[k].headerTokens[0])
  {
  }

  lemma LateName(k: nat)
    requires 8 <= k < 16
    ensures PWR_COLUMNS[k].headerTokens != [] && IsWord(PWR_COLUMNS[k].headerTokens[0])
  {
  }

  lemma ExtraWord(i: nat)
    requires i < |EXTRA_NAMES|
    ensures IsWord(EXTRA_NAMES[i])
  {
  }

  lemma HeaderWord(fw: Firmware, j: nat)
    requires j < |Header(fw)|
    ensures IsWord(Header(fw)[j].value)
  {
    if fw == OldFirmware {
      OldItem(j);
      if j < 8 { EarlyName(j); } else { LateName(j); }
    } else {
      NewItem(j);
      if IsNewSlot(j) {
        if NewColumn(j) < 8 { EarlyName(NewColumn(j)); } else { LateName(NewColumn(j)); }
      } else {
        NewExtra(j);
        var i :| 0 <= i < |EXTRA_NAMES| && EXTRA_NAMES[i] == NEW_HEADER[j].value;
        ExtraWord(i);
      }
    }
  }

  lemma HeaderFits(fw: Firmware)
    ensures Fits(Header(fw)) && OneLineFields(Header(fw))
  {
    forall j | 0 <= j < |Header(fw)|
      ensures OneLine(Header(fw)[j].value)
    {
      HeaderWord(fw, j);
    }
  }

  lemma {:induction false} WordsShow(fields: seq<Field>)
    requires forall j :: 0 <= j < |fields| ==> IsWord(fields[j].value)
    ensures AllShow(fields, Names(fields)) && OneLineFields(fields)
  {
  }

  lemma HeaderSplits(fw: Firmware)
    ensures Split(Render(Header(fw))) == Names(Header(fw)) && OneLine(Render(Header(fw)))
  {
    HeaderFits(fw);
    forall j | 0 <= j < |Header(fw)|
      ensures IsWord(Header(fw)[j].value)
    {
      HeaderWord(fw, j);
    }
    WordsShow(Header(fw));
    SplitRender(Header(fw), Names(Header(fw)));
    RenderOneLine(Header(fw));
  }

  lemma {:induction false} NamesMatch<F, T>(schema: TableSchema<F, T>, fields: seq<Field>, k: nat)
    requires k < |fields| && fields[0].value == schema.headerFirstToken && fields[k].value == schema.headerMustContain
    ensures MatchesHeader(schema, Names(fields))
  {
    assert Names(fields)[k] == schema.headerMustContain;
  }

  lemma HeaderMatches(fw: Firmware)
    ensures MatchesHeader(PwrTable(), Names(Header(fw)))
  {
    NamesMatch(PwrTable(), Header(fw), if fw == OldFirmware then 12 else 16);
  }

  lemma HeaderQuiet(fw: Firmware)
    ensures Quiet(Render(Header(fw)))
  {
    QuietStart(Header(fw), "Power");
  }

  // The whole response

  /** Every value on the row of a present slot is shorter than its column. */
  predicate AllFit(b: Bms) {
    forall id :: 1 <= id <= b.Count() && Present(b, id) ==> Fits(SlotFields(b, id, true))
  }

  lemma SlotOneLine(b: Bms, id: nat)
    requires Printable(b) && AllFit(b) && 1 <= id <= b.Count()
    ensures OneLine(Format(b)(id, Present(b, id)))
  {
    if Present(b, id) {
      PresentLine(b, id);
    } else {
      AbsentLine(b, id, map[]);
    }
  }

  /** What the parser makes of a slot's line. */
  function SlotRow(b: Bms, id: nat): LineResult<PwrField, Battery>
    requires id >= 1
  {
    if Present(b, id) then Built(Reading(b, id)) else NoRow
  }

  lemma SlotLine(b: Bms, id: nat)
    requires Printable(b) && AllFit(b) && 1 <= id <= b.Count()
    ensures LineRow(PwrTable(), PwrIndices(b.cfg.firmware), Format(b)(id, Present(b, id))) == SlotRow(b, id)
  {
    if Present(b, id) {
      PresentLine(b, id);
    } else {
      AbsentLine(b, id, PwrIndices(b.cfg.firmware));
    }
  }

  lemma {:induction false} RowsOneLine(b: Bms, n: nat)
    requires Printable(b) && AllFit(b) && n <= b.Count()
    ensures AllOneLine(RowTexts(b, Format(b), n))
  {
    if n > 0 {
      RowsOneLine(b, n - 1);
      SlotOneLine(b, n);
    }
  }

  function SlotRows(b: Bms, n: nat): (r: seq<LineResult<PwrField, Battery>>)
    ensures |r| == n
  {
    if n == 0 then [] else SlotRows(b, n - 1) + [SlotRow(b, n)]
  }

  lemma {:induction false} SlotsCollected(b: Bms, n: nat)
    ensures Collected(SlotRows(b, n)) == Readings(b, n)
  {
    if n > 0 {
      SlotsCollected(b, n - 1);
      assert SlotRows(b, n)[..n - 1] == SlotRows(b, n - 1);
    }
  }

  lemma {:induction false} SlotsGive(
    b: Bms, schema: TableSchema<PwrField, Battery>, indices: Indices<PwrField>, row: RowFormat, n: nat)
    requires forall id :: 1 <= id <= n ==> LineRow(schema, indices, row(id, Present(b, id))) == SlotRow(b, id)
    ensures Give(schema, indices, RowTexts(b, row, n), SlotRows(b, n))
  {
    if n > 0 {
      SlotsGive(b, schema, indices, row, n - 1);
    }
  }

  lemma {:induction false} AllSlotsGive(b: Bms)
    requires Printable(b) && AllFit(b)
    ensures Give(PwrTable(), PwrIndices(b.cfg.firmware), RowTexts(b, Format(b), b.Count()), SlotRows(b, b.Count()))
  {
    forall id | 1 <= id <= b.Count()
      ensures LineRow(PwrTable(), PwrIndices(b.cfg.firmware), Format(b)(id, Present(b, id))) == SlotRow(b, id)
    {
      SlotLine(b, id);
    }
    SlotsGive(b, PwrTable(), PwrIndices(b.cfg.firmware), Format(b), b.Count());
  }

  lemma PwrNumberFirst()
    ensures NumberFirst(PwrTable())
  {
  }

  lemma PwrEcho()
    ensures Echo(PwrTable(), "pwr")
  {
  }

  lemma {:induction false} HeaderIndicesAre<F, T>(schema: TableSchema<F, T>, header: string, parts: Row)
    requires Split(header) == parts && MatchesHeader(schema, parts) && HeaderIndices(schema, parts).Ok?
    ensures TableIndices(schema, [header])
         == Ok(Defaults(schema.columns, |schema.columns|) + HeaderIndices(schema, parts).value)
  {
  }

  lemma PwrHeaderIndices(fw: Firmware)
    ensures TableIndices(PwrTable(), [Render(Header(fw))]) == Ok(PwrIndices(fw))
  {
    hide Render, Split, TableIndices, Walk, MatchesHeader, Defaults, Names;
    HeaderSplits(fw);
    HeaderMatches(fw);
    HeaderIndicesAre(PwrTable(), Render(Header(fw)), Names(Header(fw)));
  }

  /** For every state, fault dict and topology of the emulator, and either firmware: when each printed value is shorter
      than its column, parsing the printed table gives exactly the present slots, in ascending id order, with the values
      that were printed. */
  lemma {:induction false} PwrRoundTrip(b: Bms)
    requires Printable(b) && AllFit(b)
    ensures TableRows(PwrTable(), PwrResponse(b)) == Ok(Readings(b, b.Count()))
  {
    var fw := b.cfg.firmware;
    PwrNumberFirst();
    PwrEcho();
    HeaderSplits(fw);
    HeaderMatches(fw);
    HeaderQuiet(fw);
    RowsOneLine(b, b.Count());
    PwrHeaderIndices(fw);
    AllSlotsGive(b);
    SlotsCollected(b, b.Count());
    ResponseRows(PwrTable(), "pwr", Render(Header(fw)), PwrIndices(fw), RowTexts(b, Format(b), b.Count()), SlotRows(b, b.Count()));
  }
}
