# Verified model of the Pylontech MQTT sidecar and integration

A Dafny model of three programs and the contracts between them: the sidecar that reads a Pylontech battery
console and publishes MQTT messages (`src/`), the Home Assistant integration that receives them
(`custom_components/pylontech_mqtt/`), and the console emulator that prints what the sidecar parses
(`scripts/pylon_stub.py`). One loop of the dependency updater is modelled beside them.

`dafny verify dfyconfig.toml` checks everything.

## How it is built

Code that changes things step by step is imperative here as well: classes with the source's fields
(`BmsConnection`, `EnergyTracker`, `Sidecar`, `PylontechCoordinator`, `Integration`) and methods with the source's
loops. Each method is proved against a specification function or predicate, and the results are lemmas about that
specification.

- **Console link** (`Console`, `ConsoleSync`, `ConsoleText`). A read is a function of its script: what every poll
  returned and what the clock read. The results hold for every chunking and every timing, up to the text a command
  returns.
- **Energy** (`Energy`, `EnergyLaws`, `EnergyRuns`, `Checkpoint`). Exact real arithmetic over runs of samples and gaps;
  the state file and its temporary file are a disk on which a crash can fall between any two steps of a save.
- **Parser and printer** (`Text`, `Table`, `Schemas`, `Layout`, `SchemaLaws`, `LayoutLaws`, `KeyValue`; `Stub`, `StubBlock`;
  `Rendering`, `Response`, `PwrReading`, `RoundTrip`, `BatRoundTrip`, `IndexedRoundTrip`, `Discovery`). Character-level
  round trips between the emulator's formatting and the parser's splitting. `Spelling`, `RowReading`, `BlockReading` and
  `Measures` say independently of the parser's functions what is read of any text; `EmulatorValues` says in volts, amperes
  and degrees what the emulator shows.
- **Poll loop** (`PollLoop`, `CycleReading`, `PollRuns`, `EmulatorCycle`, `EndToEnd`, `Arrival`). One cycle is a function of
  everything the world answers in it; runs are sequences of cycles in which anything may fail. `CycleReading` says, without
  that function, which batteries a cycle reads.
- **Coordinator** (`Payload`, `Coordinator`, `Entities`, `Staleness`, `Margin`). The payload gate over decoded JSON, and
  availability as a state machine over all interleavings of the two threads and the watchdog.
- **Identity** (`Identity`, `IdentityLaws`) and **release candidates** (`Candidates`).

`Search` (where a sequence stands in another one), `Rounding` and `Wrappers` serve all of them.

## What turned out to matter

Several properties hold only under a condition a caller can check; the model states the condition and proves it exact.

- A stray prompt is stripped only at the very front of the data (`src/main.py:291`), although the comment on
  `src/main.py:216-217` says wherever it shows up. One that comes behind the first byte of the next reply, or behind
  other leftover bytes, is taken for that reply's own prompt (`StragglerInside`, `StragglerTooLate`). A reply that is
  nothing but its prompt is itself stripped while one is pending (`TurnBare`). `Synchronised` says exactly which
  stragglers and which replies are harmless, wherever they come.
- A bat header whose SOC label is not spelled in capitals is matched by the column walk but not by the header hook, so
  both the state of charge and the capacity are then read one token too far (`SocReadWhenSpelled`, `SmallSocMisread`).
- A column that a header leaves out is read from its default place, which is another column's exactly when the header
  puts that one there (`MissingColumnReadsAnother`, `ThighReadForTlow`).
- A whole number of 2 ** 1024 - 2 ** 970 or more in a column of thousandths raises an OverflowError that the row loop
  does not catch: the whole response is lost instead of the row (`PwrRaisesIff`, `BatRaisesIff`, `IndexedRaisesIff`;
  `HugeVoltageRaises` and `HugeBlockVoltage` are such texts).
- An overcurrent fault is capped differently by the emulator's two responses, so that the two discovery paths agree on
  the system totals exactly when no battery has such a fault (`SameMeasures`, `PathsAgree`, `PathsDisagree`).
- An "online" already in the event loop's queue when the watchdog marks the coordinator unavailable makes it available
  again (`QueuedOnlineRestores`). Once judged stale, only an accepted payload restores it exactly when no such callback
  waits (`StaysDownIff`), which is so for good after one queue latency (`StaleBeyondLatency`), and always with immediate
  delivery (`OnlyValidRestores`).
- A payload whose specification is neither text nor empty passes validation and then fails where it is searched
  (`GateIsExact`, `NumericSpecFails`).
- Renaming identities keeps every suffix exactly when the topic does not begin with the stack id and a separator
  (`SuffixesKeptIff`, `EmbeddingTopic`).

## Conventions

Floats are exact reals and `round` is half-to-even on them. Texts are ASCII. Field names of the source's dicts are the
constructors of an enumeration. A clock is a number passed in; a read script that ends stands for the read deadline.
The emulator's seeded random draws are functions of the battery and cell numbers. What the broker, the sockets, the
serial port and the file system do is an argument of the step that meets it. Exceptions are `Result` values. `int` gives
up on more than 4300 digits, and dividing a whole number of 2 ** 1024 - 2 ** 970 or more by a float raises.

## Model

| member | source | states |
|---|---|---|
| Console.BmsConnection.StripStrayPrompt | src/main.py:289-298 | strips at most one prompt, only from the very front, only while one is pending, and then none is pending |
| Console.BmsConnection.ReadUntilPrompt | src/main.py:258-311 | the loop over any script of polls returns what the step function says, including both terminators, the grace window, end of file and the deadline |
| Console.BmsConnection.SendOnOpenLink | src/main.py:348-366 | retries only after a timeout, at most twice, and ends as the first attempt that did not time out |
| Console.BmsConnection.SendCommand | src/main.py:331-366 | opens when needed, writes at most three times, leaves the pending flag as the specification says on every path, and returns the decoded bytes of the read that succeeded; what decoding and each path come to is in the `ConsoleText` and `ConsoleSync` rows below |
| Console.BmsConnection.Close | src/main.py:368-377 | a closed link has no prompt pending |
| ConsoleText.DecodeKeeps | src/main.py:354-354 | bytes below 128 become the same characters, one each and in order, newlines among them |
| ConsoleText.DecodeDrops | src/main.py:354-354 | bytes of 128 and above vanish |
| ConsoleText.DecodeJoins | src/main.py:354-354 | decoding the whole is decoding the parts, so the two facts above settle every input |
| ConsoleText.TextIsReturned | src/main.py:258-354 | a reply text that arrives in time, however it is cut into chunks and whether or not a straggler was pending, is what the command returns, character by character, after one write |
| ConsoleText.AskForTable | src/main.py:858-867 | both halves joined: the emulator's table on the wire, in any chunks, asked for by the command and parsed, gives exactly the batteries in the present slots |
| ConsoleSync.FirstAnswerCounts | src/main.py:342-366 | a command ends as the first of at most three attempts that does not time out, whatever else goes wrong in it, with the flag that attempt leaves; when all three time out it is a timeout |
| ConsoleSync.WritesOnceOpen | src/main.py:331-353 | something is written if and only if the link was open, or was opened and its banner read; a banner that fails leaves the link open |
| ConsoleSync.DeadlineIs | src/main.py:190-271 | a reply in one chunk counts if and only if the loop gets to it less than 5 seconds after the command |
| ConsoleSync.GraceIs | src/main.py:190-306 | a reply without its prompt counts if and only if 0.3 seconds have gone by since its terminator was seen, and a prompt is then pending |
| ConsoleSync.Synchronised | src/main.py:258-366 | over any run, chunking and timing, with a straggler anywhere in a reply and behind any leftover bytes: every call returns exactly its own reply if and only if every straggler comes bare at the very front, after a reply accepted without its prompt and with no other front straggler between, or stands in for its reply's own prompt at the end of a chunk, and no reply that is nothing but its prompt comes while a straggler is due |
| ConsoleSync.StragglerInside | src/main.py:216-219 | a bare straggler with some of a reply's text on either side of it never leaves the reply, whatever the flag says |
| ConsoleSync.TurnMisplaced | src/main.py:289-300 | the read takes a straggler that is not bare at the front for the command's own prompt, and leaves the flag alone |
| ConsoleSync.MisplacedReply | src/main.py:299-300 | what it returns is the reply exactly when the bytes before the straggler are all of the reply and a chunk ends right behind it |
| ConsoleSync.StragglerTooLate | src/main.py:216-219 | a run that loses step: the straggler is due, but comes behind the first byte of the next reply |
| ConsoleSync.LosesStep | src/main.py:216-219 | nor does it help what the run has been before |
| ConsoleSync.NextReplyOnly | src/main.py:208-219 | when a straggler only ever comes right after the reply it belongs to, bare and at the very front, and no reply is nothing but its prompt while one is due, every call returns its own reply, even while the flag is stale-true |
| ConsoleSync.TurnInStep | src/main.py:258-311 | one call with more to its reply than the prompt, whose straggler can be stripped, returns its own reply and leaves the flag as described |
| ConsoleSync.TurnBare | src/main.py:291-298 | a reply that is nothing but its prompt is returned if and only if no prompt is pending, and none is pending after it |
| ConsoleSync.TurnOutOfStep | src/main.py:289-300 | a straggler that comes while the flag is down is taken for the reply |
| ConsoleSync.ReadConserves | src/main.py:258-311 | for any script: a returned read is the concatenated chunks less at most one leading prompt and holds a terminator that was due; a timeout means no unstripped prompt was seen at any check |
| ConsoleSync.PromptOnlyAtEnd | src/main.py:291-300 | no proper part of the prompt can begin another one, so a reply body free of prompts has one only at its end |
| ConsoleSync.StrippedWithinAccepted | src/main.py:289-306 | over every run of commands, retries, reopenings and closings, whatever arrives and when, no more prompts are stripped than replies were accepted without theirs |
| ConsoleSync.SendBalance | src/main.py:342-366 | one command, its retries included, keeps that balance, the pending prompt counted |
| Energy.EnergyTracker.constructor | src/main.py:399-447 | starts from the state file when it holds two counters that are not negative, and from zero otherwise |
| Energy.EnergyTracker.Save | src/main.py:449-473 | the disk, the dirty mark and the save time after each point at which the save can stop |
| Energy.EnergyTracker.IntegrateSegment | src/main.py:526-539 | adds the trapezoid to one counter, by the sign of the mean power |
| Energy.EnergyTracker.Integrate | src/main.py:505-524 | splits an interval with a sign change at its interpolated crossing |
| Energy.EnergyTracker.Update | src/main.py:475-494 | the tracker's whole state after a sample, which the rows of `EnergyRuns.UpdateAdds` and `EnergyRuns.UpdateSaves` spell out in watts and seconds |
| Energy.EnergyTracker.Flush | src/main.py:496-503 | saves when anything is unsaved |
| Energy.EnergyTracker.InvalidateLastTime | src/main.py:541-549 | makes the next sample the first |
| EnergyRuns.UpdateAdds | src/main.py:475-494 | when the last sample is more than zero and at most 3600 seconds old, the counters' difference grows by the mean power times the seconds / 3600000; after a gap, a longer time or no time, neither counter moves |
| EnergyRuns.UpdateSaves | src/main.py:478-487 | the disk is touched if and only if the interval was counted, there is a file and 300 seconds have passed since the last save that went through |
| EnergyRuns.FlushSaves | src/main.py:496-503 | a flush writes what is unsaved, if there is a file, and otherwise changes nothing |
| EnergyLaws.IntervalNet | src/main.py:505-539 | the two counters of an interval differ by its signed trapezoid, sign change or not |
| EnergyLaws.IntervalPeak | src/main.py:505-539 | together they are at most the larger power held throughout |
| EnergyLaws.IntervalNegated | src/main.py:505-539 | negating the samples swaps the counters |
| EnergyLaws.IntervalSplits | src/main.py:505-539 | an interpolated sample changes neither counter, wherever the crossing falls |
| EnergyRuns.EnergyConserved | src/main.py:475-539 | over any run the counters' difference is the sum, over the consecutive samples more than zero and at most 3600 seconds apart, of mean power times seconds / 3600000; neither counter shrinks, and together they stay below peak power times time over those same intervals |
| EnergyRuns.ReversalSwaps | src/main.py:475-539 | reversing every sample of a run swaps what it adds to the counters |
| EnergyRuns.RefinementKeepsEnergy | src/main.py:475-539 | any number of interpolated samples inserted in counted intervals leaves both counters exactly unchanged |
| Checkpoint.OldOrNew | src/main.py:449-473 | at every step of a save the state file is the old or the new complete content |
| Checkpoint.SaveRenames | src/main.py:449-473 | the temporary file is emptied, then complete, and then is the state file, which until then is untouched |
| Checkpoint.RunSafe | src/main.py:410-503 | over every run the file never holds more than the counters, and exactly them when nothing is unsaved |
| Checkpoint.CrashSafe | src/main.py:410-473 | a crash at any step of a save restarts with counters neither above those before it nor below the last checkpoint |
| Checkpoint.FlushIsExact | src/main.py:496-503 | after a flush that goes through, a restart is exact |
| Checkpoint.LossBounded | src/main.py:475-494 | when saves go through, a crash loses at most the power bound held for 300 seconds and one save's delay |
| Rounding.HalfEven | src/parser_schema.py:57-57 | the nearest whole number, ties to the even one |
| Rounding.RoundMonotone | src/parser_schema.py:75-78 | rounding keeps order |
| Rounding.RoundWithin | src/parser_schema.py:77-77 | rounding stays within whole-numbered bounds |
| Rounding.RoundApart | src/parser_schema.py:76-76 | sums two or more apart stay apart |
| Rounding.GridFixed | custom_components/pylontech_mqtt/coordinator.py:470-471 | rounding what has no more digits changes nothing |
| Measures.TablePower | src/parser_schema.py:57-57 | in whatever table is parsed, every battery's power is a whole number of hundredths within 0.005 of its voltage times its current |
| Measures.BlockPower | src/parser_schema.py:267-267 | the same for whatever block is parsed |
| Measures.TotalsAre | src/parser_schema.py:72-83 | voltage and state of charge are the batteries' means within half a hundredth and half a tenth, current and power their sums within the same, each on that grid |
| Text.IntTextReads | src/parser.py:42-51 | what str prints of a whole number, int reads back |
| Spelling.SplitIff | src/parser.py:231-240 | a character between two words parts them if and only if it is one of the ten ASCII blanks |
| Spelling.SplitLinesIff | src/parser.py:225-225 | a character between two lines ends the first if and only if it is one of the seven ASCII line ends |
| Spelling.LineEnds | src/parser.py:225-225 | a carriage return and a line feed are one line end, the other way round two |
| Spelling.StripIs | src/parser.py:67-67 | stripping takes all blanks off both ends and nothing else |
| Spelling.SameLetter | src/parser.py:194-195 | two characters are the same but for case exactly when they are equal or one letter in both cases |
| Spelling.ParseIntIff | src/parser.py:42-83 | a text is read as n if and only if, between blanks, it is n's decimal digits, with or without a sign and with single underscores between them, at most 4300 of them |
| Spelling.NumberTextIff | src/parser.py:86-96 | parse_number: a text is read as n if and only if it is n in hexadecimal after 0x, or in decimal as above; otherwise as nothing, and never with an error |
| Spelling.FloatLimitIs | src/parser.py:46-47 | the first whole number that does not convert to a float is 2 ** 1024 - 2 ** 970 |
| Table.WalkHeader | src/parser.py:182-211 | the header loop finds what the walk specification says |
| Table.FindColumn | src/parser.py:193-201 | the first matching column in the given order, or none |
| Table.ResolveIndices | src/parser.py:182-211 | the walk over the columns, longest header first, then the header hook |
| Table.ReadCells | src/parser.py:249-260 | the row's dict, or nothing when a transform raises, and whether what it raised was the OverflowError that nothing catches |
| Table.FindIndices | src/parser.py:227-233 | default indices, overridden by those of the first header line |
| Table.ParseRows | src/parser.py:237-260 | an order-preserving filter-map over the lines |
| Table.ParseTable | src/parser.py:214-264 | the rows of a text, as the specification of lines and indices gives them |
| RowReading.PwrRowIff | src/parser_schema.py:50-158 | under any column places, a line is read as a given battery if and only if it has more than ten tokens, starts with a number, does not contain "Absent", and the token at each column's place is that field's value: whole, thousandths, percentage, or nothing for a dash or past the end |
| RowReading.BatRowIff | src/parser_schema.py:166-251 | the same for a cell: starts with a number, reaches the state of charge, and every token is the field's value |
| RowReading.FirstHeaderIff | src/parser.py:174-233 | the header is the first line whose first token is the table's and that has the other one somewhere; there is none exactly when no line is such |
| RowReading.PwrDefaultsAre | src/parser_schema.py:93-157 | without a header the pwr columns are at 0 to 12 and, behind the two tokens of the time, 15 and 16 |
| RowReading.BatDefaultsAre | src/parser_schema.py:203-250 | without a header the bat columns are at 0 to 9 |
| Layout.WalkFindsPositions | src/parser.py:182-211 | for any schema with prefix-free headers and any arrangement of its columns among undeclared tokens, each field gets the number of data tokens before it and no other field is found |
| Layout.SameTable | src/parser.py:214-264 | for any schema: texts that show the same tokens under each column, and whose rows pass the same tests, parse alike |
| LayoutLaws.PwrLayoutIndependent | src/parser.py:182-264 | two pwr texts whose lines carry the same data under any arrangement of the columns among undeclared ones parse to the same batteries, as long as no line gains or loses the word that marks absent slots |
| LayoutLaws.BatLayoutIndependent | src/parser_schema.py:181-251 | the same for two bat texts, whether or not either header has the SOC label: the hook makes up for it |
| SchemaLaws.PwrPrefixFree | src/parser_schema.py:86-158 | no header of the pwr schema begins another, letter case aside |
| SchemaLaws.BatPrefixFree | src/parser_schema.py:195-251 | the same for the bat schema |
| SchemaLaws.PwrRaisesIff | src/parser.py:246-260 | over all texts the pwr parser raises if and only if a data row holds, under one of the seven columns of thousandths, a number no float is near, with no bad cell before it; it is then the OverflowError, never another error |
| SchemaLaws.BatRaisesIff | src/parser_schema.py:166-251 | the same for the bat parser and its three columns of thousandths, the header hook included |
| SchemaLaws.PwrHugeRow | src/parser.py:246-260 | so it does for one line without a header whose second token is such a number, whichever it is |
| SchemaLaws.BatHugeRow | src/parser.py:246-260 | the same line read by the bat parser |
| SchemaLaws.HugeVoltageRaises | src/parser.py:246-260 | there is such a line: the number 2 ** 1024 - 2 ** 970 |
| SchemaLaws.BatHeaderHasCapacity | src/parser_schema.py:181-188 | any matching bat header resolves the capacity before the hook asks for it |
| SchemaLaws.MissingColumnDefaults | src/parser.py:227-233 | a column the header leaves out is read from its default place |
| SchemaLaws.MissingColumnReadsAnother | src/parser.py:227-233 | item j of the header gives that token if and only if the default place is one of those j's data takes |
| LayoutLaws.ThighReadForTlow | src/parser_schema.py:105-110 | under every pwr header that leaves out Tlow before Thigh, the lowest temperature is read from the highest one's token |
| LayoutLaws.NoTlowArranged | src/parser_schema.py:105-110 | such a header |
| Stub.GroupRows | scripts/pylon_stub.py:470-560 | the slots of one group, with the ids that follow on |
| Stub.RespPwr | scripts/pylon_stub.py:431-569 | the nested loops over groups and slots print one row per sequential id |
| Stub.RespBat | scripts/pylon_stub.py:670-740 | the three answers to "bat N" |
| Stub.SlotInGroup | scripts/pylon_stub.py:271-277 | the slot arithmetic of a sequential id is that of the nested loops |
| EmulatorValues.PresentIff | scripts/pylon_stub.py:271-277 | slot s of group g is an id of the table exactly when there is such a group, and has a battery if and only if s is among the group's batteries and it is not marked absent |
| EmulatorValues.VoltsShown | scripts/pylon_stub.py:505-519 | the voltages read back, in thousandths, and what an over- or undervoltage puts in their place |
| EmulatorValues.DegreesShown | scripts/pylon_stub.py:505-525 | the same for the temperatures |
| EmulatorValues.AmperesShown | scripts/pylon_stub.py:376-380 | the current read back, and the 99.999 and 150 A an overcurrent shows in the table and in the block, with the current's sign |
| EmulatorValues.StateShown | scripts/pylon_stub.py:425-429 | idle below half an ampere either way, and otherwise charging or discharging by the sign |
| EmulatorValues.FaultShown | scripts/pylon_stub.py:482-499 | each fault shows in its own words and in no others, alike in table and block |
| EmulatorValues.EventsShown | scripts/pylon_stub.py:350-363 | and in its own event bits, read back as numbers |
| EmulatorValues.SwitchesShown | scripts/pylon_stub.py:328-338 | the charging switch is open for overvoltage, overtemperature and overcurrent, the discharging one for undervoltage, undertemperature, overtemperature and overcurrent; both are closed exactly without a fault bit |
| EmulatorValues.CellShown | scripts/pylon_stub.py:697-740 | a cell's voltage and temperature, and the pack's current and words |
| EmulatorValues.HealthShown | scripts/pylon_stub.py:422-429 | one percent is lost every fifty cycles, down to nothing |
| EmulatorValues.CapacityShared | scripts/pylon_stub.py:677-677 | the cells have the pack's faded capacity between them, but for less than one unit each |
| EmulatorValues.CellsRefused | scripts/pylon_stub.py:685-691 | "bat N" says "not found" past the last slot and "Absent" for an empty one |
| EmulatorValues.AbsentLinesUp | scripts/pylon_stub.py:545-560 | on an empty slot's row every value starts below its column's name |
| EmulatorValues.PresentLinesUp | scripts/pylon_stub.py:532-544 | and on a battery's row, with the two values of the time below its one name |
| Rendering.SplitRender | scripts/pylon_stub.py:516-544 | splitting a printed line at its blanks gives back the words of its fields |
| Rendering.TableLines | scripts/pylon_stub.py:248-254 | the lines the parser sees of an enveloped table |
| Response.ResponseRows | src/parser.py:214-264 | a printed table is parsed to the results of its row lines in order, and nothing from the envelope |
| PwrReading.Readings | scripts/pylon_stub.py:468-560 | the present slots and no others, in ascending id order |
| RoundTrip.PresentLine | src/parser_schema.py:50-69 | a present slot's line is read as the printed values, under either firmware's header |
| RoundTrip.AbsentLine | src/parser_schema.py:86-92 | an absent slot's line gives no row |
| RoundTrip.PwrRoundTrip | scripts/pylon_stub.py:431-569 | for every state, fault dict, topology and firmware, with values shorter than their columns, parsing the printed table gives exactly the present slots in ascending id order with the printed values, which the `EmulatorValues` rows give in numbers and words |
| BatRoundTrip.SocReadWhenSpelled | src/parser_schema.py:181-188 | wherever the state-of-charge and capacity columns stand, each is read from its own column if and only if the label is spelled SOC; otherwise the charge is read from the capacity's place and the capacity one token further |
| LayoutLaws.SmallSocMisread | src/parser_schema.py:181-188 | under the emulator's newer header with "Soc" in small letters, state of charge and capacity are read from places 9 and 10 instead of 8 and 9 |
| BatRoundTrip.SocReadBeforeCapacity | src/parser_schema.py:181-188 | without one, the percentage is read where the capacity's label stands and the capacity after it |
| BatRoundTrip.BatRoundTrip | scripts/pylon_stub.py:670-740 | a present battery's table is read back as its cells, state of charge from the percentage and capacity from the mAh token, under both headers |
| BatRoundTrip.NoBatteryNoCells | scripts/pylon_stub.py:685-691 | an id without a battery has no cells |
| KeyValue.ReadFields | src/parser.py:311-320 | the dict of the lines, a repeated key keeping its last value |
| KeyValue.ReadValues | src/parser.py:325-338 | the declared fields, or nothing when a required one is missing or bad, and whether an OverflowError ended it |
| KeyValue.ParseKeyValue | src/parser.py:298-340 | the object of a block, None for the marker, an empty or an invalid block, or what was raised |
| BlockReading.LineFieldIff | src/parser.py:311-319 | a line says that a key has a value if and only if the key is what is before its first colon, stripped, and the value the first token after it |
| BlockReading.FieldsIff | src/parser.py:310-320 | the dict has a value for a key if and only if that is what the last line with the key says |
| BlockReading.IndexedReadIff | src/parser_schema.py:260-299 | a text is read as a given battery if and only if it does not contain "not found", its status is not "absent" in any case, voltage, current, temperature and charge are there as numbers and are the battery's, and the other eight keys are its values or missing |
| StubBlock.KeyTextRead | scripts/pylon_stub.py:372-402 | no two keys of the block have the same text |
| IndexedRoundTrip.PresentBlock | scripts/pylon_stub.py:299-412 | a present battery's block is read as its printed values and does not hold the not-found marker |
| IndexedRoundTrip.AbsentBlock | scripts/pylon_stub.py:323-325 | an absent slot's block is no battery, and does not end the probing |
| IndexedRoundTrip.LostBlock | scripts/pylon_stub.py:308-309 | an id past the last slot is answered with the marker |
| IndexedRoundTrip.IndexedRaisesIff | src/parser.py:325-338 | parsing a vertical block raises if and only if its voltage, current or temperature is a number no float is near and the ones before it are good |
| IndexedRoundTrip.HugeBlockRaises | src/parser.py:325-338 | so it does for a block of one line that gives such a number as the voltage |
| IndexedRoundTrip.HugeBlockVoltage | src/parser.py:325-338 | there is such a block |
| Discovery.FetchBatteriesIndexed | src/main.py:566-583 | the probing loop, with its stops and failures |
| Discovery.ProbeRoundTrip | src/main.py:566-583 | probing the emulator finds exactly the present slots up to the limit, in order, with the printed values |
| CycleReading.ProbeIff | src/main.py:566-583 | for all answers: probing finds the batteries of the slots up to the limit or to the first that is not there, in order, and fails exactly when a command fails or a block raises before that; a lost connection is not the end of the stack |
| Discovery.SameIdsIff | src/main.py:566-583 | both discovery paths find the same ids if and only if no battery sits beyond the probing limit |
| Discovery.SameMeasures | scripts/pylon_stub.py:351-370 | the two readings of a battery agree on voltage and state of charge always, on current exactly when there is no overcurrent fault |
| Discovery.PathsAgree | src/main.py:566-594 | where both find the same batteries, they give the same system totals if and only if no present battery has an overcurrent fault |
| Discovery.PathsDisagree | scripts/pylon_stub.py:351-370 | there is an emulator on which they do not: one battery with such a fault |
| Payload.NumberProblem | custom_components/pylontech_mqtt/coordinator.py:78-90 | no problem exactly for a finite number in bounds, a whole one within the reach of floats; what each problem means is `Payload.ComplaintMeans` |
| Payload.CheckCells | custom_components/pylontech_mqtt/coordinator.py:141-165 | none exactly for at most 32 objects with distinct whole ids; otherwise the first thing wrong |
| Payload.CheckBattery | custom_components/pylontech_mqtt/coordinator.py:126-165 | none exactly for a valid battery; otherwise the first thing wrong, down to the first bad field and what is wrong with its number |
| Payload.ValidateStatePayload | custom_components/pylontech_mqtt/coordinator.py:93-168 | None exactly on the declarative validity predicate; otherwise the first thing wrong: the first bad field and what is wrong with its number, or the first invalid battery and what is wrong with it |
| Payload.ValidSpelledOut | custom_components/pylontech_mqtt/coordinator.py:28-168 | a payload is valid if and only if its version is 1, 1.0 or true, voltage and both energies are numbers not below zero, the charge is from 0 to 100, current and power are numbers, and each battery is an object with a whole id, the same bounds and, if it has cells, at most 32 of them with distinct whole ids |
| Payload.ComplaintMeans | custom_components/pylontech_mqtt/coordinator.py:78-90 | what each complaint about a number means, one to one |
| Coordinator.GateIsExact | custom_components/pylontech_mqtt/coordinator.py:351-390 | a message that is not accepted changes nothing; it is dropped exactly when it is no object, rejected exactly when it is an invalid one, and accepted exactly when valid with a specification that is text, empty or no longer looked at |
| Coordinator.NumericSpecFails | custom_components/pylontech_mqtt/coordinator.py:371-385 | a valid payload with a number for its specification fails until a specification has been taken |
| Coordinator.AcceptedIsKept | custom_components/pylontech_mqtt/coordinator.py:440-459 | an accepted payload keeps every value it came with but the derived energies, at the top and in each battery, and gains nothing but those and missing lists of cells |
| Coordinator.AcceptedEnergyExact | custom_components/pylontech_mqtt/coordinator.py:461-471 | the stored energy is the exact sum over the batteries, each of which `Coordinator.AcceptedEnergies` gives in numbers, and computing again changes nothing |
| Coordinator.AcceptedEnergies | custom_components/pylontech_mqtt/coordinator.py:461-471 | after every accepted payload each battery stores its configured capacity, or else the default one, times the state of charge as it was sent / 100, to the nearest thousandth |
| Coordinator.CapacityTakenOnce | custom_components/pylontech_mqtt/coordinator.py:366-385 | the default capacity is that of the first specification that can be parsed and never changes after; the configured ones never do |
| Coordinator.StoredEnergyIsExact | custom_components/pylontech_mqtt/coordinator.py:461-471 | the last rounding of the total does nothing |
| Coordinator.RecomputeIdempotent | custom_components/pylontech_mqtt/coordinator.py:394-407 | recomputation is idempotent |
| Coordinator.StoreEnergies | custom_components/pylontech_mqtt/coordinator.py:461-471 | the loop over the batteries and its running total |
| Coordinator.PylontechCoordinator.ProcessPayload | custom_components/pylontech_mqtt/coordinator.py:351-390 | the new state and the outcome for any payload, as the specification function gives them; `Coordinator.GateIsExact`, `Coordinator.AcceptedIsKept` and `Coordinator.AcceptedEnergies` say what that comes to |
| Coordinator.PylontechCoordinator.DeriveCapacity | custom_components/pylontech_mqtt/coordinator.py:371-385 | the default capacity, taken once |
| Coordinator.PylontechCoordinator.CheckStaleness | custom_components/pylontech_mqtt/coordinator.py:419-438 | marks unavailable exactly an available coordinator whose data is stale |
| Coordinator.PylontechCoordinator.Refresh | custom_components/pylontech_mqtt/coordinator.py:394-407 | recomputes and counts as a successful update |
| Coordinator.RefreshIs | custom_components/pylontech_mqtt/coordinator.py:394-407 | a refresh leaves every battery with the energy of the capacities it now has and every other value as it was, counts as no message, and fails exactly without data |
| Coordinator.FirstWith | custom_components/pylontech_mqtt/coordinator.py:58-75 | the first entry with the id if there is one, none otherwise |
| Entities.DiscoverNewIds | custom_components/pylontech_mqtt/entity.py:11-27 | the loop with its growing set |
| Entities.ReportsNew | custom_components/pylontech_mqtt/entity.py:11-27 | one call reports exactly the ids not seen before, each once |
| Entities.ReportsInOrder | custom_components/pylontech_mqtt/entity.py:11-27 | what the first items report comes first, whatever follows them |
| Entities.ReportedOnce | custom_components/pylontech_mqtt/entity.py:11-27 | over every run of payloads each new id is reported exactly once |
| Staleness.AvailableIsFresh | custom_components/pylontech_mqtt/coordinator.py:308-349 | over every interleaving, available implies the last valid payload or setup was at most 300 + 60 seconds and one queue latency ago |
| Staleness.StepKeepsFresh | custom_components/pylontech_mqtt/coordinator.py:308-438 | the invariant behind it, kept by every step |
| Staleness.BoundIsReached | custom_components/pylontech_mqtt/coordinator.py:320-346 | no smaller bound holds, for any queue latency: a run that ends available exactly that late |
| Staleness.OnlyValidRestores | custom_components/pylontech_mqtt/coordinator.py:320-346 | with immediate delivery, a stale coordinator becomes available by a step if and only if that step delivers a valid payload |
| Staleness.StaysStale | custom_components/pylontech_mqtt/coordinator.py:320-346 | so it stays unavailable over any run without one |
| Staleness.StaysDownIff | custom_components/pylontech_mqtt/coordinator.py:308-349 | with a queue: once judged stale, the coordinator stays unavailable over every allowed run without an accepted payload if and only if no "online" waits in the queue short of an acceptable payload |
| Staleness.StaleBeyondLatency | custom_components/pylontech_mqtt/coordinator.py:320-346 | after setup, data stale for longer than one queue latency is restored by an accepted payload alone |
| Staleness.QueuedOnlineRestores | custom_components/pylontech_mqtt/coordinator.py:320-346 | for every latency above zero, a run from setup in which a queued "online" restores what the watchdog has just marked |
| Staleness.MessageAsks | custom_components/pylontech_mqtt/coordinator.py:308-349 | which callback a message asks for: "online" none once the payloads are more than 300 seconds old, any other text a loss, a payload the gate, undecodable text nothing |
| Staleness.CallbackLeaves | custom_components/pylontech_mqtt/coordinator.py:351-416 | what a callback leaves of availability, time and data; only a payload that is taken changes the last two |
| Staleness.ImmediateIsAtomic | custom_components/pylontech_mqtt/coordinator.py:300-349 | with an empty queue, receiving and running is delivery: immediate delivery is the queue's own special case |
| Staleness.DeliveredAvailable | custom_components/pylontech_mqtt/coordinator.py:300-438 | when delivery leaves the coordinator available, for every step and state: exactly after an accepted payload, after an "online" that is not overdue or finds it available, or when it was and the step is no loss and no overdue check |
| Margin.WatchdogNeverFires | src/main.py:146-151 | when no cycle is slow enough for the warning and no two messages in a row are lost, the watchdog never finds the data stale |
| Margin.MarginIsTight | src/main.py:659-680 | with any larger margin one lost message is enough; with exactly this one it is not, as the test is strict |
| PollLoop.EnrichBatteries | src/main.py:597-621 | adds the block's details where they can be had, and changes nothing else |
| PollLoop.FetchCells | src/main.py:901-911 | each battery's cells, or none after an error |
| PollLoop.Sidecar.FetchInfo | src/main.py:846-856 | the device info, once per connection |
| PollLoop.Sidecar.FetchBatteries | src/main.py:858-896 | the table, one retry, the fallback and the enrichment leave the batteries of this cycle and their totals, whatever was left over from before; `CycleReading.FetchedIff` says which batteries those are |
| PollLoop.Sidecar.PollOnce | src/main.py:843-982 | one turn of the loop: a fresh snapshot and "online", or "offline", a gap in the energy and the info to be fetched again |
| CycleReading.FetchedIff | src/main.py:858-911 | a cycle fetches given batteries if and only if they are, one for one, those of the table's rows, or without rows those of the probing, not empty and with a mean charge a float reaches, each with its block's four details when read from the table above the lowest level, and its cells at the highest |
| EmulatorCycle.EmulatedCycle | src/main.py:858-911 | on the emulator, with some slot present, a cycle reads exactly the present slots in ascending order, at every monitoring level with what that level adds |
| PollLoop.SameAggregates | src/parser_schema.py:72-83 | enrichment and cells leave the system totals alone |
| PollRuns.TurnPublishes | src/main.py:843-982 | a cycle comes through if and only if the device info is known or comes through and there are batteries that it reads; it then adds a snapshot of them with their totals, its power being the sample counted and the counters in thousandths, and "online", or else "offline" and a gap; and the specification is the last one read |
| PollRuns.RunIsFresh | src/main.py:843-982 | over every run each cycle does just that, reading batteries in its own answers alone; and every entry of the log is one of these |
| PollRuns.RunIsMetered | src/main.py:916-916 | the counters of a run are those of its samples and gaps |
| PollRuns.FailureSplitsEnergy | src/main.py:541-549 | nothing is counted across a failed cycle: the rest of the run counts as from a fresh start |
| PollRuns.CountersNonNegative | src/main.py:475-539 | the counters of any run stay at or above zero |
| EndToEnd.BatteryAccepted | custom_components/pylontech_mqtt/coordinator.py:126-165 | a battery's JSON is valid exactly when the battery is acceptable |
| EndToEnd.TotalsAccepted | src/parser_schema.py:72-83 | averaging and rounding keep acceptable values acceptable |
| EndToEnd.SnapshotAccepted | src/main.py:916-925 | a snapshot passes the gate exactly when each of its batteries would |
| EndToEnd.EveryPayloadAccepted | src/main.py:843-925 | every state payload of every run is accepted, whatever the coordinator's state, if and only if its batteries have voltages of zero or more, states of charge from 0 to 100 and at most 32 cells with distinct ids |
| Arrival.SnapshotArrives | src/main.py:916-925 | a snapshot that is accepted arrives whole, whatever the coordinator held: totals, counters, specification and every battery with its cells, in order, and each with the energy it stores |
| Arrival.EmulatorArrives | src/main.py:843-925 | from end to end: a cycle on the emulator publishes the batteries in its slots, and where the integration accepts the payload its data are theirs |
| Identity.RenameId | custom_components/pylontech_mqtt/__init__.py:89-105 | the first matching old prefix, in whatever order the set gives, is replaced |
| Identity.RenameIdentifiers | custom_components/pylontech_mqtt/__init__.py:67-87 | a device's identifiers are renamed one by one, those of other domains kept |
| Identity.OthersStay | custom_components/pylontech_mqtt/__init__.py:72-91 | the identifiers of other integrations stay as they are |
| Identity.Integration.MigrateRegistryIdentity | custom_components/pylontech_mqtt/__init__.py:53-111 | the whole registry after a setup, and the remembered stack id |
| Identity.Integration.Reconfigure | custom_components/pylontech_mqtt/config_flow.py:276-285 | the form's values over the entry's data, the hidden key kept |
| IdentityLaws.FirstSetUpSettles | custom_components/pylontech_mqtt/__init__.py:53-111 | the first setup moves every identity, each of either older scheme, to the current prefix, suffix kept |
| IdentityLaws.HistorySettled | custom_components/pylontech_mqtt/__init__.py:53-111 | over every sequence of reconfigurations and setups every identity keeps its suffix and carries the current prefix |
| IdentityLaws.DistinctStayDistinct | custom_components/pylontech_mqtt/__init__.py:53-111 | over every such sequence, identities are distinct afterwards if and only if they were before |
| IdentityLaws.SetUpAgain | custom_components/pylontech_mqtt/__init__.py:53-111 | running setup again changes nothing |
| IdentityLaws.SuffixesKeptIff | custom_components/pylontech_mqtt/__init__.py:59-75 | setup keeps every suffix if and only if the topic does not begin with the stack id and a separator |
| IdentityLaws.EmbeddingTopic | custom_components/pylontech_mqtt/__init__.py:59-75 | so a topic that begins with the remembered stack id and a slash does not keep them |
| IdentityLaws.EmbeddingTopicExists | custom_components/pylontech_mqtt/__init__.py:59-75 | there is such an entry |
| Candidates.GroupEnd | scripts/update_dependencies.py:929-931 | a group is a maximal run of adjacent releases with the same feature |
| Candidates.MinHaVersionCandidates | scripts/update_dependencies.py:892-943 | the chosen versions, or the error when nothing is eligible |
| Candidates.FirstCandidate | scripts/update_dependencies.py:919-940 | the first candidate is the last release on or before the cutoff; the eligibility filter is redundant |
| Candidates.LaterCandidates | scripts/update_dependencies.py:928-943 | the later ones are exactly the last releases of the runs that follow, in order, up to the limit |
| Candidates.CandidatesAre | scripts/update_dependencies.py:892-943 | positions strictly increase, and there are as many as runs or attempts, whichever is fewer |

## Left out

- Sockets, serial ports, paho, TLS, signals, logging and process exits: foreign calls, which appear as what they return.
- Parsing of `info`, `stat` and `time`, and `parse_spec_capacity`: library regular expressions; the specification text and the capacity derived from it are function parameters.
- Floating-point error, and results of float arithmetic beyond the largest float: exact reals.
- JSON encoding and decoding: taken as the identity on the modelled payload.
- Text outside ASCII, and the bytes that decoding with `errors="ignore"` drops are dropped as bytes of 128 and above.
- Aliasing of batteries and cells: they are values that the loop replaces, where the source updates objects in place.
- A retried command whose first reply arrives after the retry was sent, and a straggler cut by the flush: the code promises no synchronisation there, and the runs of `ConsoleSync` exclude them.
- ConsoleSync.Synchronised: a turn holds at most one straggler.
- Staleness.AvailableIsFresh: excludes refreshes asked for by the user, which may set availability at any time.
- Checkpoint.LossBounded: speaks of runs without a flush, which only a shutdown makes.
- PollLoop.Sidecar.PollOnce: a shutdown signal in the middle of a cycle is not modelled, nor whether the broker took a message.
- Collisions in Home Assistant's registries, and upgrades whose first setup comes after a topic change: nothing in the code handles either.
- The emulator's administration commands, its random drift, its other responses and its server.
- Entries of the emulator's block that nothing reads, such as its guards and coulombs: printed, with nothing proved of their values.
- Config forms, sensor tables, diagnostics, translations, and the rest of the dependency updater.
