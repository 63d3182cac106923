/** What the console link promises over whole runs: every command gets its own reply, whatever the chunking. */
module ConsoleSync {
  import opened Search
  import opened Wrappers
  import opened Console

  // The state of the loop after n polls, in closed form

  /** Every byte the first n polls returned. */
  function Arrived(polls: seq<Poll>, n: nat): Bytes
    requires n <= |polls|
  {
    if n == 0 then []
    else Arrived(polls, n - 1) + (if polls[n - 1].recv.Chunk? then polls[n - 1].recv.data else [])
  }

  /** Whether the alternate terminator was there after each of the first n polls. */
  function AltFlags(stray: bool, polls: seq<Poll>, n: nat): (flags: seq<bool>)
    requires n <= |polls|
  {
    seq(n, i requires 0 <= i < n => Contains(Kept(stray, Arrived(polls, i + 1)), ALT_TERMINATOR))
  }

  /** Where the first true is. */
  function FirstTrue(flags: seq<bool>): (f: Option<nat>)
    ensures f.None? ==> forall i :: 0 <= i < |flags| ==> !flags[i]
    ensures f.Some? ==> f.value < |flags| && flags[f.value] && forall i :: 0 <= i < f.value ==> !flags[i]
  {
    if flags == [] then None
    else
      var last := |flags| - 1;
      var f := FirstTrue(flags[..last]);
      if f.Some? then f else if flags[last] then Some(last) else None
  }

  function GraceAfter(stray: bool, polls: seq<Poll>, n: nat): Option<real>
    requires n <= |polls|
  {
    GraceOf(AltFlags(stray, polls, n), polls)
  }

  /** The end of the grace that the first true starts. */
  function GraceOf(flags: seq<bool>, polls: seq<Poll>): Option<real>
    requires |flags| <= |polls|
  {
    match FirstTrue(flags)
    case None => None
    case Some(i) => Some(polls[i].after + ALT_TERMINATOR_GRACE)
  }

  function StateAfter(stray: bool, polls: seq<Poll>, n: nat): ReadState
    requires n <= |polls|
  {
    var a := Arrived(polls, n);
    ReadState(Kept(stray, a), GraceAfter(stray, polls, n), StillStray(stray, a))
  }

  /** Poll i neither ends the read nor fails it. */
  predicate Continues(stray: bool, deadline: real, polls: seq<Poll>, i: nat)
    requires i < |polls|
  {
    && polls[i].head < deadline
    && !polls[i].recv.Closed?
    && !Contains(Kept(stray, Arrived(polls, i + 1)), PROMPT)
    && (GraceAfter(stray, polls, i).Some?
        && Contains(Kept(stray, Arrived(polls, i + 1)), ALT_TERMINATOR)
        ==> polls[i].after < GraceAfter(stray, polls, i).value)
  }

  lemma KeptGrows(stray: bool, arrived: Bytes, more: Bytes)
    ensures StillStray(stray, arrived) ==> Kept(stray, arrived) == arrived
    ensures Kept(StillStray(stray, arrived), Kept(stray, arrived) + more) == Kept(stray, arrived + more)
    ensures StillStray(StillStray(stray, arrived), Kept(stray, arrived) + more) == StillStray(stray, arrived + more)
  {
    if stray && PROMPT <= arrived {
      assert (arrived + more)[|PROMPT|..] == arrived[|PROMPT|..] + more;
    }
  }

  lemma {:induction false} FirstTrueLast(flags: seq<bool>, last: bool)
    ensures FirstTrue(flags + [last])
         == if FirstTrue(flags).Some? then FirstTrue(flags) else if last then Some(|flags|) else None
  {
    assert (flags + [last])[..|flags|] == flags;
  }

  lemma GraceOfLast(flags: seq<bool>, last: bool, polls: seq<Poll>)
    requires |flags| < |polls|
    ensures GraceOf(flags + [last], polls)
         == if GraceOf(flags, polls).Some? then GraceOf(flags, polls)
            else if last then Some(polls[|flags|].after + ALT_TERMINATOR_GRACE) else None
  {
    FirstTrueLast(flags, last);
  }

  lemma AltFlagsGrow(stray: bool, polls: seq<Poll>, i: nat)
    requires i < |polls|
    ensures AltFlags(stray, polls, i + 1)
         == AltFlags(stray, polls, i) + [Contains(Kept(stray, Arrived(polls, i + 1)), ALT_TERMINATOR)]
  {
  }

  lemma GraceNext(stray: bool, polls: seq<Poll>, i: nat)
    requires i < |polls|
    ensures GraceAfter(stray, polls, i + 1)
         == if GraceAfter(stray, polls, i).Some? then GraceAfter(stray, polls, i)
            else if Contains(Kept(stray, Arrived(polls, i + 1)), ALT_TERMINATOR)
            then Some(polls[i].after + ALT_TERMINATOR_GRACE) else None
  {
    var last := AltFlags(stray, polls, i + 1)[i];
    AltFlagsGrow(stray, polls, i);
    GraceOfLast(AltFlags(stray, polls, i), last, polls);
  }

  lemma {:induction false} PollsOn(st: ReadState, deadline: real, p: Poll, got: Bytes, data: Bytes)
    requires p.head < deadline && !p.recv.Closed?
    requires got == if p.recv.Chunk? then st.data + p.recv.data else st.data
    requires data == Kept(st.stray, got) && !Contains(data, PROMPT)
    requires st.grace.Some? && Contains(data, ALT_TERMINATOR) ==> p.after < st.grace.value
    ensures var grace := if st.grace.Some? then st.grace
                         else if Contains(data, ALT_TERMINATOR) then Some(p.after + ALT_TERMINATOR_GRACE) else None;
            PollOnce(st, deadline, p) == More(ReadState(data, grace, StillStray(st.stray, got)))
  {
  }

  lemma ArrivedNext(polls: seq<Poll>, i: nat, more: Bytes)
    requires i < |polls| && more == if polls[i].recv.Chunk? then polls[i].recv.data else []
    ensures Arrived(polls, i + 1) == Arrived(polls, i) + more
  {
  }

  lemma StateNext(stray: bool, polls: seq<Poll>, i: nat, more: Bytes)
    requires i < |polls| && more == if polls[i].recv.Chunk? then polls[i].recv.data else []
    ensures var st, data := StateAfter(stray, polls, i), Kept(stray, Arrived(polls, i) + more);
            && data == Kept(st.stray, st.data + more)
            && StateAfter(stray, polls, i + 1)
            == ReadState(data,
                         if st.grace.Some? then st.grace
                         else if Contains(data, ALT_TERMINATOR) then Some(polls[i].after + ALT_TERMINATOR_GRACE) else None,
                         StillStray(st.stray, st.data + more))
  {
    KeptGrows(stray, Arrived(polls, i), more);
    ArrivedNext(polls, i, more);
    GraceNext(stray, polls, i);
  }

  lemma StepIs(stray: bool, deadline: real, polls: seq<Poll>, i: nat)
    requires i < |polls|
    requires Continues(stray, deadline, polls, i)
    ensures PollOnce(StateAfter(stray, polls, i), deadline, polls[i]) == More(StateAfter(stray, polls, i + 1))
  {
    hide PollOnce, Kept, StillStray, Contains;
    var st, more := StateAfter(stray, polls, i), if polls[i].recv.Chunk? then polls[i].recv.data else [];
    StateNext(stray, polls, i, more);
    ArrivedNext(polls, i, more);
    assert st.data + [] == st.data;
    PollsOn(st, deadline, polls[i], st.data + more, Kept(stray, Arrived(polls, i) + more));
  }

  lemma {:induction false} Steps(stray: bool, start: real, deadline: real, polls: seq<Poll>, n: nat)
    requires n <= |polls| && deadline == start + READ_TIMEOUT
    requires forall i :: 0 <= i < n ==> Continues(stray, deadline, polls, i)
    ensures Read(stray, start, polls) == ReadFrom(StateAfter(stray, polls, n), deadline, polls[n..])
  {
    if n > 0 {
      Steps(stray, start, deadline, polls, n - 1);
      OneMoreStep(stray, deadline, polls, n - 1);
    } else {
      ReadStarts(stray, start, deadline, polls);
    }
  }

  lemma {:induction false} ReadStarts(stray: bool, start: real, deadline: real, polls: seq<Poll>)
    requires deadline == start + READ_TIMEOUT
    ensures Read(stray, start, polls) == ReadFrom(StateAfter(stray, polls, 0), deadline, polls[0..])
  {
    assert StateAfter(stray, polls, 0) == ReadState([], None, stray);
    assert polls[0..] == polls;
  }

  lemma {:induction false} OneMoreStep(stray: bool, deadline: real, polls: seq<Poll>, i: nat)
    requires i < |polls| && Continues(stray, deadline, polls, i)
    ensures ReadFrom(StateAfter(stray, polls, i), deadline, polls[i..])
         == ReadFrom(StateAfter(stray, polls, i + 1), deadline, polls[i + 1..])
  {
    StepIs(stray, deadline, polls, i);
    ReadStep(StateAfter(stray, polls, i), deadline, polls, i);
  }

  // Occurrences

  lemma {:induction false} TooShort(hay: Bytes, needle: Bytes)
    requires |hay| < |needle|
    ensures !Contains(hay, needle)
  {
    if Contains(hay, needle) {
      var _ := FindIt(hay, needle);
      assert false;
    }
  }

  /** No proper part of "pylon>" can begin another one, so a reply holds its prompt only at its end. */
  lemma {:induction false} PromptOnlyAtEnd(core: Bytes, m: nat)
    requires !Contains(core, PROMPT) && m < |core| + |PROMPT|
    ensures !Contains((core + PROMPT)[..m], PROMPT)
  {
    var hay := (core + PROMPT)[..m];
    if Contains(hay, PROMPT) {
      var i := FindIt(hay, PROMPT);
      NoPromptAt(core, m, i);
    }
  }

  lemma {:induction false} NoPromptAt(core: Bytes, m: nat, i: nat)
    requires !Contains(core, PROMPT) && m < |core| + |PROMPT| && i + |PROMPT| <= m
    ensures (core + PROMPT)[..m][i..i + |PROMPT|] != PROMPT
  {
    if i + |PROMPT| <= |core| {
      SliceOfCore(core, PROMPT, m, i, i + |PROMPT|);
      NotFoundAt(core, PROMPT, i);
    } else {
      var k := |core| - i;
      SliceAt(core, PROMPT, m, i, i + |PROMPT|, k);
      OnlyOneP(k);
    }
  }

  lemma SliceOfCore(core: Bytes, more: Bytes, m: nat, i: nat, j: nat)
    requires i <= j <= |core| && j <= m <= |core| + |more|
    ensures (core + more)[..m][i..j] == core[i..j]
  {
  }

  lemma SliceAt(core: Bytes, more: Bytes, m: nat, i: nat, j: nat, k: nat)
    requires i <= j <= m <= |core| + |more| && k < j - i && i + k == |core| && more != []
    ensures (core + more)[..m][i..j][k] == more[0]
  {
  }

  lemma {:induction false} NotFoundAt(hay: Bytes, needle: Bytes, i: nat)
    requires !Contains(hay, needle) && i + |needle| <= |hay|
    ensures hay[i..i + |needle|] != needle
  {
    if hay[i..i + |needle|] == needle {
      Found(hay, needle, i);
    }
  }

  lemma OnlyOneP(k: nat)
    requires 1 <= k < |PROMPT|
    ensures PROMPT[k] != PROMPT[0]
  {
  }

  lemma {:induction false} PrefixFree(hay: Bytes, m: nat, needle: Bytes)
    requires !Contains(hay, needle) && m <= |hay|
    ensures !Contains(hay[..m], needle)
  {
    if Contains(hay[..m], needle) {
      var i := FindIt(hay[..m], needle);
      assert hay[i..i + |needle|] == hay[..m][i..i + |needle|];
      Found(hay, needle, i);
      assert false;
    }
  }

  // One command and its reply

  datatype Kind = Prompted | Alternate

  /** What the console did for one command. The lead is what came of an earlier exchange after the first at bytes of
      the reply: nothing, or a straggling prompt behind whatever else was left over. */
  datatype Turn = Turn(at: nat, lead: Bytes, reply: Bytes, kind: Kind, a: Attempt)

  predicate ReplyFormed(t: Turn) {
    match t.kind
    case Prompted =>
      var n := |t.reply| - |PROMPT|;
      n > 0 && t.reply[n..] == PROMPT && !Contains(t.reply[..n], PROMPT)
    case Alternate =>
      !Contains(t.reply, PROMPT) && Contains(t.reply, ALT_TERMINATOR)
  }

  /** A reply that is nothing but the prompt, which no reading can tell from a straggler. */
  predicate Bare(t: Turn) {
    t.kind == Prompted && t.reply == PROMPT && t.lead == []
  }

  /** No straggler, or a bare one glued to the front of the reply. */
  predicate InPlace(t: Turn) {
    ReplyFormed(t) && (t.lead == [] || (t.at == 0 && t.lead == PROMPT))
  }

  /** A straggler behind part of the reply or behind other leftover bytes. */
  predicate Misplaced(t: Turn) {
    t.lead != [] && (t.at > 0 || t.lead != PROMPT)
  }

  /** What is on the wire before the straggler's prompt. */
  function Before(t: Turn): Bytes
    requires t.at <= |t.reply| && |t.lead| >= |PROMPT|
  {
    t.reply[..t.at] + t.lead[..|t.lead| - |PROMPT|]
  }

  function Wire(t: Turn): Bytes
    requires t.at <= |t.reply|
  {
    t.reply[..t.at] + t.lead + t.reply[t.at..]
  }

  /** The straggler, if any, is the first prompt on the wire. */
  predicate WellFormed(t: Turn) {
    && ReplyFormed(t)
    && t.at <= |t.reply|
    && (t.lead == []
        || (|t.lead| >= |PROMPT| && t.lead[|t.lead| - |PROMPT|..] == PROMPT && !Contains(Before(t), PROMPT)))
  }

  function Heard(t: Turn, n: nat): Bytes
    requires n <= |t.a.polls|
  {
    var arrived := Arrived(t.a.polls, n);
    if |arrived| <= |t.lead| then [] else arrived[|t.lead|..]
  }

  /** The alternate terminator was in what had been heard of the reply after poll i. */
  predicate AltHeard(t: Turn, i: nat)
    requires i < |t.a.polls|
  {
    Contains(Heard(t, i + 1), ALT_TERMINATOR)
  }

  /** The first n polls bring the straggler, if any, and then the reply, before the read deadline. */
  predicate Delivered(t: Turn, n: nat) {
    && !t.a.writeFails
    && 1 <= n <= |t.a.polls|
    && Arrived(t.a.polls, n) == t.lead + t.reply
    && forall i :: 0 <= i < n ==> t.a.polls[i].head < t.a.start + READ_TIMEOUT && !t.a.polls[i].recv.Closed?
  }

  /** The prompt comes within the grace of an alternate terminator before it; a reply without one outlasts the grace. */
  predicate OnTime(t: Turn, n: nat)
    requires 1 <= n <= |t.a.polls|
  {
    match t.kind
    case Prompted =>
      && |Arrived(t.a.polls, n - 1)| < |t.lead| + |t.reply|
      && (forall i, j :: 0 <= i < j < n - 1 && AltHeard(t, i) ==>
            t.a.polls[j].after < t.a.polls[i].after + ALT_TERMINATOR_GRACE)
    case Alternate =>
      exists i :: 0 <= i < n - 1 && RunsOut(t, n, i)
  }

  /** The grace that starts at poll i runs out at poll n - 1, and not before. */
  predicate RunsOut(t: Turn, n: nat, i: nat)
    requires i < n <= |t.a.polls|
  {
    && FirstHeard(t, i)
    && t.a.polls[n - 1].after >= t.a.polls[i].after + ALT_TERMINATOR_GRACE
    && forall j :: i < j < n - 1 ==> t.a.polls[j].after < t.a.polls[i].after + ALT_TERMINATOR_GRACE
  }

  predicate FirstHeard(t: Turn, i: nat)
    requires i < |t.a.polls|
  {
    AltHeard(t, i) && forall k :: 0 <= k < i ==> !AltHeard(t, k)
  }

  /** Poll n - 1 brings the last byte of a misplaced straggler, before the read deadline and before the grace of any
      alternate terminator runs out. What else is on the wire may come whenever it likes. */
  predicate Interrupted(t: Turn, n: nat)
    requires WellFormed(t) && t.lead != []
  {
    && !t.a.writeFails
    && 1 <= n <= |t.a.polls|
    && Arrived(t.a.polls, n) <= Wire(t)
    && |Arrived(t.a.polls, n)| >= |Before(t)| + |PROMPT| > |Arrived(t.a.polls, n - 1)|
    && (forall i :: 0 <= i < n ==> t.a.polls[i].head < t.a.start + READ_TIMEOUT && !t.a.polls[i].recv.Closed?)
    && (forall i, j :: 0 <= i < j < n - 1 && Contains(Arrived(t.a.polls, i + 1), ALT_TERMINATOR) ==>
          t.a.polls[j].after < t.a.polls[i].after + ALT_TERMINATOR_GRACE)
  }

  /** The first n polls bring the bare prompt, and nothing comes after it. */
  predicate BareDelivered(t: Turn, n: nat) {
    Delivered(t, n) && Arrived(t.a.polls, |t.a.polls|) == PROMPT
  }

  /** The turn as the wire sees it, in whatever chunks. */
  predicate Answered(t: Turn) {
    if Bare(t) then exists n :: 0 <= n <= |t.a.polls| && BareDelivered(t, n)
    else
      && WellFormed(t)
      && exists n :: 0 <= n <= |t.a.polls| && if Misplaced(t) then Interrupted(t, n) else Delivered(t, n) && OnTime(t, n)
  }

  lemma {:induction false} ArrivedGrows(polls: seq<Poll>, m: nat, n: nat)
    requires m <= n <= |polls|
    ensures Arrived(polls, m) <= Arrived(polls, n)
    decreases n - m
  {
    if m < n {
      ArrivedGrows(polls, m, n - 1);
    }
  }

  lemma PrefixIsFound(s: Bytes)
    requires |s| >= |PROMPT|
    ensures PROMPT <= s ==> Contains(s[..|PROMPT|], PROMPT)
  {
    if PROMPT <= s {
      assert s[..|PROMPT|] == PROMPT;
      Found(PROMPT, PROMPT, 0);
    }
  }

  /** A reply never starts with a prompt, and holds one only when it has all come and is a prompted one. */
  lemma ReplyPrefix(t: Turn, m: nat)
    requires ReplyFormed(t) && m <= |t.reply|
    ensures m < |t.reply| || t.kind == Alternate ==> !Contains(t.reply[..m], PROMPT)
    ensures !(PROMPT <= t.reply)
    ensures t.kind == Prompted ==> Contains(t.reply, PROMPT)
  {
    var n := |t.reply| - |PROMPT|;
    match t.kind {
      case Prompted =>
        var core := t.reply[..n];
        assert t.reply == core + PROMPT;
        if m < |t.reply| {
          PromptOnlyAtEnd(core, m);
        }
        PromptOnlyAtEnd(core, |PROMPT|);
        PrefixIsFound(core + PROMPT);
        Found(t.reply, PROMPT, n);
      case Alternate =>
        PrefixFree(t.reply, m, PROMPT);
        PrefixFound(t.reply, PROMPT);
    }
  }

  /** While a straggler can be stripped, the loop's data is what has been heard of the reply. */
  lemma {:induction false} DataIsHeard(t: Turn, n: nat, m: nat, stray: bool)
    requires InPlace(t) && Delivered(t, n) && m <= n
    requires t.lead == [] || stray
    ensures Contains(Kept(stray, Arrived(t.a.polls, m)), ALT_TERMINATOR) == Contains(Heard(t, m), ALT_TERMINATOR)
    ensures Contains(Kept(stray, Arrived(t.a.polls, m)), PROMPT) ==>
              t.kind == Prompted && Arrived(t.a.polls, m) == t.lead + t.reply
    ensures Arrived(t.a.polls, m) == t.lead + t.reply ==>
              Kept(stray, Arrived(t.a.polls, m)) == t.reply
              && StillStray(stray, Arrived(t.a.polls, m)) == (stray && t.lead == [])
  {
    ArrivedGrows(t.a.polls, m, n);
    GotIsHeard(t, Arrived(t.a.polls, m), stray);
  }

  lemma {:induction false} GotIsHeard(t: Turn, got: Bytes, stray: bool)
    requires InPlace(t) && got <= t.lead + t.reply && (t.lead == [] || stray)
    ensures var heard := if |got| <= |t.lead| then [] else got[|t.lead|..];
            Contains(Kept(stray, got), ALT_TERMINATOR) == Contains(heard, ALT_TERMINATOR)
    ensures Contains(Kept(stray, got), PROMPT) ==> t.kind == Prompted && got == t.lead + t.reply
    ensures got == t.lead + t.reply ==> Kept(stray, got) == t.reply && StillStray(stray, got) == (stray && t.lead == [])
  {
    if |got| < |t.lead| {
      assert got == t.lead[..|got|];
      TooShort(got, PROMPT);
      TooShort(got, ALT_TERMINATOR);
      TooShort([], ALT_TERMINATOR);
    } else {
      HeardIsKept(t, got, stray);
      ReplyPrefix(t, |got| - |t.lead|);
    }
  }

  lemma {:induction false} HeardIsKept(t: Turn, got: Bytes, stray: bool)
    requires InPlace(t) && t.lead <= got <= t.lead + t.reply && (t.lead == [] || stray)
    ensures var heard := got[|t.lead|..];
            heard == t.reply[..|heard|] && Kept(stray, got) == heard && StillStray(stray, got) == (stray && t.lead == [])
  {
    var heard := got[|t.lead|..];
    assert got == t.lead + heard && heard == t.reply[..|heard|];
    ReplyPrefix(t, |heard|);
  }

  lemma {:induction false} AltFlagAt(stray: bool, polls: seq<Poll>, m: nat, i: nat)
    requires i < m <= |polls|
    ensures AltFlags(stray, polls, m)[i] == Contains(Kept(stray, Arrived(polls, i + 1)), ALT_TERMINATOR)
  {
  }

  lemma {:induction false} AltKeptIsHeard(t: Turn, n: nat, stray: bool, i: nat)
    requires InPlace(t) && Delivered(t, n) && i < n
    requires t.lead == [] || stray
    ensures Contains(Kept(stray, Arrived(t.a.polls, i + 1)), ALT_TERMINATOR) == AltHeard(t, i)
  {
    hide Contains, Kept, Arrived;
    DataIsHeard(t, n, i + 1, stray);
  }

  lemma FlagIsHeard(t: Turn, n: nat, m: nat, stray: bool, i: nat)
    requires InPlace(t) && Delivered(t, n) && i < m <= n
    requires t.lead == [] || stray
    ensures AltFlags(stray, t.a.polls, m)[i] == AltHeard(t, i)
  {
    AltFlagAt(stray, t.a.polls, m, i);
    AltKeptIsHeard(t, n, stray, i);
  }

  lemma FlagsAreHeard(t: Turn, n: nat, m: nat, stray: bool)
    requires InPlace(t) && Delivered(t, n) && m <= n
    requires t.lead == [] || stray
    ensures forall i :: 0 <= i < m ==> AltFlags(stray, t.a.polls, m)[i] == AltHeard(t, i)
  {
    forall i | 0 <= i < m
      ensures AltFlags(stray, t.a.polls, m)[i] == AltHeard(t, i)
    {
      FlagIsHeard(t, n, m, stray, i);
    }
  }

  /** Before the last poll the grace of an alternate terminator has not run out. */
  lemma GraceLeft(t: Turn, n: nat, i: nat, stray: bool)
    requires InPlace(t) && Delivered(t, n) && OnTime(t, n) && i < n - 1
    requires t.lead == [] || stray
    ensures var g := GraceAfter(stray, t.a.polls, i); g.Some? ==> t.a.polls[i].after < g.value
  {
    var f := FirstTrue(AltFlags(stray, t.a.polls, i));
    if f.Some? {
      FlagsAreHeard(t, n, i, stray);
      FirstHeardIs(t, AltFlags(stray, t.a.polls, i), f.value);
      match t.kind {
        case Prompted =>
        case Alternate =>
          var k :| 0 <= k < n - 1 && RunsOut(t, n, k);
          OnlyOneFirst(t, k, f.value);
      }
    }
  }

  lemma {:induction false} FirstHeardIs(t: Turn, flags: seq<bool>, f: nat)
    requires f < |flags| <= |t.a.polls| && FirstTrue(flags) == Some(f)
    requires forall i :: 0 <= i < |flags| ==> flags[i] == AltHeard(t, i)
    ensures FirstHeard(t, f)
  {
  }

  lemma OnlyOneFirst(t: Turn, i: nat, k: nat)
    requires i < |t.a.polls| && k < |t.a.polls| && FirstHeard(t, i) && FirstHeard(t, k)
    ensures i == k
  {
  }

  lemma GraceFromHeard(t: Turn, n: nat, m: nat, stray: bool, i: nat)
    requires InPlace(t) && Delivered(t, n) && i < m <= n && FirstHeard(t, i)
    requires t.lead == [] || stray
    ensures GraceAfter(stray, t.a.polls, m) == Some(t.a.polls[i].after + ALT_TERMINATOR_GRACE)
  {
    FlagsAreHeard(t, n, m, stray);
    FirstTrueIs(AltFlags(stray, t.a.polls, m), i);
  }

  lemma GraceOverAt(t: Turn, n: nat, stray: bool, i: nat)
    requires InPlace(t) && Delivered(t, n) && i < n - 1 && RunsOut(t, n, i)
    requires t.lead == [] || stray
    ensures OverBy(t, n, stray)
  {
    GraceFromHeard(t, n, n - 1, stray, i);
  }

  predicate OverBy(t: Turn, n: nat, stray: bool)
    requires 1 <= n <= |t.a.polls|
  {
    var g := GraceAfter(stray, t.a.polls, n - 1);
    g.Some? && t.a.polls[n - 1].after >= g.value
  }

  /** At the last poll the grace of a reply without a prompt has run out. */
  lemma GraceOver(t: Turn, n: nat, stray: bool)
    requires InPlace(t) && Delivered(t, n) && OnTime(t, n) && t.kind == Alternate
    requires t.lead == [] || stray
    ensures OverBy(t, n, stray)
  {
    var i :| 0 <= i < n - 1 && RunsOut(t, n, i);
    GraceOverAt(t, n, stray, i);
  }

  lemma {:induction false} FirstTrueIs(flags: seq<bool>, i: nat)
    requires i < |flags| && flags[i] && forall k :: 0 <= k < i ==> !flags[k]
    ensures FirstTrue(flags) == Some(i)
  {
  }

  lemma {:induction false} PromptMeansAll(t: Turn, n: nat, m: nat, stray: bool)
    requires InPlace(t) && Delivered(t, n) && m <= n
    requires t.lead == [] || stray
    ensures Contains(Kept(stray, Arrived(t.a.polls, m)), PROMPT) ==>
              t.kind == Prompted && |Arrived(t.a.polls, m)| == |t.lead| + |t.reply|
  {
    DataIsHeard(t, n, m, stray);
  }

  lemma {:induction false} NotAllYet(polls: seq<Poll>, m: nat, k: nat, all: nat)
    requires k <= m <= |polls| && |Arrived(polls, m)| < all
    ensures |Arrived(polls, k)| < all
  {
    ArrivedGrows(polls, k, m);
  }

  lemma NoPromptBefore(t: Turn, n: nat, i: nat, stray: bool)
    requires InPlace(t) && Delivered(t, n) && OnTime(t, n) && i < n - 1
    requires t.lead == [] || stray
    ensures !Contains(Kept(stray, Arrived(t.a.polls, i + 1)), PROMPT)
  {
    hide Kept, Contains, Arrived, InPlace;
    PromptMeansAll(t, n, i + 1, stray);
    if t.kind == Prompted {
      NotAllYet(t.a.polls, n - 1, i + 1, |t.lead| + |t.reply|);
    }
  }

  lemma StaysInLoop(t: Turn, n: nat, deadline: real, i: nat, stray: bool)
    requires InPlace(t) && Delivered(t, n) && OnTime(t, n) && i < n - 1
    requires (t.lead == [] || stray) && deadline == t.a.start + READ_TIMEOUT
    ensures Continues(stray, deadline, t.a.polls, i)
  {
    GraceLeft(t, n, i, stray);
    NoPromptBefore(t, n, i, stray);
  }

  lemma StaysUpTo(t: Turn, n: nat, deadline: real, stray: bool)
    requires InPlace(t) && Delivered(t, n) && OnTime(t, n)
    requires (t.lead == [] || stray) && deadline == t.a.start + READ_TIMEOUT
    ensures forall i :: 0 <= i < n - 1 ==> Continues(stray, deadline, t.a.polls, i)
  {
    forall i | 0 <= i < n - 1
      ensures Continues(stray, deadline, t.a.polls, i)
    {
      StaysInLoop(t, n, deadline, i, stray);
    }
  }

  lemma LastPoll(t: Turn, n: nat, stray: bool)
    requires InPlace(t) && Delivered(t, n) && OnTime(t, n)
    requires t.lead == [] || stray
    ensures PollOnce(StateAfter(stray, t.a.polls, n - 1), t.a.start + READ_TIMEOUT, t.a.polls[n - 1])
         == Done(Ok(t.reply), t.kind == Alternate || (stray && t.lead == []))
  {
    hide Contains, Kept, StillStray;
    LastBytes(t, n, stray);
    ReplyPrefix(t, |t.reply|);
    if t.kind == Alternate {
      GraceOver(t, n, stray);
      assert t.reply[..|t.reply|] == t.reply;
    }
  }

  lemma LastBytes(t: Turn, n: nat, stray: bool)
    requires InPlace(t) && Delivered(t, n)
    requires t.lead == [] || stray
    ensures var st, p := StateAfter(stray, t.a.polls, n - 1), t.a.polls[n - 1];
            var got := if p.recv.Chunk? then st.data + p.recv.data else st.data;
            Kept(st.stray, got) == t.reply && StillStray(st.stray, got) == (stray && t.lead == [])
  {
    var before, p := Arrived(t.a.polls, n - 1), t.a.polls[n - 1];
    var more := if p.recv.Chunk? then p.recv.data else [];
    KeptGrows(stray, before, more);
    assert Kept(stray, before) + [] == Kept(stray, before);
    DataIsHeard(t, n, n, stray);
  }

  /** A read that goes on up to poll n and ends there. */
  lemma ReadVia(stray: bool, start: real, deadline: real, polls: seq<Poll>, n: nat)
    requires n < |polls| && deadline == start + READ_TIMEOUT
    requires forall i :: 0 <= i < n ==> Continues(stray, deadline, polls, i)
    requires PollOnce(StateAfter(stray, polls, n), deadline, polls[n]).Done?
    ensures Read(stray, start, polls) == PollOnce(StateAfter(stray, polls, n), deadline, polls[n])
  {
    Steps(stray, start, deadline, polls, n);
    ReadStep(StateAfter(stray, polls, n), deadline, polls, n);
  }

  lemma TurnAt(t: Turn, n: nat, stray: bool)
    requires InPlace(t) && Delivered(t, n) && OnTime(t, n)
    requires t.lead == [] || stray
    ensures Read(stray, t.a.start, t.a.polls) == Done(Ok(t.reply), t.kind == Alternate || (stray && t.lead == []))
  {
    hide Read, Ends, InPlace, OnTime;
    var outcome := Done(Ok(t.reply), t.kind == Alternate || (stray && t.lead == []));
    TurnEnds(t, n, outcome, stray);
    EndsIn(stray, t.a.start, t.a.polls, n - 1, outcome);
  }

  /** The loop goes on up to poll n and ends there. */
  predicate Ends(stray: bool, start: real, polls: seq<Poll>, n: nat, outcome: Reading) {
    && n < |polls|
    && outcome.Done?
    && (var deadline := start + READ_TIMEOUT;
        && (forall i :: 0 <= i < n ==> Continues(stray, deadline, polls, i))
        && PollOnce(StateAfter(stray, polls, n), deadline, polls[n]) == outcome)
  }

  lemma EndsIn(stray: bool, start: real, polls: seq<Poll>, n: nat, outcome: Reading)
    ensures Ends(stray, start, polls, n, outcome) ==> Read(stray, start, polls) == outcome
  {
    if Ends(stray, start, polls, n, outcome) {
      ReadVia(stray, start, start + READ_TIMEOUT, polls, n);
    }
  }

  lemma TurnEnds(t: Turn, n: nat, outcome: Reading, stray: bool)
    requires outcome == Done(Ok(t.reply), t.kind == Alternate || (stray && t.lead == []))
    ensures InPlace(t) && Delivered(t, n) && OnTime(t, n) && (t.lead == [] || stray) ==>
              Ends(stray, t.a.start, t.a.polls, n - 1, outcome)
  {
    if InPlace(t) && Delivered(t, n) && OnTime(t, n) && (t.lead == [] || stray) {
      StaysUpTo(t, n, t.a.start + READ_TIMEOUT, stray);
      LastPoll(t, n, stray);
    }
  }

  /** A command whose straggler can be stripped gets exactly its own reply. */
  lemma TurnInStep(t: Turn, stray: bool)
    requires Answered(t) && !Bare(t) && !Misplaced(t)
    requires t.lead == [] || stray
    ensures Attempted(stray, t.a) == Done(Ok(t.reply), t.kind == Alternate || (stray && t.lead == []))
  {
    var n :| 0 <= n <= |t.a.polls| && Delivered(t, n) && OnTime(t, n);
    TurnAt(t, n, stray);
  }

  // A straggler that nothing expects

  lemma {:induction false} FirstSix(polls: seq<Poll>, n: nat) returns (m: nat)
    requires n <= |polls| && |Arrived(polls, n)| >= |PROMPT|
    ensures 1 <= m <= n && |Arrived(polls, m)| >= |PROMPT| > |Arrived(polls, m - 1)|
  {
    if |Arrived(polls, n - 1)| >= |PROMPT| {
      m := FirstSix(polls, n - 1);
    } else {
      m := n;
    }
  }

  lemma {:induction false} NoAltYet(polls: seq<Poll>, n: nat)
    requires n <= |polls| && |Arrived(polls, n)| < |ALT_TERMINATOR|
    ensures FirstTrue(AltFlags(false, polls, n)).None?
  {
    forall i | 0 <= i < n
      ensures !AltFlags(false, polls, n)[i]
    {
      ArrivedGrows(polls, i + 1, n);
      TooShort(Arrived(polls, i + 1), ALT_TERMINATOR);
    }
  }

  lemma {:induction false} LoopsOnLittle(deadline: real, polls: seq<Poll>, m: nat)
    requires m <= |polls| && |Arrived(polls, m)| < |PROMPT|
    requires forall i :: 0 <= i < m ==> polls[i].head < deadline && !polls[i].recv.Closed?
    ensures forall i :: 0 <= i < m ==> Continues(false, deadline, polls, i)
  {
    forall i | 0 <= i < m
      ensures Continues(false, deadline, polls, i)
    {
      ArrivedGrows(polls, i, m);
      ArrivedGrows(polls, i + 1, m);
      TooShort(Arrived(polls, i + 1), PROMPT);
      NoAltYet(polls, i);
    }
  }

  lemma ReachesSix(t: Turn, n: nat, m: nat)
    requires Delivered(t, n) && 1 <= m <= n && |Arrived(t.a.polls, m - 1)| < |PROMPT|
    ensures Read(false, t.a.start, t.a.polls)
         == ReadFrom(StateAfter(false, t.a.polls, m - 1), t.a.start + READ_TIMEOUT, t.a.polls[m - 1..])
  {
    LoopsOnLittle(t.a.start + READ_TIMEOUT, t.a.polls, m - 1);
    Steps(false, t.a.start, t.a.start + READ_TIMEOUT, t.a.polls, m - 1);
  }

  lemma OutOfStepAt(t: Turn, n: nat, m: nat)
    requires t.lead == PROMPT && Delivered(t, n)
    requires 1 <= m <= n && |Arrived(t.a.polls, m)| >= |PROMPT| > |Arrived(t.a.polls, m - 1)|
    ensures var r := Read(false, t.a.start, t.a.polls); r.result.Ok? && PROMPT <= r.result.value
  {
    ReachesSix(t, n, m);
    StrayTaken(t, n, m);
    ReadStep(StateAfter(false, t.a.polls, m - 1), t.a.start + READ_TIMEOUT, t.a.polls, m - 1);
  }

  /** A straggler that comes when the flag is down is taken for the command's own prompt. */
  lemma TurnOutOfStep(t: Turn)
    requires Answered(t) && !Misplaced(t) && t.lead != []
    ensures var r := Attempted(false, t.a); r.result.Ok? && r.result != Ok(t.reply)
  {
    var n :| 0 <= n <= |t.a.polls| && Delivered(t, n) && OnTime(t, n);
    var m := FirstSix(t.a.polls, n);
    OutOfStepAt(t, n, m);
    ReplyPrefix(t, 0);
  }

  lemma {:induction false} StrayTaken(t: Turn, n: nat, m: nat)
    requires t.lead == PROMPT && Delivered(t, n)
    requires 1 <= m <= n && |Arrived(t.a.polls, m)| >= |PROMPT|
    ensures var r := PollOnce(StateAfter(false, t.a.polls, m - 1), t.a.start + READ_TIMEOUT, t.a.polls[m - 1]);
            r.Done? && r.result.Ok? && PROMPT <= r.result.value
  {
    var before, p := Arrived(t.a.polls, m - 1), t.a.polls[m - 1];
    var got := if p.recv.Chunk? then before + p.recv.data else before;
    assert got == Arrived(t.a.polls, m);
    ArrivedGrows(t.a.polls, m, n);
    assert got[..|PROMPT|] == (t.lead + t.reply)[..|PROMPT|] == PROMPT;
    Found(got, PROMPT, 0);
  }

  // A reply that is a bare prompt

  lemma {:induction false} BareArrived(t: Turn, n: nat, m: nat)
    requires Bare(t) && Delivered(t, n) && m <= n && |Arrived(t.a.polls, m)| >= |PROMPT|
    ensures Arrived(t.a.polls, m) == PROMPT
  {
    ArrivedGrows(t.a.polls, m, n);
    assert [] + PROMPT == PROMPT;
  }

  lemma {:induction false} BareTaken(polls: seq<Poll>, m: nat, deadline: real)
    requires 1 <= m <= |polls| && Arrived(polls, m) == PROMPT
    requires polls[m - 1].head < deadline && !polls[m - 1].recv.Closed?
    ensures PollOnce(StateAfter(false, polls, m - 1), deadline, polls[m - 1]) == Done(Ok(PROMPT), false)
  {
    var before, p := Arrived(polls, m - 1), polls[m - 1];
    var got := if p.recv.Chunk? then before + p.recv.data else before;
    assert got == PROMPT;
    Found(PROMPT, PROMPT, 0);
  }

  lemma BareReturned(t: Turn, n: nat)
    requires Bare(t) && Delivered(t, n)
    ensures Attempted(false, t.a) == Done(Ok(PROMPT), false)
  {
    var m := FirstSix(t.a.polls, n);
    ReachesSix(t, n, m);
    BareArrived(t, n, m);
    BareTaken(t.a.polls, m, t.a.start + READ_TIMEOUT);
    ReadStep(StateAfter(false, t.a.polls, m - 1), t.a.start + READ_TIMEOUT, t.a.polls, m - 1);
  }

  /** While a prompt is pending, nothing is ever left of a bare one. */
  lemma {:induction false} BareKept(polls: seq<Poll>, k: nat)
    requires k <= |polls| && Arrived(polls, |polls|) == PROMPT
    ensures !Contains(Kept(true, Arrived(polls, k)), PROMPT) && !Contains(Kept(true, Arrived(polls, k)), ALT_TERMINATOR)
  {
    ArrivedGrows(polls, k, |polls|);
    TooShort(Kept(true, Arrived(polls, k)), PROMPT);
    TooShort(Kept(true, Arrived(polls, k)), ALT_TERMINATOR);
  }

  lemma BareGoesOn(t: Turn, n: nat, deadline: real)
    requires Bare(t) && BareDelivered(t, n) && deadline == t.a.start + READ_TIMEOUT
    ensures forall i :: 0 <= i < n ==> Continues(true, deadline, t.a.polls, i)
  {
    forall i | 0 <= i < n
      ensures Continues(true, deadline, t.a.polls, i)
    {
      BareKept(t.a.polls, i + 1);
    }
  }

  lemma {:induction false} DownStaysDown(st: ReadState, deadline: real, polls: seq<Poll>)
    requires !st.stray && ReadFrom(st, deadline, polls).result.Err?
    ensures !ReadFrom(st, deadline, polls).stray
    decreases |polls|
  {
    if polls != [] && PollOnce(st, deadline, polls[0]).More? {
      DownStaysDown(PollOnce(st, deadline, polls[0]).state, deadline, polls[1..]);
    }
  }

  lemma BareNeverReturned(t: Turn)
    requires Bare(t) && Arrived(t.a.polls, |t.a.polls|) == PROMPT
    ensures Read(true, t.a.start, t.a.polls).result.Err?
  {
    var r := Read(true, t.a.start, t.a.polls).result;
    ReadConserves(true, t.a.start, t.a.polls);
    if r.Ok? {
      var k :| 0 <= k <= |t.a.polls| && CompleteAfter(true, t.a.polls, k, r.value);
      BareKept(t.a.polls, k);
    }
  }

  /** While a prompt is pending, a bare one is stripped and the read fails, and the flag is down after it. */
  lemma BareStripped(t: Turn, n: nat)
    requires Bare(t) && BareDelivered(t, n)
    ensures var r := Attempted(true, t.a); r.result.Err? && !r.stray
  {
    var deadline := t.a.start + READ_TIMEOUT;
    BareNeverReturned(t);
    BareGoesOn(t, n, deadline);
    Steps(true, t.a.start, deadline, t.a.polls, n);
    DownStaysDown(StateAfter(true, t.a.polls, n), deadline, t.a.polls[n..]);
  }

  /** A command whose reply is the bare prompt gets it exactly when no prompt is pending, and none is pending after. */
  lemma {:induction false} TurnBare(t: Turn, stray: bool)
    requires Bare(t) && Answered(t)
    ensures var s := SendFrom(stray, Call(Refused, [t.a]), 0); !s.stray && (s.result == Ok(t.reply) <==> !stray)
  {
    var n :| 0 <= n <= |t.a.polls| && BareDelivered(t, n);
    if stray {
      BareStripped(t, n);
      NothingMore(Call(Refused, [t.a]), 1);
    } else {
      BareReturned(t, n);
    }
  }

  lemma {:induction false} NothingMore(c: Call, k: nat)
    requires |c.attempts| <= k <= COMMAND_RETRIES
    ensures SendFrom(false, c, k).result == Err(Timeout) && !SendFrom(false, c, k).stray
    decreases COMMAND_RETRIES - k
  {
    assert Attempted(false, AttemptAt(c, k)) == Done(Err(Timeout), false);
    if k < COMMAND_RETRIES {
      NothingMore(c, k + 1);
    }
  }

  // A straggler that comes where nothing strips it

  /** Up to the straggler's last byte there is no prompt, and at the front there never is. */
  lemma {:induction false} NoneBeforeStraggler(t: Turn, d: Bytes)
    requires WellFormed(t) && Misplaced(t) && d <= Wire(t)
    ensures |d| < |Before(t)| + |PROMPT| ==> !Contains(d, PROMPT)
    ensures !(PROMPT <= d)
    ensures |d| >= |Before(t)| + |PROMPT| ==>
              d[..|Before(t)| + |PROMPT|] == Before(t) + PROMPT && Contains(d, PROMPT)
  {
    WireStarts(t);
    StragglerEnds(Before(t), Wire(t), d);
  }

  lemma {:induction false} StragglerEnds(before: Bytes, wire: Bytes, d: Bytes)
    requires !Contains(before, PROMPT) && before != [] && before + PROMPT <= wire && d <= wire
    ensures |d| < |before| + |PROMPT| ==> !Contains(d, PROMPT)
    ensures !(PROMPT <= d)
    ensures |d| >= |before| + |PROMPT| ==> d[..|before| + |PROMPT|] == before + PROMPT && Contains(d, PROMPT)
  {
    var up := before + PROMPT;
    if |d| < |up| {
      PromptOnlyAtEnd(before, |d|);
      assert d == up[..|d|];
      PrefixIsFound(d + PROMPT);
    } else {
      PrefixHolds(up, d, |before|);
    }
    NotAtFront(before, d);
  }

  lemma {:induction false} NotAtFront(before: Bytes, d: Bytes)
    requires !Contains(before, PROMPT) && before != []
    requires d <= before + PROMPT || before + PROMPT <= d
    ensures !(PROMPT <= d)
  {
    PromptOnlyAtEnd(before, |PROMPT|);
    if |d| >= |PROMPT| {
      assert d[..|PROMPT|] == (before + PROMPT)[..|PROMPT|];
      PrefixIsFound(d);
    }
  }

  lemma {:induction false} PrefixHolds(up: Bytes, d: Bytes, i: nat)
    requires up <= d && i + |PROMPT| == |up| && up[i..] == PROMPT
    ensures d[..|up|] == up && Contains(d, PROMPT)
  {
    assert d[i..i + |PROMPT|] == up[i..];
    Found(d, PROMPT, i);
  }

  lemma WireStarts(t: Turn)
    requires WellFormed(t) && Misplaced(t)
    ensures Before(t) + PROMPT <= Wire(t)
    ensures |Before(t)| > 0
  {
    var left := t.lead[..|t.lead| - |PROMPT|];
    assert t.lead == left + PROMPT;
    Regrouped(t.reply[..t.at], left, PROMPT, t.reply[t.at..]);
  }

  lemma Regrouped(a: Bytes, b: Bytes, c: Bytes, d: Bytes)
    ensures a + (b + c) + d == (a + b + c) + d
  {
  }

  lemma MisplacedGoesOn(t: Turn, n: nat, stray: bool, deadline: real, i: nat)
    requires WellFormed(t) && Misplaced(t) && Interrupted(t, n) && i < n - 1
    requires deadline == t.a.start + READ_TIMEOUT
    ensures Continues(stray, deadline, t.a.polls, i)
  {
    NoneYet(t, n, i + 1);
    GraceFrom(stray, t.a.polls, i);
    MisplacedKept(t, n, stray, i + 1);
  }

  lemma {:induction false} NoneYet(t: Turn, n: nat, m: nat)
    requires WellFormed(t) && Misplaced(t) && Interrupted(t, n) && m < n
    ensures !Contains(Arrived(t.a.polls, m), PROMPT)
  {
    ArrivedGrows(t.a.polls, m, n - 1);
    ArrivedGrows(t.a.polls, n - 1, n);
    NoneBeforeStraggler(t, Arrived(t.a.polls, m));
  }

  /** Nothing is ever stripped. */
  lemma MisplacedKept(t: Turn, n: nat, stray: bool, m: nat)
    requires WellFormed(t) && Misplaced(t) && Interrupted(t, n) && m <= n
    ensures forall i :: 0 <= i <= m ==> Kept(stray, Arrived(t.a.polls, i)) == Arrived(t.a.polls, i)
    ensures forall i :: 0 <= i <= m ==> StillStray(stray, Arrived(t.a.polls, i)) == stray
  {
    forall i | 0 <= i <= m
      ensures Kept(stray, Arrived(t.a.polls, i)) == Arrived(t.a.polls, i)
      ensures StillStray(stray, Arrived(t.a.polls, i)) == stray
    {
      ArrivedGrows(t.a.polls, i, n);
      NoneBeforeStraggler(t, Arrived(t.a.polls, i));
    }
  }

  lemma {:induction false} MisplacedLast(t: Turn, n: nat, stray: bool)
    requires WellFormed(t) && Misplaced(t) && Interrupted(t, n)
    ensures PollOnce(StateAfter(stray, t.a.polls, n - 1), t.a.start + READ_TIMEOUT, t.a.polls[n - 1])
         == Done(Ok(Arrived(t.a.polls, n)), stray)
  {
    var before, p := Arrived(t.a.polls, n - 1), t.a.polls[n - 1];
    var got := if p.recv.Chunk? then before + p.recv.data else before;
    assert got == Arrived(t.a.polls, n);
    MisplacedKept(t, n, stray, n);
    NoneBeforeStraggler(t, Arrived(t.a.polls, n));
  }

  lemma {:induction false} MisplacedEnds(t: Turn, n: nat, outcome: Reading, stray: bool)
    requires n <= |t.a.polls| && outcome == Done(Ok(Arrived(t.a.polls, n)), stray)
    ensures WellFormed(t) && Misplaced(t) && Interrupted(t, n) ==> Ends(stray, t.a.start, t.a.polls, n - 1, outcome)
  {
    if WellFormed(t) && Misplaced(t) && Interrupted(t, n) {
      var deadline := t.a.start + READ_TIMEOUT;
      forall i | 0 <= i < n - 1
        ensures Continues(stray, deadline, t.a.polls, i)
      {
        MisplacedGoesOn(t, n, stray, deadline, i);
      }
      MisplacedLast(t, n, stray);
    }
  }

  /** The read takes a misplaced straggler for the command's own prompt, whatever the flag says. */
  lemma {:induction false} TurnMisplaced(t: Turn, n: nat, stray: bool)
    requires WellFormed(t) && Misplaced(t) && Interrupted(t, n)
    ensures Attempted(stray, t.a) == Done(Ok(Arrived(t.a.polls, n)), stray)
  {
    var outcome := Done(Ok(Arrived(t.a.polls, n)), stray);
    MisplacedEnds(t, n, outcome, stray);
    EndsIn(stray, t.a.start, t.a.polls, n - 1, outcome);
  }

  /** The bytes before the straggler are all there is to the reply, and a chunk ends right behind the straggler, which
      then does for the reply's own prompt. */
  predicate StandsIn(t: Turn)
    requires WellFormed(t) && t.lead != []
  {
    Before(t) + PROMPT == t.reply && exists n :: 0 <= n <= |t.a.polls| && Arrived(t.a.polls, n) == t.reply
  }

  lemma ReplyThen(t: Turn, d: Bytes)
    requires WellFormed(t) && Misplaced(t) && d <= Wire(t) && |d| >= |Before(t)| + |PROMPT|
    ensures d == t.reply ==> t.reply == Before(t) + PROMPT
  {
    NoneBeforeStraggler(t, d);
    if d == t.reply {
      var m := |Before(t)| + |PROMPT|;
      HoldsPrompt(Before(t));
      ReplyPrefix(t, m);
      assert d[..|d|] == d;
    }
  }

  lemma {:induction false} HoldsPrompt(before: Bytes)
    ensures Contains(before + PROMPT, PROMPT)
  {
    Found(before + PROMPT, PROMPT, |before|);
  }

  lemma {:induction false} MisplacedReply(t: Turn, n: nat)
    requires WellFormed(t) && Misplaced(t) && Interrupted(t, n)
    ensures Arrived(t.a.polls, n) == t.reply <==> StandsIn(t)
  {
    ReplyThen(t, Arrived(t.a.polls, n));
    if StandsIn(t) {
      var k :| 0 <= k <= |t.a.polls| && Arrived(t.a.polls, k) == t.reply;
      FirstOfLength(t.a.polls, n, k);
    }
  }

  lemma FirstOfLength(polls: seq<Poll>, n: nat, k: nat)
    requires 1 <= n <= |polls| && k <= |polls|
    requires |Arrived(polls, n)| >= |Arrived(polls, k)| > |Arrived(polls, n - 1)|
    ensures Arrived(polls, n) == Arrived(polls, k)
  {
    if k < n { ArrivedGrows(polls, k, n - 1); } else { ArrivedGrows(polls, n, k); }
  }

  /** A bare straggler with some of the reply's text on either side of it never leaves the reply, though one is due. */
  lemma StragglerInside(t: Turn, stray: bool)
    requires Answered(t) && t.kind == Prompted && t.lead == PROMPT && 0 < t.at < |t.reply| - |PROMPT|
    ensures var r := Attempted(stray, t.a); r.result.Ok? && r.result != Ok(t.reply) && r.stray == stray
  {
    var n :| 0 <= n <= |t.a.polls| && Interrupted(t, n);
    TurnMisplaced(t, n, stray);
    MisplacedReply(t, n);
    assert |Before(t)| == t.at;
  }

  // Whole runs

  /** What call k of a run leaves of the flag; the link is open and the run starts with the flag down. */
  function FlagAfter(turns: seq<Turn>, k: nat): bool
    requires k <= |turns|
  {
    k > 0 && SendFrom(FlagAfter(turns, k - 1), Call(Refused, [turns[k - 1].a]), 0).stray
  }

  function Answer(turns: seq<Turn>, k: nat): Result<Bytes, ConsoleError>
    requires k < |turns|
  {
    SendFrom(FlagAfter(turns, k), Call(Refused, [turns[k].a]), 0).result
  }

  /** Some reply before turn k was accepted without its prompt, and no straggler, nor a reply that looks like one, has come
      at a front since. */
  predicate Armed(turns: seq<Turn>, k: nat)
    requires k <= |turns|
  {
    exists i :: 0 <= i < k && Arms(turns[i]) && forall j :: i < j < k ==> !Fronted(turns[j])
  }

  predicate Arms(t: Turn) {
    t.kind == Alternate && !Misplaced(t)
  }

  predicate Fronted(t: Turn) {
    Bare(t) || (t.lead != [] && !Misplaced(t))
  }

  lemma ArmedStep(turns: seq<Turn>, k: nat)
    requires k < |turns|
    ensures Armed(turns, k + 1) == (Arms(turns[k]) || (!Fronted(turns[k]) && Armed(turns, k)))
  {
    if Arms(turns[k]) {
      assert Armed(turns, k + 1);
    } else if !Fronted(turns[k]) && Armed(turns, k) {
      var i :| 0 <= i < k && Arms(turns[i]) && forall j :: i < j < k ==> !Fronted(turns[j]);
      assert forall j :: i < j < k + 1 ==> !Fronted(turns[j]);
    } else if Armed(turns, k + 1) {
      ArmedBefore(turns, k);
    }
  }

  lemma ArmedBefore(turns: seq<Turn>, k: nat)
    requires k < |turns| && Armed(turns, k + 1) && !Arms(turns[k])
    ensures !Fronted(turns[k]) && Armed(turns, k)
  {
    var i :| 0 <= i < k + 1 && Arms(turns[i]) && forall j :: i < j < k + 1 ==> !Fronted(turns[j]);
    assert i < k;
  }

  /** The straggler of turn k, if any, does no harm: it comes bare, at the very front and while one is due, or it
      happens to stand in for the reply's own prompt. And a reply that could be taken for one comes while none is due. */
  predicate Harmless(turns: seq<Turn>, k: nat)
    requires k < |turns|
  {
    if Bare(turns[k]) then !Armed(turns, k)
    else turns[k].lead == [] || if Misplaced(turns[k]) then WellFormed(turns[k]) && StandsIn(turns[k]) else Armed(turns, k)
  }

  lemma AnswerInStep(turns: seq<Turn>, k: nat)
    requires k < |turns|
    ensures Answered(turns[k]) && Harmless(turns, k) && FlagAfter(turns, k) == Armed(turns, k) ==>
              Answer(turns, k) == Ok(turns[k].reply) && FlagAfter(turns, k + 1) == Armed(turns, k + 1)
  {
    if Answered(turns[k]) && Harmless(turns, k) && FlagAfter(turns, k) == Armed(turns, k) {
      HarmlessAnswer(turns, k);
    }
  }

  lemma HarmlessAnswer(turns: seq<Turn>, k: nat)
    requires k < |turns| && Answered(turns[k]) && Harmless(turns, k) && FlagAfter(turns, k) == Armed(turns, k)
    ensures Answer(turns, k) == Ok(turns[k].reply)
    ensures FlagAfter(turns, k + 1) == Armed(turns, k + 1)
  {
    hide ReadFrom, Contains, Kept, InPlace, Delivered, OnTime, Read;
    var t, stray := turns[k], FlagAfter(turns, k);
    ArmedStep(turns, k);
    if Bare(t) {
      TurnBare(t, stray);
    } else if Misplaced(t) {
      var n :| 0 <= n <= |t.a.polls| && Interrupted(t, n);
      TurnMisplaced(t, n, stray);
      MisplacedReply(t, n);
    } else {
      TurnInStep(t, stray);
    }
  }

  lemma {:induction false} InStepUpTo(turns: seq<Turn>, k: nat)
    requires k <= |turns|
    requires forall j :: 0 <= j < k ==> Answered(turns[j]) && Harmless(turns, j)
    ensures FlagAfter(turns, k) == Armed(turns, k)
    ensures forall j :: 0 <= j < k ==> Answer(turns, j) == Ok(turns[j].reply)
  {
    hide FlagAfter, Answer, Armed, Answered, Harmless;
    if k > 0 {
      InStepUpTo(turns, k - 1);
      AnswerInStep(turns, k - 1);
    } else {
      DownAtFirst(turns);
    }
  }

  lemma {:induction false} DownAtFirst(turns: seq<Turn>)
    ensures FlagAfter(turns, 0) == Armed(turns, 0) == false
  {
  }

  lemma {:induction false} AnswerOutOfStep(turns: seq<Turn>, k: nat)
    requires k < |turns| && Answered(turns[k]) && !Harmless(turns, k) && FlagAfter(turns, k) == Armed(turns, k)
    ensures Answer(turns, k) != Ok(turns[k].reply)
  {
    var t := turns[k];
    if Bare(t) {
      TurnBare(t, FlagAfter(turns, k));
    } else if Misplaced(t) {
      var n :| 0 <= n <= |t.a.polls| && Interrupted(t, n);
      TurnMisplaced(t, n, FlagAfter(turns, k));
      MisplacedReply(t, n);
    } else {
      TurnOutOfStep(t);
    }
  }

  /** Over a run, every call returns its own reply exactly when every straggler comes bare at the very front of a reply,
      after one that was accepted without its prompt and with no other straggler at a front in between, or happens to
      stand in for its reply's own prompt, and every reply that is itself a bare prompt comes while no prompt is due. */
  lemma Synchronised(turns: seq<Turn>)
    requires forall j :: 0 <= j < |turns| ==> Answered(turns[j])
    ensures (forall j :: 0 <= j < |turns| ==> Answer(turns, j) == Ok(turns[j].reply))
       <==> (forall j :: 0 <= j < |turns| ==> Harmless(turns, j))
  {
    if forall j :: 0 <= j < |turns| ==> Harmless(turns, j) {
      InStepUpTo(turns, |turns|);
    } else {
      var k := FirstHarmed(turns, |turns|);
      InStepUpTo(turns, k);
      AnswerOutOfStep(turns, k);
    }
  }

  lemma {:induction false} FirstHarmed(turns: seq<Turn>, n: nat) returns (k: nat)
    requires n <= |turns| && exists j :: 0 <= j < n && !Harmless(turns, j)
    ensures k < n && !Harmless(turns, k)
    ensures forall j :: 0 <= j < k ==> Harmless(turns, j)
  {
    if exists j :: 0 <= j < n - 1 && !Harmless(turns, j) {
      k := FirstHarmed(turns, n - 1);
    } else {
      k := n - 1;
    }
  }

  /** The case the code is written for: a straggler only ever follows directly on the reply it belongs to, bare and at
      the very front of the next, and no reply is a bare prompt while one is due. */
  lemma NextReplyOnly(turns: seq<Turn>)
    requires forall j :: 0 <= j < |turns| && Bare(turns[j]) ==> !Armed(turns, j)
    requires forall j :: 0 <= j < |turns| ==> Answered(turns[j]) && !Misplaced(turns[j])
    requires forall j :: 0 <= j < |turns| && turns[j].lead != [] ==> j > 0 && turns[j - 1].kind == Alternate
    ensures forall j :: 0 <= j < |turns| ==> Answer(turns, j) == Ok(turns[j].reply)
  {
    forall j | 0 <= j < |turns|
      ensures Harmless(turns, j)
    {
      if turns[j].lead != [] {
        ArmedStep(turns, j - 1);
      }
    }
    Synchronised(turns);
  }

  // The same straggler one byte too late

  const COMPLETED := Turn(0, [], ALT_TERMINATOR, Alternate,
                          Attempt(false, 0.0, [Poll(0.0, Chunk(ALT_TERMINATOR), 0.0), Poll(0.2, Quiet, 0.5)]))

  const LATE := Turn(1, PROMPT, [97, 98] + PROMPT, Prompted,
                     Attempt(false, 1.0, [Poll(1.0, Chunk([97] + PROMPT + [98] + PROMPT), 1.0)]))

  lemma CompletedAnswered()
    ensures Answered(COMPLETED)
  {
    AltHasNoPrompt();
    SentAndQuiet(COMPLETED, ALT_TERMINATOR);
  }

  /** A whole reply in one chunk and then silence past the grace. */
  lemma {:induction false} SentAndQuiet(t: Turn, reply: Bytes)
    requires t.lead == [] && t.kind == Alternate && t.at == 0 && t.reply == reply
    requires !Contains(reply, PROMPT) && ALT_TERMINATOR <= reply
    requires t.a == Attempt(false, 0.0, [Poll(0.0, Chunk(reply), 0.0), Poll(0.2, Quiet, 0.5)])
    ensures Answered(t)
  {
    assert Arrived(t.a.polls, 0) == [] && Arrived(t.a.polls, 1) == reply && Arrived(t.a.polls, 2) == reply;
    assert Heard(t, 1) == reply;
    PrefixFound(reply, ALT_TERMINATOR);
    assert FirstHeard(t, 0) && RunsOut(t, 2, 0);
    assert Delivered(t, 2) && OnTime(t, 2);
  }

  lemma {:induction false} AltHasNoPrompt()
    ensures !Contains(ALT_TERMINATOR, PROMPT)
  {
    if Contains(ALT_TERMINATOR, PROMPT) {
      var i := FindIt(ALT_TERMINATOR, PROMPT);
      AltIsNotPromptAt(i);
    }
  }

  lemma AltIsNotPromptAt(i: nat)
    requires i + |PROMPT| <= |ALT_TERMINATOR|
    ensures ALT_TERMINATOR[i..i + |PROMPT|] != PROMPT
  {
    assert ALT_TERMINATOR[i..i + |PROMPT|][1] == ALT_TERMINATOR[i + 1] != 121;
  }

  lemma LateAnswered()
    ensures Answered(LATE)
  {
    var t := LATE;
    var wire: Bytes := [97] + PROMPT + [98] + PROMPT;
    TooShort([97, 98], PROMPT);
    TooShort([97], PROMPT);
    assert t.reply[..2] == [97, 98] && t.reply[2..] == PROMPT;
    assert t.reply[..1] == [97] && t.reply[1..] == [98] + PROMPT;
    assert Before(t) == [97];
    assert Arrived(t.a.polls, 0) == [] && Arrived(t.a.polls, 1) == wire;
    assert Wire(t) == wire;
    assert Interrupted(t, 1);
  }

  /** A run that loses step: the straggler of the first command is due, but comes behind the first byte of the
      second's reply. */
  lemma StragglerTooLate()
    ensures Answered(COMPLETED) && Answered(LATE) && Armed([COMPLETED, LATE], 1)
    ensures Answer([COMPLETED, LATE], 1).Ok? && Answer([COMPLETED, LATE], 1) != Ok(LATE.reply)
  {
    CompletedAnswered();
    LateAnswered();
    ArmedByFirst([COMPLETED, LATE]);
    LosesStep([COMPLETED, LATE], 1);
  }

  lemma ArmedByFirst(turns: seq<Turn>)
    requires turns != [] && Arms(turns[0])
    ensures Armed(turns, 1)
  {
  }

  /** Nor does it matter what the run has been so far. */
  lemma LosesStep(turns: seq<Turn>, k: nat)
    requires k < |turns| && Answered(turns[k]) && turns[k].kind == Prompted
    requires turns[k].lead == PROMPT && 0 < turns[k].at < |turns[k].reply| - |PROMPT|
    ensures Answer(turns, k).Ok? && Answer(turns, k) != Ok(turns[k].reply)
  {
    StragglerInside(turns[k], FlagAfter(turns, k));
  }

  // Any read at all

  /** Every poll the loop can still make at n polls was made before the deadline. */
  predicate Reached(deadline: real, polls: seq<Poll>, n: nat) {
    n <= |polls| && forall i :: 0 <= i < n ==> polls[i].head < deadline
  }

  /** The bytes d are a complete reply after n polls: all that arrived less at most one leading prompt, ending the
      read by its prompt or by an alternate terminator whose grace has run out. */
  predicate CompleteAfter(stray: bool, polls: seq<Poll>, n: nat, d: Bytes) {
    && 1 <= n <= |polls|
    && d == Kept(stray, Arrived(polls, n))
    && (Contains(d, PROMPT)
        || (Contains(d, ALT_TERMINATOR)
            && exists i :: 0 <= i < n - 1 && Contains(Kept(stray, Arrived(polls, i + 1)), ALT_TERMINATOR)
                        && polls[n - 1].after >= polls[i].after + ALT_TERMINATOR_GRACE))
  }

  /** For any script: a read that returns is a complete reply, and one that times out never had an unstripped
      prompt in its data. */
  lemma {:induction false} ReadConserves(stray: bool, start: real, polls: seq<Poll>)
    ensures match Read(stray, start, polls).result
            case Ok(d) => exists n :: 0 <= n <= |polls| && CompleteAfter(stray, polls, n, d)
            case Err(Timeout) =>
              forall n :: 0 <= n <= |polls| && Reached(start + READ_TIMEOUT, polls, n)
                          ==> !Contains(Kept(stray, Arrived(polls, n)), PROMPT)
            case Err(Disconnected) => true
  {
    var deadline := start + READ_TIMEOUT;
    if forall i :: 0 <= i < |polls| ==> Continues(stray, deadline, polls, i) {
      Steps(stray, start, deadline, polls, |polls|);
      NoPromptWhile(stray, deadline, polls, |polls|);
    } else {
      var n := FirstStop(stray, deadline, polls, |polls|);
      Steps(stray, start, deadline, polls, n);
      StopsHow(stray, deadline, polls, n);
      ReadStep(StateAfter(stray, polls, n), deadline, polls, n);
      NoPromptWhile(stray, deadline, polls, n);
    }
  }

  lemma {:induction false} NoPromptWhile(stray: bool, deadline: real, polls: seq<Poll>, n: nat)
    requires n <= |polls| && forall i :: 0 <= i < n ==> Continues(stray, deadline, polls, i)
    ensures forall k :: 0 <= k <= n ==> !Contains(Kept(stray, Arrived(polls, k)), PROMPT)
  {
    forall k | 0 <= k <= n
      ensures !Contains(Kept(stray, Arrived(polls, k)), PROMPT)
    {
      if k == 0 {
        TooShort([], PROMPT);
      } else {
        assert Continues(stray, deadline, polls, k - 1);
      }
    }
  }

  lemma {:induction false} FirstStop(stray: bool, deadline: real, polls: seq<Poll>, n: nat) returns (k: nat)
    requires n <= |polls| && exists i :: 0 <= i < n && !Continues(stray, deadline, polls, i)
    ensures k < n && !Continues(stray, deadline, polls, k)
    ensures forall i :: 0 <= i < k ==> Continues(stray, deadline, polls, i)
  {
    if exists i :: 0 <= i < n - 1 && !Continues(stray, deadline, polls, i) {
      k := FirstStop(stray, deadline, polls, n - 1);
    } else {
      k := n - 1;
    }
  }

  lemma StopsHow(stray: bool, deadline: real, polls: seq<Poll>, n: nat)
    requires n < |polls| && !Continues(stray, deadline, polls, n)
    ensures var r := PollOnce(StateAfter(stray, polls, n), deadline, polls[n]);
            && r.Done?
            && (r.result.Ok? ==> CompleteAfter(stray, polls, n + 1, r.result.value))
            && (r.result == Err(Timeout) ==> polls[n].head >= deadline)
  {
    var a, p := Arrived(polls, n), polls[n];
    var more := if p.recv.Chunk? then p.recv.data else [];
    KeptGrows(stray, a, more);
    assert Kept(stray, a) + [] == Kept(stray, a);
    GraceFrom(stray, polls, n);
  }

  lemma {:induction false} GraceFrom(stray: bool, polls: seq<Poll>, n: nat)
    requires n <= |polls|
    ensures var g := GraceAfter(stray, polls, n);
            g.Some? ==> exists i :: 0 <= i < n && Contains(Kept(stray, Arrived(polls, i + 1)), ALT_TERMINATOR)
                                 && g.value == polls[i].after + ALT_TERMINATOR_GRACE
  {
    var f := FirstTrue(AltFlags(stray, polls, n));
  }

  // What is stripped and what is accepted, over whole runs

  /** How many leading prompts were stripped, and how many replies were accepted without their prompt. */
  datatype Tally = Tally(stripped: nat, accepted: nat) {
    function Plus(more: Tally): Tally {
      Tally(stripped + more.stripped, accepted + more.accepted)
    }
  }

  const NOTHING := Tally(0, 0)

  function PollTally(st: ReadState, deadline: real, p: Poll): Tally {
    if p.head >= deadline || p.recv.Closed? then NOTHING
    else
      var got := if p.recv.Chunk? then st.data + p.recv.data else st.data;
      var r := PollOnce(st, deadline, p);
      Tally(if st.stray && PROMPT <= got then 1 else 0,
            if r.Done? && r.result.Ok? && !Contains(r.result.value, PROMPT) then 1 else 0)
  }

  function TallyFrom(st: ReadState, deadline: real, polls: seq<Poll>): Tally
    decreases |polls|
  {
    if polls == [] then NOTHING
    else
      var next, here := PollOnce(st, deadline, polls[0]), PollTally(st, deadline, polls[0]);
      if next.Done? then here else here.Plus(TallyFrom(next.state, deadline, polls[1..]))
  }

  function ReadTally(stray: bool, start: real, polls: seq<Poll>): Tally {
    TallyFrom(ReadState([], None, stray), start + READ_TIMEOUT, polls)
  }

  function AttemptTally(stray: bool, a: Attempt): Tally {
    if a.writeFails then NOTHING else ReadTally(stray, a.start, a.polls)
  }

  function SendTallyFrom(stray: bool, c: Call, k: nat): Tally
    requires k <= COMMAND_RETRIES
    decreases COMMAND_RETRIES - k
  {
    var r, here := Attempted(stray, AttemptAt(c, k)), AttemptTally(stray, AttemptAt(c, k));
    if r.result == Err(Timeout) && k < COMMAND_RETRIES then here.Plus(SendTallyFrom(r.stray, c, k + 1)) else here
  }

  function SendTally(isOpen: bool, stray: bool, c: Call): Tally {
    if isOpen then SendTallyFrom(stray, c, 0)
    else if c.opening.Refused? then NOTHING
    else
      var banner := Read(stray, c.opening.start, c.opening.polls);
      var here := ReadTally(stray, c.opening.start, c.opening.polls);
      if banner.result.Err? then here else here.Plus(SendTallyFrom(banner.stray, c, 0))
  }

  function Due(stray: bool): nat {
    if stray then 1 else 0
  }

  lemma {:induction false} ReadBalance(st: ReadState, deadline: real, polls: seq<Poll>)
    ensures var r, all := ReadFrom(st, deadline, polls), TallyFrom(st, deadline, polls);
            all.stripped + Due(r.stray) <= all.accepted + Due(st.stray)
    decreases |polls|
  {
    if polls != [] {
      PollBalance(st, deadline, polls[0]);
      var next := PollOnce(st, deadline, polls[0]);
      if next.More? {
        ReadBalance(next.state, deadline, polls[1..]);
      }
    }
  }

  lemma PollBalance(st: ReadState, deadline: real, p: Poll)
    ensures var r, here := PollOnce(st, deadline, p), PollTally(st, deadline, p);
            here.stripped + Due(if r.Done? then r.stray else r.state.stray) <= here.accepted + Due(st.stray)
  {
  }

  lemma AttemptBalance(stray: bool, a: Attempt)
    ensures var r, here := Attempted(stray, a), AttemptTally(stray, a);
            here.stripped + Due(r.stray) <= here.accepted + Due(stray)
  {
    if !a.writeFails {
      ReadBalance(ReadState([], None, stray), a.start + READ_TIMEOUT, a.polls);
    }
  }

  /** The retry loop takes one attempt. */
  lemma {:induction false} SendStep(stray: bool, c: Call, k: nat)
    requires k <= COMMAND_RETRIES
    ensures var r, here := Attempted(stray, AttemptAt(c, k)), AttemptTally(stray, AttemptAt(c, k));
            if r.result == Err(Timeout) && k < COMMAND_RETRIES
            then SendFrom(stray, c, k).stray == SendFrom(r.stray, c, k + 1).stray
                 && SendTallyFrom(stray, c, k) == here.Plus(SendTallyFrom(r.stray, c, k + 1))
            else SendFrom(stray, c, k).stray == r.stray && SendTallyFrom(stray, c, k) == here
  {
  }

  lemma Balances(a: Tally, b: Tally, first: nat, between: nat, last: nat)
    requires a.stripped + between <= a.accepted + first && b.stripped + last <= b.accepted + between
    ensures a.Plus(b).stripped + last <= a.Plus(b).accepted + first
  {
  }

  lemma {:induction false} SendBalance(stray: bool, c: Call, k: nat)
    requires k <= COMMAND_RETRIES
    ensures SendTallyFrom(stray, c, k).stripped + Due(SendFrom(stray, c, k).stray)
         <= SendTallyFrom(stray, c, k).accepted + Due(stray)
    decreases COMMAND_RETRIES - k
  {
    hide Attempted, AttemptTally, SendFrom, SendTallyFrom;
    var r, here := Attempted(stray, AttemptAt(c, k)), AttemptTally(stray, AttemptAt(c, k));
    AttemptBalance(stray, AttemptAt(c, k));
    SendStep(stray, c, k);
    if r.result == Err(Timeout) && k < COMMAND_RETRIES {
      SendBalance(r.stray, c, k + 1);
      Balances(here, SendTallyFrom(r.stray, c, k + 1), Due(stray), Due(r.stray), Due(SendFrom(stray, c, k).stray));
    }
  }

  /** What the poll loop does with its link: commands, and closings after which the next command opens it again. */
  datatype Use = Sends(c: Call) | Closes

  datatype Link = Link(isOpen: bool, stray: bool)

  function Used(link: Link, use: Use): Link {
    match use
    case Sends(c) => var (s, o) := Send(link.isOpen, link.stray, c); Link(o, s.stray)
    case Closes => Link(false, false)
  }

  function UseTally(link: Link, use: Use): Tally {
    if use.Sends? then SendTally(link.isOpen, link.stray, use.c) else NOTHING
  }

  function RunTally(link: Link, uses: seq<Use>): Tally
    decreases |uses|
  {
    if uses == [] then NOTHING
    else UseTally(link, uses[0]).Plus(RunTally(Used(link, uses[0]), uses[1..]))
  }

  lemma UseBalance(link: Link, use: Use)
    ensures var here := UseTally(link, use);
            here.stripped + Due(Used(link, use).stray) <= here.accepted + Due(link.stray)
  {
    if use.Sends? {
      var c := use.c;
      if link.isOpen {
        SendBalance(link.stray, c, 0);
      } else if c.opening.Opened? {
        ReadBalance(ReadState([], None, link.stray), c.opening.start + READ_TIMEOUT, c.opening.polls);
        SendBalance(Read(link.stray, c.opening.start, c.opening.polls).stray, c, 0);
      }
    }
  }

  lemma {:induction false} RunBalance(link: Link, uses: seq<Use>)
    ensures var all := RunTally(link, uses); all.stripped <= all.accepted + Due(link.stray)
    decreases |uses|
  {
    if uses != [] {
      UseBalance(link, uses[0]);
      RunBalance(Used(link, uses[0]), uses[1..]);
    }
  }

  /** Over every run of a link that starts with no prompt pending, whatever arrives and when, no more prompts are
      stripped than replies were accepted without theirs. */
  lemma {:induction false} StrippedWithinAccepted(uses: seq<Use>)
    ensures var all := RunTally(Link(false, false), uses); all.stripped <= all.accepted
  {
    RunBalance(Link(false, false), uses);
  }

  // Which attempt counts, and the times

  /** The flag before attempt k, when those before it have timed out. */
  function FlagBefore(stray: bool, c: Call, k: nat): bool {
    if k == 0 then stray else Attempted(FlagBefore(stray, c, k - 1), AttemptAt(c, k - 1)).stray
  }

  function OutcomeAt(stray: bool, c: Call, k: nat): Result<Bytes, ConsoleError> {
    Attempted(FlagBefore(stray, c, k), AttemptAt(c, k)).result
  }

  /** The outcome of a command is that of the first of at most three attempts that does not time out, whatever else goes
      wrong in it; when all three do, it is a timeout. */
  lemma {:induction false} FirstAnswerCounts(stray: bool, c: Call, k: nat)
    requires k <= 2 && (forall i :: 0 <= i < k ==> OutcomeAt(stray, c, i) == Err(Timeout))
    requires k == 2 || OutcomeAt(stray, c, k) != Err(Timeout)
    ensures SendFrom(stray, c, 0) == Sent(OutcomeAt(stray, c, k), FlagBefore(stray, c, k + 1), k + 1)
  {
    assert OutcomeAt(stray, c, 0) == Attempted(stray, AttemptAt(c, 0)).result;
    if k >= 1 {
      assert OutcomeAt(stray, c, 1) == Attempted(FlagBefore(stray, c, 1), AttemptAt(c, 1)).result;
    }
  }

  /** A command is written if and only if the link was open or has been opened and its banner read; a link on which the
      banner failed stays open all the same. */
  lemma WritesOnceOpen(isOpen: bool, stray: bool, c: Call)
    ensures var (s, o) := Send(isOpen, stray, c);
            && (o <==> isOpen || c.opening.Opened?)
            && (s.writes >= 1 <==>
                 isOpen || (c.opening.Opened? && Read(stray, c.opening.start, c.opening.polls).result.Ok?))
            && (s.writes == 0 ==> s.result.Err?)
  {
  }

  lemma ReadsOne(stray: bool, start: real, p: Poll)
    ensures Read(stray, start, [p]) == match PollOnce(ReadState([], None, stray), start + READ_TIMEOUT, p)
                                       case Done(r, s) => Done(r, s)
                                       case More(st) => Done(Err(Timeout), st.stray)
  {
    hide PollOnce;
    ReadStep(ReadState([], None, stray), start + READ_TIMEOUT, [p], 0);
    assert [p][0..] == [p] && [p][0 + 1..] == [];
  }

  /** A reply that comes in one chunk counts exactly when the loop gets to it less than five seconds after the command. */
  lemma DeadlineIs(start: real, p: Poll)
    requires p.recv.Chunk? && Contains(p.recv.data, PROMPT)
    ensures Read(false, start, [p]) == Done(if p.head - start < 5.0 then Ok(p.recv.data) else Err(Timeout), false)
  {
    hide Contains;
    ReadsOne(false, start, p);
    assert [] + p.recv.data == p.recv.data;
  }

  /** A reply without a prompt counts exactly when 0.3 seconds have gone by since its terminator was seen. */
  lemma GraceIs(start: real, data: Bytes, p: Poll, q: Poll)
    requires p.recv == Chunk(data) && !Contains(data, PROMPT) && Contains(data, ALT_TERMINATOR) && q.recv == Quiet
    requires p.head - start < 5.0 && q.head - start < 5.0
    ensures Read(false, start, [p, q]) == if q.after - p.after >= 0.3 then Done(Ok(data), true) else Done(Err(Timeout), false)
  {
    hide Contains;
    var st, deadline, polls := ReadState([], None, false), start + READ_TIMEOUT, [p, q];
    assert [] + data == data;
    ReadStep(st, deadline, polls, 0);
    var next := ReadState(data, Some(p.after + ALT_TERMINATOR_GRACE), false);
    assert PollOnce(st, deadline, p) == More(next);
    ReadStep(next, deadline, polls, 1);
    assert polls[0..] == polls && polls[2..] == [];
  }

  /** A write that fails ends the call at once: nothing is read, nothing is tried again, and the flag stays. */
  lemma FailedWriteEnds(stray: bool, c: Call, k: nat)
    requires k <= 2 && k < |c.attempts| && c.attempts[k].writeFails
    ensures SendFrom(stray, c, k) == Sent(Err(Disconnected), stray, 1)
  {
    hide Read;
  }

  /** A link that cannot be opened is a disconnection: nothing is written, and the flag stays. */
  lemma RefusedEnds(stray: bool, c: Call)
    requires c.opening.Refused?
    ensures Send(false, stray, c) == (Sent(Err(Disconnected), stray, 0), false)
  {
  }
}
