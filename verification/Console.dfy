/** The console link: BmsConnection of src/main.py.

    Clocks, sockets and serial ports are the script of a call: what every poll of the port returned and what
    the monotonic clock read before and after it. A script that ends stands for the read deadline having passed. */
module Console {
  import opened Search
  import opened Wrappers

  newtype byte = x: int | 0 <= x < 256
  type Bytes = seq<byte>

  /** "pylon>" */
  const PROMPT: Bytes := [112, 121, 108, 111, 110, 62]
  /** "Command completed" */
  const ALT_TERMINATOR: Bytes := [67, 111, 109, 109, 97, 110, 100, 32, 99, 111, 109, 112, 108, 101, 116, 101, 100]

  const ALT_TERMINATOR_GRACE: real := 0.3
  const READ_TIMEOUT: real := 5.0
  const COMMAND_RETRIES: nat := 2

  /** Quiet is a read that timed out; Closed is a TCP end of file, which a serial port never reports. */
  datatype Recv = Chunk(data: Bytes) | Quiet | Closed

  /** One turn of the read loop: the clock at the loop test, what arrived, the clock at the grace test. */
  datatype Poll = Poll(head: real, recv: Recv, after: real)

  datatype ConsoleError = Timeout | Disconnected

  function Decode(data: Bytes): string {
    if data == [] then ""
    else (if data[0] < 128 then [data[0] as char] else "") + Decode(data[1..])
  }

  // The read loop as a function of its script

  datatype ReadState = ReadState(data: Bytes, grace: Option<real>, stray: bool)
  datatype Reading = More(state: ReadState) | Done(result: Result<Bytes, ConsoleError>, stray: bool)

  /** What is left of the bytes received once a leading stray prompt is gone. */
  function Kept(stray: bool, got: Bytes): Bytes {
    if stray && PROMPT <= got then got[|PROMPT|..] else got
  }

  predicate StillStray(stray: bool, got: Bytes) {
    stray && !(PROMPT <= got)
  }

  function PollOnce(st: ReadState, deadline: real, p: Poll): Reading {
    if p.head >= deadline then Done(Err(Timeout), st.stray)
    else if p.recv.Closed? then Done(Err(Disconnected), st.stray)
    else
      var got := if p.recv.Chunk? then st.data + p.recv.data else st.data;
      var data, stray := Kept(st.stray, got), StillStray(st.stray, got);
      if Contains(data, PROMPT) then Done(Ok(data), stray)
      else if !Contains(data, ALT_TERMINATOR) then More(ReadState(data, st.grace, stray))
      else if st.grace.None? then More(ReadState(data, Some(p.after + ALT_TERMINATOR_GRACE), stray))
      else if p.after >= st.grace.value then Done(Ok(data), true)
      else More(ReadState(data, st.grace, stray))
  }

  function ReadFrom(st: ReadState, deadline: real, polls: seq<Poll>): (r: Reading)
    ensures r.Done?
    decreases |polls|
  {
    if polls == [] then Done(Err(Timeout), st.stray)
    else
      var next := PollOnce(st, deadline, polls[0]);
      if next.Done? then next else ReadFrom(next.state, deadline, polls[1..])
  }

  lemma {:induction false} ReadStep(st: ReadState, deadline: real, polls: seq<Poll>, i: nat)
    requires i < |polls|
    ensures var next := PollOnce(st, deadline, polls[i]);
            ReadFrom(st, deadline, polls[i..]) == if next.Done? then next else ReadFrom(next.state, deadline, polls[i + 1..])
  {
    hide Contains, PollOnce;
    assert polls[i..][0] == polls[i] && polls[i..][1..] == polls[i + 1..];
  }

  lemma {:induction false} ReadStops(st: ReadState, deadline: real, polls: seq<Poll>, i: nat)
    requires i <= |polls| && (i == |polls| || polls[i].head >= deadline)
    ensures ReadFrom(st, deadline, polls[i..]) == Done(Err(Timeout), st.stray)
  {
  }

  function Read(stray: bool, start: real, polls: seq<Poll>): (r: Reading)
    ensures r.Done?
  {
    ReadFrom(ReadState([], None, stray), start + READ_TIMEOUT, polls)
  }

  // Sending a command

  /** One attempt: whether the write failed, and the read that followed. What the flush before it threw away is no part
      of either. */
  datatype Attempt = Attempt(writeFails: bool, start: real, polls: seq<Poll>)

  datatype Opening = Refused | Opened(start: real, polls: seq<Poll>)

  datatype Call = Call(opening: Opening, attempts: seq<Attempt>)

  function AttemptAt(c: Call, k: nat): Attempt {
    if k < |c.attempts| then c.attempts[k] else Attempt(false, 0.0, [])
  }

  datatype Sent = Sent(result: Result<Bytes, ConsoleError>, stray: bool, writes: nat)

  /** One write and, when it went out, the read for it. */
  function Attempted(stray: bool, a: Attempt): (r: Reading)
    ensures r.Done?
  {
    if a.writeFails then Done(Err(Disconnected), stray) else Read(stray, a.start, a.polls)
  }

  /** Attempt k and those after it. */
  function SendFrom(stray: bool, c: Call, k: nat): (s: Sent)
    requires k <= COMMAND_RETRIES
    ensures 1 <= s.writes <= COMMAND_RETRIES + 1 - k
    decreases COMMAND_RETRIES - k
  {
    var r := Attempted(stray, AttemptAt(c, k));
    if r.result == Err(Timeout) && k < COMMAND_RETRIES then
      var rest := SendFrom(r.stray, c, k + 1);
      rest.(writes := rest.writes + 1)
    else Sent(r.result, r.stray, 1)
  }

  /** A command sent on a link that may still have to be opened; the second component is whether it is open after. */
  function Send(isOpen: bool, stray: bool, c: Call): (Sent, bool) {
    if isOpen then (SendFrom(stray, c, 0), true)
    else if c.opening.Refused? then (Sent(Err(Disconnected), stray, 0), false)
    else
      var banner := Read(stray, c.opening.start, c.opening.polls);
      if banner.result.Err? then (Sent(Err(banner.result.error), banner.stray, 0), true)
      else (SendFrom(banner.stray, c, 0), true)
  }

  class BmsConnection {
    var isOpen: bool
    var strayPromptPending: bool

    constructor ()
      ensures !isOpen && !strayPromptPending
    {
      isOpen, strayPromptPending := false, false;
    }

    /** A leading prompt while one is pending can only be the previous exchange's straggler. */
    method StripStrayPrompt(got: Bytes) returns (data: Bytes)
      modifies this
      ensures isOpen == old(isOpen)
      ensures data == Kept(old(strayPromptPending), got)
      ensures strayPromptPending == StillStray(old(strayPromptPending), got)
    {
      data := got;
      if strayPromptPending && PROMPT <= data {
        data := data[|PROMPT|..];
        strayPromptPending := false;
      }
    }

    method ReadUntilPrompt(start: real, polls: seq<Poll>) returns (r: Result<Bytes, ConsoleError>)
      requires isOpen
      modifies this
      ensures isOpen
      ensures Done(r, strayPromptPending) == Read(old(strayPromptPending), start, polls)
    {
      hide Contains, ReadFrom;
      var deadline := start + READ_TIMEOUT;
      var grace: Option<real> := None;
      var data: Bytes := [];
      var i := 0;
      while i < |polls| && polls[i].head < deadline
        invariant 0 <= i <= |polls|
        invariant isOpen
        invariant ReadFrom(ReadState(data, grace, strayPromptPending), deadline, polls[i..])
               == Read(old(strayPromptPending), start, polls)
      {
        var p := polls[i];
        ReadStep(ReadState(data, grace, strayPromptPending), deadline, polls, i);
        ghost var next := PollOnce(ReadState(data, grace, strayPromptPending), deadline, p);
        if p.recv.Closed? {
          return Err(Disconnected);
        }
        if p.recv.Chunk? {
          data := data + p.recv.data;
        }
        data := StripStrayPrompt(data);
        if Contains(data, PROMPT) {
          return Ok(data);
        }
        if Contains(data, ALT_TERMINATOR) {
          if grace.None? {
            grace := Some(p.after + ALT_TERMINATOR_GRACE);
          } else if p.after >= grace.value {
            strayPromptPending := true;
            return Ok(data);
          }
        }
        assert next == More(ReadState(data, grace, strayPromptPending));
        i := i + 1;
      }
      ReadStops(ReadState(data, grace, strayPromptPending), deadline, polls, i);
      r := Err(Timeout);
    }

    method SendCommand(c: Call) returns (r: Result<string, ConsoleError>, writes: nat)
      modifies this
      ensures var (s, o) := Send(old(isOpen), old(strayPromptPending), c);
              && isOpen == o
              && writes == s.writes <= 3
              && strayPromptPending == s.stray
              && r == match s.result case Ok(data) => Ok(Decode(data)) case Err(e) => Err(e)
    {
      writes := 0;
      if !isOpen {
        if c.opening.Refused? {
          return Err(Disconnected), 0;
        }
        isOpen := true;
        var banner := ReadUntilPrompt(c.opening.start, c.opening.polls);
        if banner.Err? {
          return Err(banner.error), 0;
        }
      }
      var data;
      data, writes := SendOnOpenLink(c);
      r := match data case Ok(d) => Ok(Decode(d)) case Err(e) => Err(e);
    }

    method WriteAndRead(a: Attempt) returns (r: Result<Bytes, ConsoleError>)
      requires isOpen
      modifies this
      ensures isOpen
      ensures Done(r, strayPromptPending) == Attempted(old(strayPromptPending), a)
    {
      if a.writeFails {
        return Err(Disconnected);
      }
      r := ReadUntilPrompt(a.start, a.polls);
    }

    /** The retry loop of send_command, on a link that is open. */
    method SendOnOpenLink(c: Call) returns (r: Result<Bytes, ConsoleError>, writes: nat)
      requires isOpen
      modifies this
      ensures isOpen
      ensures Sent(r, strayPromptPending, writes) == SendFrom(old(strayPromptPending), c, 0)
    {
      writes := 0;
      var attempt: nat := 0;
      ghost var whole := SendFrom(strayPromptPending, c, 0);
      while true
        invariant attempt <= COMMAND_RETRIES && writes == attempt
        invariant isOpen
        invariant var s := SendFrom(strayPromptPending, c, attempt);
                  whole == s.(writes := s.writes + attempt)
        decreases COMMAND_RETRIES - attempt
      {
        writes := writes + 1;
        r := WriteAndRead(AttemptAt(c, attempt));
        if r != Err(Timeout) || attempt == COMMAND_RETRIES {
          return;
        }
        attempt := attempt + 1;
      }
    }

    method Close()
      modifies this
      ensures !isOpen && !strayPromptPending
    {
      isOpen := false;
      strayPromptPending := false;
    }
  }
}
