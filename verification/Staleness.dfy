/** Availability over time: paho's thread puts callbacks in a queue, the event loop runs them, a watchdog ticks. */
module Staleness {
  import opened Wrappers
  import opened Payload
  import opened Coordinator

  // Messages and callbacks

  /** A message on the availability topic, or a decoded one on the state topic; None is one that does not decode. */
  datatype Message = Availability(text: string) | StateMessage(payload: Option<Json>)

  datatype Callback = RunAvailable | RunUnavailable | RunPayload(payload: Json)

  /** _on_message: the callback it hands to the event loop, if any. */
  function OnMessage(s: State, msg: Message, now: real): Option<Callback> {
    match msg
    case Availability(text) =>
      if text != "online" then Some(RunUnavailable)
      else if Stale(s.last, now) then None
      else Some(RunAvailable)
    case StateMessage(None) => None
    case StateMessage(Some(payload)) => Some(RunPayload(payload))
  }

  function Called(s: State, c: Callback, now: real, parse: SpecParser): State {
    match c
    case RunAvailable => s.(available := true)
    case RunUnavailable => s.(available := false)
    case RunPayload(payload) => Process(s, payload, now, parse).0
  }

  /** The last valid payload came more than five minutes ago. */
  predicate Overdue(s: State, now: real) {
    s.last.Some? && now - s.last.value > 300.0
  }

  /** What a message asks for: "online" is passed over while the payloads are overdue, and any other text on the
      availability topic is a loss; a payload goes on to the gate, and what does not decode goes nowhere. */
  lemma MessageAsks(s: State, msg: Message, now: real)
    ensures OnMessage(s, msg, now) == Some(RunAvailable) <==> msg == Availability("online") && !Overdue(s, now)
    ensures OnMessage(s, msg, now) == Some(RunUnavailable) <==> msg.Availability? && msg.text != "online"
    ensures forall payload :: OnMessage(s, msg, now) == Some(RunPayload(payload)) <==> msg == StateMessage(Some(payload))
    ensures OnMessage(s, msg, now).None? <==>
              msg == StateMessage(None) || (msg == Availability("online") && Overdue(s, now))
  {
  }

  /** Text, or one of the other values Python takes for false. */
  predicate TextOrEmpty(v: Json) {
    v.Str? || v == Null || v == Bool(false) || v == Int(0) || v == Float(0.0) || v == List([]) || v == Object(map[])
  }

  /** The payload is taken: it is a valid one, and its specification, if it is still looked for, is text or empty. */
  predicate Taken(s: State, payload: Json) {
    && payload.Object? && ValidPayload(payload.fields)
    && (s.derived || KeySpec !in payload.fields || TextOrEmpty(payload.fields[KeySpec]))
  }

  /** What a callback leaves of the availability, of the time of the last payload and of the data: only a payload that is
      taken changes the last two. */
  lemma CallbackLeaves(s: State, c: Callback, now: real, parse: SpecParser)
    ensures var t, taken := Called(s, c, now, parse), c.RunPayload? && Taken(s, c.payload);
            && (t.available <==> c.RunAvailable? || taken || (s.available && c.RunPayload?))
            && t.last == (if taken then Some(now) else s.last)
            && (!taken ==> t.(available := s.available) == s)
            && (taken ==> t.data.Some? && t.own == s.own)
  {
    hide Process, ValidPayload;
    if c.RunPayload? {
      GateIsExact(s, c.payload, now, parse);
    }
  }

  /** A tick of the watchdog only takes away availability, and only when the payloads are overdue. */
  lemma WatchdogLeaves(s: State, now: real)
    ensures AfterWatchdog(s, now).available <==> s.available && !Overdue(s, now)
    ensures AfterWatchdog(s, now).(available := s.available) == s
  {
  }

  // Interleavings

  datatype Queued = Queued(callback: Callback, since: real)

  datatype World = World(now: real, coordinator: State, queue: seq<Queued>, ticked: real)

  /** RefreshStep is a refresh asked for by the user. */
  datatype Step = Advance(dt: real) | Receive(msg: Message) | Disconnect | Execute | Tick | RefreshStep

  function Enqueued(w: World, c: Option<Callback>): World {
    if c.None? then w else w.(queue := w.queue + [Queued(c.value, w.now)])
  }

  function Next(w: World, step: Step, parse: SpecParser): World {
    match step
    case Advance(dt) => w.(now := w.now + dt)
    case Receive(msg) => Enqueued(w, OnMessage(w.coordinator, msg, w.now))
    case Disconnect => Enqueued(w, Some(RunUnavailable))
    case Execute =>
      if w.queue == [] then w
      else w.(coordinator := Called(w.coordinator, w.queue[0].callback, w.now, parse), queue := w.queue[1..])
    case Tick => w.(coordinator := AfterWatchdog(w.coordinator, w.now), ticked := w.now)
    case RefreshStep =>
      if w.coordinator.data.Some? && !HasBatteries(w.coordinator.data.value) then w
      else w.(coordinator := AfterRefresh(w.coordinator))
  }

  const TICK_INTERVAL := 60.0

  /** Time passes only while every callback in the queue is younger than the latency, and the watchdog is on time; the
      queue is first in, first out, and nothing refreshes. */
  predicate Allowed(w: World, step: Step, latency: real) {
    match step
    case Advance(dt) =>
      && dt >= 0.0
      && w.now + dt - w.ticked <= TICK_INTERVAL
      && forall i :: 0 <= i < |w.queue| ==> w.now + dt - w.queue[i].since <= latency
    case RefreshStep => false
    case _ => true
  }

  function Run(w: World, steps: seq<Step>, parse: SpecParser): World {
    if steps == [] then w else Next(Run(w, steps[..|steps| - 1], parse), steps[|steps| - 1], parse)
  }

  predicate AllAllowed(w: World, steps: seq<Step>, latency: real, parse: SpecParser) {
    steps == []
    || (AllAllowed(w, steps[..|steps| - 1], latency, parse)
        && Allowed(Run(w, steps[..|steps| - 1], parse), steps[|steps| - 1], latency))
  }

  /** Just after setup at time now. */
  function SetUp(now: real, capacity: real): World {
    World(now, State(None, false, Some(now), map[], capacity, false), [], now)
  }

  /** What every step keeps. */
  predicate Fresh(w: World, latency: real) {
    && w.coordinator.last.Some?
    && (var m := w.coordinator.last.value;
        && m <= w.now && w.ticked <= w.now && w.now - w.ticked <= TICK_INTERVAL
        && (forall i :: 0 <= i < |w.queue| ==>
              && w.queue[i].since <= w.now <= w.queue[i].since + latency
              && (w.queue[i].callback.RunAvailable? ==> w.queue[i].since <= m + STALE_TIMEOUT))
        && (w.coordinator.available ==> w.ticked <= m + STALE_TIMEOUT + latency))
  }

  lemma CalledFresh(s: State, c: Callback, now: real, parse: SpecParser)
    requires s.last.Some? && s.last.value <= now
    ensures var t := Called(s, c, now, parse);
            && t.last.Some? && s.last.value <= t.last.value <= now
            && (t.available ==> s.available || c.RunAvailable? || t.last == Some(now))
  {
    if c.RunPayload? {
      GateIsExact(s, c.payload, now, parse);
    }
  }

  lemma StepKeepsFresh(w: World, step: Step, latency: real, parse: SpecParser)
    requires latency >= 0.0 && Fresh(w, latency) && Allowed(w, step, latency)
    ensures Fresh(Next(w, step, parse), latency)
  {
    if step.Execute? && w.queue != [] {
      CalledFresh(w.coordinator, w.queue[0].callback, w.now, parse);
    }
  }

  lemma {:induction false} RunKeepsFresh(w: World, steps: seq<Step>, latency: real, parse: SpecParser)
    requires latency >= 0.0 && Fresh(w, latency) && AllAllowed(w, steps, latency, parse)
    ensures Fresh(Run(w, steps, parse), latency)
  {
    if steps != [] {
      RunKeepsFresh(w, steps[..|steps| - 1], latency, parse);
      StepKeepsFresh(Run(w, steps[..|steps| - 1], parse), steps[|steps| - 1], latency, parse);
    }
  }

  /** Over every interleaving after setup: while the coordinator is available, the last valid payload, or setup, is at
      most 300 + 60 seconds and one queue latency ago. */
  lemma {:induction false} AvailableIsFresh(start: real, capacity: real, steps: seq<Step>, latency: real, parse: SpecParser)
    requires latency >= 0.0 && AllAllowed(SetUp(start, capacity), steps, latency, parse)
    ensures var w := Run(SetUp(start, capacity), steps, parse);
            && w.coordinator.last.Some?
            && (w.coordinator.available ==> w.now - w.coordinator.last.value <= 300.0 + 60.0 + latency)
  {
    RunKeepsFresh(SetUp(start, capacity), steps, latency, parse);
  }

  // The bound is reached

  lemma {:induction false} RunOne(w: World, steps: seq<Step>, step: Step, latency: real, parse: SpecParser)
    requires AllAllowed(w, steps, latency, parse) && Allowed(Run(w, steps, parse), step, latency)
    ensures AllAllowed(w, steps + [step], latency, parse)
    ensures Run(w, steps + [step], parse) == Next(Run(w, steps, parse), step, parse)
  {
    assert (steps + [step])[..|steps|] == steps;
  }

  lemma {:induction false} RunJoins(w: World, a: seq<Step>, b: seq<Step>, latency: real, parse: SpecParser)
    requires AllAllowed(w, a, latency, parse) && AllAllowed(Run(w, a, parse), b, latency, parse)
    ensures AllAllowed(w, a + b, latency, parse) && Run(w, a + b, parse) == Run(Run(w, a, parse), b, parse)
    decreases |b|
  {
    if b == [] {
      assert a + b == a;
    } else {
      var front, last := b[..|b| - 1], b[|b| - 1];
      RunJoins(w, a, front, latency, parse);
      RunOne(w, a + front, last, latency, parse);
      assert a + b == a + front + [last];
    }
  }

  /** Time passes with the watchdog on time and nothing else happening, while no tick has anything to mark. */
  lemma {:induction false} Wait(w: World, d: real, latency: real, parse: SpecParser) returns (steps: seq<Step>)
    requires d >= 0.0 && w.ticked == w.now && w.coordinator.last.Some?
    requires w.coordinator.available ==> w.now + d - w.coordinator.last.value <= STALE_TIMEOUT
    requires forall i :: 0 <= i < |w.queue| ==> w.now + d - w.queue[i].since <= latency
    ensures AllAllowed(w, steps, latency, parse)
    ensures Run(w, steps, parse) == w.(now := w.now + d, ticked := w.now + d)
    decreases d.Floor
  {
    if d <= TICK_INTERVAL {
      steps := WaitOnce(w, d, latency, parse);
    } else {
      var first := WaitOnce(w, TICK_INTERVAL, latency, parse);
      var rest := Wait(Run(w, first, parse), d - TICK_INTERVAL, latency, parse);
      RunJoins(w, first, rest, latency, parse);
      steps := first + rest;
    }
  }

  lemma {:induction false} WaitOnce(w: World, d: real, latency: real, parse: SpecParser) returns (steps: seq<Step>)
    requires 0.0 <= d <= TICK_INTERVAL && w.ticked == w.now && w.coordinator.last.Some?
    requires w.coordinator.available ==> w.now + d - w.coordinator.last.value <= STALE_TIMEOUT
    requires forall i :: 0 <= i < |w.queue| ==> w.now + d - w.queue[i].since <= latency
    ensures AllAllowed(w, steps, latency, parse)
    ensures Run(w, steps, parse) == w.(now := w.now + d, ticked := w.now + d)
  {
    RunOne(w, [], Advance(d), latency, parse);
    RunOne(w, [] + [Advance(d)], Tick, latency, parse);
    steps := [] + [Advance(d)] + [Tick];
  }

  /** Setup, an "online" run at once, and then nothing for as long as data is fresh. */
  lemma {:induction false} OnlineAndQuiet(start: real, capacity: real, latency: real, parse: SpecParser)
    returns (steps: seq<Step>)
    requires latency >= 0.0
    ensures AllAllowed(SetUp(start, capacity), steps, latency, parse)
    ensures Run(SetUp(start, capacity), steps, parse)
         == World(start + STALE_TIMEOUT, SetUp(start, capacity).coordinator.(available := true), [], start + STALE_TIMEOUT)
  {
    var w, online := SetUp(start, capacity), Receive(Availability("online"));
    RunOne(w, [], online, latency, parse);
    RunOne(w, [] + [online], Execute, latency, parse);
    steps := [] + [online] + [Execute];
    var wait := Wait(Run(w, steps, parse), STALE_TIMEOUT, latency, parse);
    RunJoins(w, steps, wait, latency, parse);
    steps := steps + wait;
  }

  /** An "online" that waits in the queue for the whole latency, with a tick just before it runs, at time start + 300. */
  lemma LateOnline(w: World, latency: real, parse: SpecParser) returns (steps: seq<Step>)
    requires 0.0 <= latency && w.queue == [] && !w.coordinator.available && w.ticked == w.now
    requires w.coordinator.last == Some(w.now - STALE_TIMEOUT)
    ensures AllAllowed(w, steps, latency, parse)
    ensures Run(w, steps, parse)
         == World(w.now + latency, w.coordinator.(available := true), [], w.now + latency)
  {
    var online := Receive(Availability("online"));
    RunOne(w, [], online, latency, parse);
    steps := [] + [online];
    var wait := Wait(Run(w, steps, parse), latency, latency, parse);
    RunJoins(w, steps, wait, latency, parse);
    steps := steps + wait;
    RunOne(w, steps, Execute, latency, parse);
    steps := steps + [Execute];
  }

  /** No smaller bound holds: for any latency there is a run that ends available exactly that long after setup. */
  lemma BoundIsReached(start: real, capacity: real, latency: real, parse: SpecParser) returns (steps: seq<Step>)
    requires 0.0 <= latency
    ensures AllAllowed(SetUp(start, capacity), steps, latency, parse)
    ensures var w := Run(SetUp(start, capacity), steps, parse);
            w.coordinator.available && w.coordinator.last == Some(start)
            && w.now - start == 300.0 + 60.0 + latency
  {
    var w := SetUp(start, capacity);
    var quiet := Wait(w, STALE_TIMEOUT, latency, parse);
    var late := LateOnline(Run(w, quiet, parse), latency, parse);
    RunJoins(w, quiet, late, latency, parse);
    RunOne(w, quiet + late, Advance(60.0), latency, parse);
    steps := quiet + late + [Advance(60.0)];
  }

  // Restoring availability

  /** Delivery without a queue: a message is handled and its callback run at once. */
  datatype AtomicStep = Pass(dt: real) | Deliver(msg: Message) | Lose | Check

  function Atomic(w: World, step: AtomicStep, parse: SpecParser): World {
    match step
    case Pass(dt) => w.(now := w.now + dt)
    case Deliver(msg) =>
      (match OnMessage(w.coordinator, msg, w.now)
       case None => w
       case Some(c) => w.(coordinator := Called(w.coordinator, c, w.now, parse)))
    case Lose => w.(coordinator := Called(w.coordinator, RunUnavailable, w.now, parse))
    case Check => w.(coordinator := AfterWatchdog(w.coordinator, w.now), ticked := w.now)
  }

  /** With nothing in the queue, a message whose callback runs at once is delivered, a lost connection whose callback runs
      at once is the loss, and a tick is a check. */
  lemma ImmediateIsAtomic(w: World, msg: Message, parse: SpecParser)
    requires w.queue == []
    ensures Next(Next(w, Receive(msg), parse), Execute, parse) == Atomic(w, Deliver(msg), parse)
    ensures Next(Next(w, Disconnect, parse), Execute, parse) == Atomic(w, Lose, parse)
    ensures Next(w, Tick, parse) == Atomic(w, Check, parse)
    ensures forall dt :: Next(w, Advance(dt), parse) == Atomic(w, Pass(dt), parse)
  {
    hide Called;
    var c := OnMessage(w.coordinator, msg, w.now);
    if c.Some? {
      assert Enqueued(w, c).queue[1..] == [];
    }
  }

  /** When delivery leaves the coordinator available: an accepted payload always does; "online" does unless payloads are
      overdue and it was not; and otherwise it must have been, with no loss and no check while payloads are overdue. */
  lemma DeliveredAvailable(w: World, step: AtomicStep, parse: SpecParser)
    ensures var s, now := w.coordinator, w.now;
            Atomic(w, step, parse).coordinator.available <==>
              || (step.Deliver? && step.msg.StateMessage? && step.msg.payload.Some? && Taken(s, step.msg.payload.value))
              || (step == Deliver(Availability("online")) && (s.available || !Overdue(s, now)))
              || (s.available && (step.Pass? || (step.Check? && !Overdue(s, now)) || (step.Deliver? && step.msg.StateMessage?)))
  {
    hide OnMessage, Called, AfterWatchdog, Taken;
    match step
    case Pass(dt) =>
    case Deliver(msg) =>
      MessageAsks(w.coordinator, msg, w.now);
      var c := OnMessage(w.coordinator, msg, w.now);
      if c.Some? { CallbackLeaves(w.coordinator, c.value, w.now, parse); }
    case Lose => CallbackLeaves(w.coordinator, RunUnavailable, w.now, parse);
    case Check => WatchdogLeaves(w.coordinator, w.now);
  }

  /** The step delivers a payload that is accepted. */
  predicate DeliversValid(w: World, step: AtomicStep, parse: SpecParser) {
    step.Deliver? && step.msg.StateMessage? && step.msg.payload.Some?
    && Process(w.coordinator, step.msg.payload.value, w.now, parse).1 == Updated
  }

  /** Unavailable, with the last valid payload older than the timeout. */
  predicate JudgedStale(w: World) {
    !w.coordinator.available && Stale(w.coordinator.last, w.now)
  }

  /** A tick that marks the coordinator unavailable has judged it stale, and it stays so until, and only until, a valid
      payload is delivered. */
  lemma OnlyValidRestores(w: World, step: AtomicStep, parse: SpecParser)
    requires JudgedStale(w) && (step.Pass? ==> step.dt >= 0.0)
    ensures Atomic(w, step, parse).coordinator.available <==> DeliversValid(w, step, parse)
    ensures !DeliversValid(w, step, parse) ==> JudgedStale(Atomic(w, step, parse))
  {
    hide Process, ValidPayload;
    if step.Deliver? && step.msg.StateMessage? && step.msg.payload.Some? {
      GateIsExact(w.coordinator, step.msg.payload.value, w.now, parse);
    }
  }

  function AtomicRun(w: World, steps: seq<AtomicStep>, parse: SpecParser): World {
    if steps == [] then w else Atomic(AtomicRun(w, steps[..|steps| - 1], parse), steps[|steps| - 1], parse)
  }

  lemma {:induction false} StaysStale(w: World, steps: seq<AtomicStep>, parse: SpecParser)
    requires JudgedStale(w) && forall i :: 0 <= i < |steps| && steps[i].Pass? ==> steps[i].dt >= 0.0
    requires forall n :: 0 <= n < |steps| ==> !DeliversValid(AtomicRun(w, steps[..n], parse), steps[n], parse)
    ensures JudgedStale(AtomicRun(w, steps, parse))
  {
    if steps != [] {
      var n := |steps| - 1;
      forall k | 0 <= k < n
        ensures !DeliversValid(AtomicRun(w, steps[..n][..k], parse), steps[..n][k], parse)
      {
        assert steps[..n][..k] == steps[..k];
      }
      StaysStale(w, steps[..n], parse);
      OnlyValidRestores(AtomicRun(w, steps[..n], parse), steps[n], parse);
    }
  }

  // Restoring availability when callbacks wait in a queue

  /** The callback would be accepted as a payload. */
  predicate Accepts(s: State, c: Callback) {
    && c.RunPayload? && c.payload.Object? && ValidPayload(c.payload.fields)
    && (s.derived || !Truthy(SpecOf(c.payload.fields)) || SpecOf(c.payload.fields).Str?)
  }

  /** The step runs a payload's callback and the payload is accepted. */
  predicate ExecutesValid(w: World, step: Step) {
    step.Execute? && w.queue != [] && Accepts(w.coordinator, w.queue[0].callback)
  }

  predicate WithoutValid(w: World, steps: seq<Step>, parse: SpecParser) {
    steps == []
    || (WithoutValid(w, steps[..|steps| - 1], parse)
        && !ExecutesValid(Run(w, steps[..|steps| - 1], parse), steps[|steps| - 1]))
  }

  /** An "online" waits in the queue with no acceptable payload before it. */
  predicate OnlineWaits(w: World) {
    exists i :: 0 <= i < |w.queue| && OnlineAt(w, i)
  }

  predicate OnlineAt(w: World, i: nat)
    requires i < |w.queue|
  {
    w.queue[i].callback.RunAvailable? && forall j :: 0 <= j < i ==> !Accepts(w.coordinator, w.queue[j].callback)
  }

  /** No run without an accepted payload makes the coordinator available. */
  ghost predicate StaysDown(w: World, latency: real, parse: SpecParser) {
    forall steps :: AllAllowed(w, steps, latency, parse) && WithoutValid(w, steps, parse) ==>
                      !Run(w, steps, parse).coordinator.available
  }

  predicate Down(w: World) {
    JudgedStale(w) && !OnlineWaits(w)
  }

  lemma ExecuteStaysDown(w: World, parse: SpecParser)
    requires Down(w) && w.queue != [] && !ExecutesValid(w, Execute)
    ensures Down(Next(w, Execute, parse))
  {
    var c := w.queue[0].callback;
    assert !OnlineAt(w, 0);
    if c.RunPayload? {
      GateIsExact(w.coordinator, c.payload, w.now, parse);
    }
    var v := Next(w, Execute, parse);
    forall i | 0 <= i < |v.queue|
      ensures !OnlineAt(v, i)
    {
      if OnlineAt(v, i) {
        forall j | 0 <= j < i + 1
          ensures !Accepts(w.coordinator, w.queue[j].callback)
        {
          if j > 0 {
            assert !Accepts(v.coordinator, v.queue[j - 1].callback);
          }
        }
        assert OnlineAt(w, i + 1);
      }
    }
  }

  lemma EnqueueStaysDown(w: World, c: Callback)
    requires Down(w) && !c.RunAvailable?
    ensures Down(Enqueued(w, Some(c)))
  {
    var v := Enqueued(w, Some(c));
    forall i | 0 <= i < |v.queue|
      ensures !OnlineAt(v, i)
    {
      if i < |w.queue| && OnlineAt(v, i) {
        forall j | 0 <= j < i
          ensures !Accepts(w.coordinator, w.queue[j].callback)
        {
          assert v.queue[j] == w.queue[j];
        }
        assert OnlineAt(w, i);
      }
    }
  }

  /** An "online" received while the data is stale is not queued, so nothing that can restore availability joins. */
  lemma StepStaysDown(w: World, step: Step, latency: real, parse: SpecParser)
    requires Down(w) && Allowed(w, step, latency) && !ExecutesValid(w, step)
    ensures Down(Next(w, step, parse))
  {
    match step {
      case Receive(msg) =>
        var c := OnMessage(w.coordinator, msg, w.now);
        if c.Some? { EnqueueStaysDown(w, c.value); }
      case Disconnect => EnqueueStaysDown(w, RunUnavailable);
      case Execute => if w.queue != [] { ExecuteStaysDown(w, parse); }
      case Advance(dt) => SameQueueDown(w, Next(w, step, parse));
      case Tick => SameQueueDown(w, Next(w, step, parse));
      case RefreshStep =>
    }
  }

  lemma SameQueueDown(w: World, v: World)
    requires Down(w) && v.queue == w.queue && v.coordinator == w.coordinator && v.now >= w.now
    ensures Down(v)
  {
    forall i | 0 <= i < |v.queue|
      ensures !OnlineAt(v, i)
    {
      assert !OnlineAt(w, i);
    }
  }

  lemma {:induction false} RunStaysDown(w: World, steps: seq<Step>, latency: real, parse: SpecParser)
    requires Down(w) && AllAllowed(w, steps, latency, parse) && WithoutValid(w, steps, parse)
    ensures Down(Run(w, steps, parse))
  {
    if steps != [] {
      RunStaysDown(w, steps[..|steps| - 1], latency, parse);
      StepStaysDown(Run(w, steps[..|steps| - 1], parse), steps[|steps| - 1], latency, parse);
    }
  }

  lemma ExecutesOne(v: World, parse: SpecParser)
    requires v.queue != [] && !ExecutesValid(v, Execute)
    ensures Next(v, Execute, parse).queue == v.queue[1..]
    ensures Next(v, Execute, parse).coordinator.derived == v.coordinator.derived
  {
    var c := v.queue[0].callback;
    if c.RunPayload? {
      GateIsExact(v.coordinator, c.payload, v.now, parse);
    }
  }

  function Executions(n: nat): seq<Step> {
    seq(n, _ => Execute)
  }

  lemma {:induction false} ExecutesUpTo(w: World, n: nat, latency: real, parse: SpecParser)
    requires n <= |w.queue| && forall j :: 0 <= j < n ==> !Accepts(w.coordinator, w.queue[j].callback)
    ensures AllAllowed(w, Executions(n), latency, parse) && WithoutValid(w, Executions(n), parse)
    ensures var v := Run(w, Executions(n), parse); v.queue == w.queue[n..] && v.coordinator.derived == w.coordinator.derived
  {
    if n > 0 {
      ExecutesUpTo(w, n - 1, latency, parse);
      var v := Run(w, Executions(n - 1), parse);
      assert v.queue[0].callback == w.queue[n - 1].callback;
      ExecutesOne(v, parse);
      OneMore(w, Executions(n - 1), Execute, latency, parse);
      assert Executions(n) == Executions(n - 1) + [Execute];
      assert v.queue[1..] == w.queue[n..];
    } else {
      assert Executions(0) == [] && w.queue[0..] == w.queue;
    }
  }

  lemma {:induction false} OneMore(w: World, steps: seq<Step>, step: Step, latency: real, parse: SpecParser)
    requires AllAllowed(w, steps, latency, parse) && Allowed(Run(w, steps, parse), step, latency)
    requires WithoutValid(w, steps, parse) && !ExecutesValid(Run(w, steps, parse), step)
    ensures AllAllowed(w, steps + [step], latency, parse) && WithoutValid(w, steps + [step], parse)
    ensures Run(w, steps + [step], parse) == Next(Run(w, steps, parse), step, parse)
  {
    RunOne(w, steps, step, latency, parse);
    assert (steps + [step])[..|steps|] == steps;
  }

  /** Once judged stale, the coordinator stays unavailable over every run without an accepted payload if and only if no
      "online" that was handled before is still waiting in the queue, short of an acceptable payload. */
  lemma StaysDownIff(w: World, latency: real, parse: SpecParser)
    requires JudgedStale(w)
    ensures StaysDown(w, latency, parse) <==> !OnlineWaits(w)
  {
    if OnlineWaits(w) {
      var i :| 0 <= i < |w.queue| && OnlineAt(w, i);
      ExecutesUpTo(w, i, latency, parse);
      OneMore(w, Executions(i), Execute, latency, parse);
      assert Run(w, Executions(i) + [Execute], parse).coordinator.available;
    } else {
      forall steps | AllAllowed(w, steps, latency, parse) && WithoutValid(w, steps, parse)
        ensures !Run(w, steps, parse).coordinator.available
      {
        RunStaysDown(w, steps, latency, parse);
      }
    }
  }

  /** After setup this can only fail for one queue latency: data stale for longer than that is restored by an accepted
      payload alone. */
  lemma {:induction false} StaleBeyondLatency(start: real, capacity: real, steps: seq<Step>, latency: real, parse: SpecParser)
    requires latency >= 0.0 && AllAllowed(SetUp(start, capacity), steps, latency, parse)
    ensures var w := Run(SetUp(start, capacity), steps, parse);
            && w.coordinator.last.Some?
            && (JudgedStale(w) && w.now > w.coordinator.last.value + 300.0 + latency ==> StaysDown(w, latency, parse))
  {
    RunKeepsFresh(SetUp(start, capacity), steps, latency, parse);
    var w := Run(SetUp(start, capacity), steps, parse);
    if JudgedStale(w) {
      StaysDownIff(w, latency, parse);
    }
  }

  /** And within it, it does fail, whatever the latency: an "online" handled just before the watchdog marks the
      coordinator unavailable makes it available again just after, with no valid payload since setup. */
  lemma QueuedOnlineRestores(start: real, capacity: real, latency: real, parse: SpecParser) returns (steps: seq<Step>)
    requires latency > 0.0
    ensures AllAllowed(SetUp(start, capacity), steps + [Tick] + [Execute], latency, parse)
    ensures var before, marked := Run(SetUp(start, capacity), steps, parse), Run(SetUp(start, capacity), steps + [Tick], parse);
            before.coordinator.available && JudgedStale(marked) && OnlineWaits(marked)
    ensures var w := Run(SetUp(start, capacity), steps + [Tick] + [Execute], parse);
            w.coordinator.available && w.coordinator.last == Some(start)
  {
    var w, online := SetUp(start, capacity), Receive(Availability("online"));
    steps := OnlineAndQuiet(start, capacity, latency, parse);
    RunOne(w, steps, online, latency, parse);
    steps := steps + [online];
    var past := Advance(if latency < 1.0 then latency else 1.0);
    RunOne(w, steps, past, latency, parse);
    steps := steps + [past];
    RunOne(w, steps, Tick, latency, parse);
    RunOne(w, steps + [Tick], Execute, latency, parse);
    assert OnlineAt(Run(w, steps + [Tick], parse), 0);
  }
}
