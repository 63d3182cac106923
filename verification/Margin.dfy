/** How the sidecar's slow-cycle warning and the integration's watchdog fit together. */
module Margin {
  import opened Wrappers
  import opened Coordinator

  const MAX_POLL_INTERVAL := 150.0

  /** One poll cycle: the seconds it took to fetch and publish, and whether the message it published was received. */
  datatype Cycle = Cycle(elapsed: real, received: bool)

  /** _warn_if_cycle_too_slow */
  predicate TooSlow(elapsed: real, interval: real) {
    elapsed + interval > MAX_POLL_INTERVAL
  }

  /** When cycle n - 1 published, counting from a valid payload received at start; between cycles the loop sleeps. */
  function Published(cycles: seq<Cycle>, interval: real, start: real, n: nat): real
    requires n <= |cycles|
  {
    if n == 0 then start else Published(cycles, interval, start, n - 1) + interval + cycles[n - 1].elapsed
  }

  /** When the last message received by then had been published. */
  function LastReceived(cycles: seq<Cycle>, interval: real, start: real, n: nat): real
    requires n <= |cycles|
  {
    if n == 0 then start
    else if cycles[n - 1].received then Published(cycles, interval, start, n)
    else LastReceived(cycles, interval, start, n - 1)
  }

  predicate Healthy(cycles: seq<Cycle>, interval: real) {
    && interval >= 0.0
    && forall i :: 0 <= i < |cycles| ==> cycles[i].elapsed >= 0.0 && !TooSlow(cycles[i].elapsed, interval)
  }

  predicate NoTwoLost(cycles: seq<Cycle>) {
    forall i :: 0 < i < |cycles| ==> cycles[i - 1].received || cycles[i].received
  }

  lemma ReceivedBefore(cycles: seq<Cycle>, i: nat)
    requires NoTwoLost(cycles) && 0 < i < |cycles| && !cycles[i].received
    ensures cycles[i - 1].received
  {
  }

  /** While no cycle is warned about and no two messages in a row are lost, the watchdog never finds the data stale, at
      any time up to the next publication. */
  lemma WatchdogNeverFires(cycles: seq<Cycle>, interval: real, start: real, n: nat, now: real)
    requires Healthy(cycles, interval) && NoTwoLost(cycles) && n < |cycles|
    requires Published(cycles, interval, start, n) <= now <= Published(cycles, interval, start, n + 1)
    ensures now - LastReceived(cycles, interval, start, n) <= STALE_TIMEOUT
    ensures !Stale(Some(LastReceived(cycles, interval, start, n)), now)
  {
    assert !TooSlow(cycles[n].elapsed, interval);
    if n > 0 && !cycles[n - 1].received {
      assert !TooSlow(cycles[n - 1].elapsed, interval);
      if n > 1 {
        ReceivedBefore(cycles, n - 1);
      }
    }
  }

  /** With any larger margin a single lost message is enough for the watchdog to fire just before the next publication;
      with exactly this one it is not, as its test is strict. */
  lemma MarginIsTight(margin: real, interval: real, start: real)
    requires 0.0 <= interval <= margin && margin >= MAX_POLL_INTERVAL
    ensures var cycles := [Cycle(margin - interval, false), Cycle(margin - interval, true)];
            && NoTwoLost(cycles)
            && LastReceived(cycles, interval, start, 1) == start
            && (Stale(Some(start), Published(cycles, interval, start, 2)) <==> margin > MAX_POLL_INTERVAL)
  {
    var cycles := [Cycle(margin - interval, false), Cycle(margin - interval, true)];
    assert Published(cycles, interval, start, 1) == start + interval + cycles[0].elapsed;
    assert Published(cycles, interval, start, 2) == start + 2.0 * margin;
  }
}
