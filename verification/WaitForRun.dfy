/** `wait_for_run`: polling a run until it is done, fails, or the time is up. */
module WaitForRun {

  const MAX_TIMEOUT: real := 50.0
  const POLL_INTERVAL: real := 2.0

  /** What one `get_run` reports. */
  datatype Poll = Unfinished | Finished | PollError(code: string)

  datatype Waited = StillRunning | Reported(poll: Poll)

  function Least(a: real, b: real): real {
    if a <= b then a else b
  }

  function Most(a: real, b: real): real {
    if a >= b then a else b
  }

  /** `max(1.0, min(timeout_seconds, 50.0))`. */
  function Clamped(timeout: real): real {
    Most(1.0, Least(timeout, MAX_TIMEOUT))
  }

  /** Between one second and fifty, a timeout is taken as it is. */
  lemma ClampedIs(timeout: real)
    ensures 1.0 <= Clamped(timeout) <= 50.0
    ensures 1.0 <= timeout <= 50.0 ==> Clamped(timeout) == timeout
    ensures timeout < 1.0 ==> Clamped(timeout) == 1.0
    ensures timeout > 50.0 ==> Clamped(timeout) == 50.0
  {
  }

  /** How long the loop sleeps when the clock reads `now`. */
  function Nap(deadline: real, now: real): real {
    Least(POLL_INTERVAL, deadline - now)
  }

  /** The successive readings of the monotonic clock: across a sleep it advances at least as much. */
  ghost predicate Advances(clock: nat -> real, timeout: real) {
    var deadline := clock(0) + Clamped(timeout);
    clock(0) <= clock(1) && forall i: nat | 1 <= i && clock(i) < deadline :: clock(i + 1) >= clock(i) + Nap(deadline, clock(i))
  }

  function Ceiling(x: real): int {
    -((-x).Floor)
  }

  /** The clamped timeout bounds the sleeping, and so do two seconds for each poll after the first; half of it,
      rounded up, bounds those polls; and the time is declared up exactly when the last poll was neither done
      nor an error, the deadline past. */
  method Wait(polls: nat -> Poll, clock: nat -> real, timeout: real) returns (out: Waited, count: nat, slept: real)
    requires Advances(clock, timeout)
    ensures 1 <= count <= 1 + Ceiling(Clamped(timeout) / 2.0)
    ensures 0.0 <= slept <= Clamped(timeout) <= 50.0
    ensures slept <= 2.0 * (count - 1) as real
    ensures slept < 2.0 * (count - 1) as real ==> clock(count) >= clock(0) + Clamped(timeout)
    ensures forall i | 0 <= i < count - 1 :: polls(i).Unfinished?
    ensures out == if polls(count - 1).Unfinished? then StillRunning else Reported(polls(count - 1))
    ensures out.StillRunning? ==> clock(count) >= clock(0) + Clamped(timeout)
  {
    var clamped := Clamped(timeout);
    var deadline := clock(0) + clamped;
    var last := polls(0);
    count, slept := 1, 0.0;
    while last.Unfinished?
      invariant count >= 1 && last == polls(count - 1)
      invariant forall i | 0 <= i < count - 1 :: polls(i).Unfinished?
      invariant 0.0 <= slept <= clamped && clock(0) + slept <= clock(count)
      invariant slept <= 2.0 * (count - 1) as real
      invariant slept == 2.0 * (count - 1) as real || deadline <= clock(count)
      invariant 2.0 * (count - 1) as real < clamped + 2.0
      decreases 28 - count
    {
      var now := clock(count);
      var remaining := deadline - now;
      if remaining <= 0.0 {
        break;
      }
      slept := slept + Least(POLL_INTERVAL, remaining);
      last := polls(count);
      count := count + 1;
    }
    CeilingBound(count - 1, clamped);
    out := if last.Unfinished? then StillRunning else Reported(last);
  }

  lemma CeilingBound(k: nat, x: real)
    requires 2.0 * k as real < x + 2.0
    ensures k <= Ceiling(x / 2.0)
  {
    assert (k - 1) as real < x / 2.0;
    assert (-(x / 2.0)).Floor as real <= -(x / 2.0);
  }
}
