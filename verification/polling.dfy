/**
 * The wait loops of the certificate and instance providers: probe, and
 * while the answer is not there yet either give up (when less than two poll
 * intervals of the Lambda's time remain) or sleep one interval and probe
 * again.
 *
 * Time is the Lambda context's remaining milliseconds. `left` is what
 * `get_remaining_time_in_millis()` reports when a round checks it; the next
 * round's check comes after the sleep and after `cost(k)` further
 * milliseconds spent by round `k`'s probe.
 */
module Polling {
  import opened Wrappers
  import opened Lifecycle

  const PollIntervalMs: int := 5000

  /** `POLL_INTERVAL * 1000 * 2`: below this the loop gives up instead of sleeping. */
  const GuardMs: int := 2 * PollIntervalMs

  /**
   * Rounds `k`, `k + 1`, ... of a wait loop. Round `k` runs `step`; a state
   * that is `done` ends the loop; otherwise, with less than `GuardMs` left,
   * the loop raises `timeout`; else it sleeps and goes on. The result is the
   * final state and the number of the round that reached it. Since it only
   * sleeps with at least two intervals left, a wait that took `n` sleeps had
   * at least `n + 1` intervals of time to begin with.
   */
  function Poll<S(!new)>(step: (nat, S) -> Result<S, Error>, done: S -> bool, timeout: Error,
                   cost: nat -> nat, k: nat, s: S, left: int): (r: Result<(S, nat), Error>)
    ensures r.Ok? ==> done(r.value.0) && r.value.1 >= k
    ensures r.Ok? ==> exists x :: step(r.value.1, x) == Ok(r.value.0)
    ensures r.Ok? && r.value.1 > k ==> PollIntervalMs * (r.value.1 - k + 1) <= left
    decreases if left < 0 then 0 else left + 1
  {
    match step(k, s)
    case Err(e) => Err(e)
    case Ok(s') =>
      if done(s') then Ok((s', k))
      else if left < GuardMs then Err(timeout)
      else Poll(step, done, timeout, cost, k + 1, s', left - PollIntervalMs - cost(k))
  }

  /**
   * With less than `GuardMs` left the loop does not sleep: it ends in the
   * round it is in, raising `timeout` if that round's answer is not final.
   */
  lemma ShortOnTimeOneRound<S(!new)>(step: (nat, S) -> Result<S, Error>, done: S -> bool, timeout: Error,
                               cost: nat -> nat, k: nat, s: S, left: int)
    requires left < GuardMs
    ensures var r := Poll(step, done, timeout, cost, k, s, left);
      (r.Ok? ==> r.value.1 == k) &&
      (step(k, s).Ok? && !done(step(k, s).value) ==> r == Err(timeout))
  {
  }

  /**
   * Given the time, the loop waits for the answer: when every probe
   * succeeds, every probe from round `k + n` on finishes, no round costs
   * more than `c`, and `n` sleeps fit before the guard, the loop ends well
   * by round `k + n`.
   */
  lemma {:induction false} ReadyInTime<S(!new)>(step: (nat, S) -> Result<S, Error>, done: S -> bool, timeout: Error,
                                          cost: nat -> nat, k: nat, s: S, left: int, n: nat, c: nat)
    requires forall j: nat, x: S :: step(j, x).Ok?
    requires forall j: nat, x: S :: j >= k + n ==> done(step(j, x).value)
    requires forall j: nat :: cost(j) <= c
    requires left >= GuardMs + n * (PollIntervalMs + c)
    ensures Poll(step, done, timeout, cost, k, s, left).Ok?
    ensures Poll(step, done, timeout, cost, k, s, left).value.1 <= k + n
    decreases n
  {
    var s' := step(k, s).value;
    if !done(s') {
      assert n > 0;
      assert n * (PollIntervalMs + c) == (n - 1) * (PollIntervalMs + c) + PollIntervalMs + c;
      ReadyInTime(step, done, timeout, cost, k + 1, s', left - PollIntervalMs - cost(k), n - 1, c);
    }
  }

  /** The wait loop as the providers write it, with a `while` loop; it computes `Poll`. */
  method PollLoop<S(!new)>(step: (nat, S) -> Result<S, Error>, done: S -> bool, timeout: Error,
                     cost: nat -> nat, s0: S, left0: int) returns (r: Result<(S, nat), Error>)
    ensures r == Poll(step, done, timeout, cost, 0, s0, left0)
  {
    var k: nat := 0;
    var s := s0;
    var left := left0;
    while true
      invariant Poll(step, done, timeout, cost, k, s, left) == Poll(step, done, timeout, cost, 0, s0, left0)
      decreases if left < 0 then 0 else left + 1
    {
      var next := step(k, s);
      if next.Err? {
        return Err(next.error);
      }
      if done(next.value) {
        return Ok((next.value, k));
      }
      if left < GuardMs {
        return Err(timeout);
      }
      left := left - PollIntervalMs - cost(k);
      s := next.value;
      k := k + 1;
    }
  }
}
