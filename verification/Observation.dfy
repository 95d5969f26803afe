/** The timing of one worker's observation and the chain of timeouts behind it
    (launcher/lifecycle.py:42-50, 175-201, 221-238; launcher/k8s.py:237-258, 435-449;
    launcher/config.py:76-83; launcher/cli.py:297). Time passes only inside calls and sleeps. */
module Observation {

  const STREAM_GRACE := 180
  const TERMINAL_GRACE := 60
  const DEADLINE_MARGIN := 300
  const WAIT_CAP := 2700
  const KUBECTL := 60.0

  class Clock {
    var now: real
    /** The answers of the calls made: an observation, nothing the source keeps. */
    ghost var answers: seq<bool>

    constructor (t: real)
      ensures now == t && answers == []
    {
      now, answers := t, [];
    }

    /** A kubectl call: any answer, after at most its timeout. */
    method Kubectl() returns (hit: bool)
      modifies this
      ensures old(now) <= now <= old(now) + KUBECTL && answers == old(answers) + [hit]
    {
      var took: real :| 0.0 <= took <= KUBECTL;
      now := now + took;
      hit := *;
      answers := answers + [hit];
    }

    method Sleep(s: real)
      requires s >= 0.0
      modifies `now
      ensures now == old(now) + s
    {
      now := now + s;
    }

    /** `kubectl logs -f`, killed at its timeout. */
    method Stream(timeout: nat)
      modifies `now
      ensures old(now) <= now <= old(now) + timeout as real
    {
      var took: real :| 0.0 <= took <= timeout as real;
      now := now + took;
    }
  }

  /** `max(0, int(...))`: what remains to the shared end point. */
  function Remaining(obsStart: real, deadline: int, grace: int, now: real): (r: nat)
    ensures r > 0 ==> now + r as real <= obsStart + (deadline + grace) as real
    ensures now + r as real > obsStart + (deadline + grace) as real - 1.0
  {
    var left := (obsStart + (deadline + grace) as real - now).Floor;
    if left > 0 then left else 0
  }

  function MaxReal(a: real, b: real): real {
    if a < b then b else a
  }

  /** Polling ends with the first answer that hits, or without one. */
  ghost predicate Polled(earlier: seq<bool>, now: seq<bool>, hit: bool) {
    && earlier <= now && (hit ==> |now| > |earlier| && now[|now| - 1])
    && forall i | |earlier| <= i < (if hit then |now| - 1 else |now|) :: !now[i]
  }

  /** `_pod_of_job`: a lookup that begins before its deadline may end one call and one pause after it. */
  method PodOfJob(clock: Clock, timeout: nat) returns (found: bool)
    modifies clock
    ensures old(clock.now) <= clock.now <= old(clock.now) + timeout as real + KUBECTL + 2.0
    ensures Polled(old(clock.answers), clock.answers, found)
    ensures !found ==> clock.now >= old(clock.now) + timeout as real
  {
    var deadline := clock.now + timeout as real;
    while clock.now < deadline
      invariant old(clock.now) <= clock.now <= deadline + KUBECTL + 2.0
      invariant Polled(old(clock.answers), clock.answers, false)
      decreases deadline - clock.now
    {
      found := clock.Kubectl();
      if found {
        return;
      }
      clock.Sleep(2.0);
    }
    found := false;
  }

  /** `_wait_job_terminal`: the overshoot is one pause and one call, or the first call alone. */
  method WaitJobTerminal(clock: Clock, timeout: nat) returns (terminal: bool)
    modifies clock
    ensures clock.now >= old(clock.now)
    ensures clock.now <= old(clock.now) + KUBECTL
            || (timeout > 0 && clock.now < old(clock.now) + timeout as real + 5.0 + KUBECTL)
    ensures Polled(old(clock.answers), clock.answers, terminal) && |clock.answers| > |old(clock.answers)|
    ensures !terminal ==> clock.now >= old(clock.now) + timeout as real
  {
    var deadline := clock.now + timeout as real;
    while true
      invariant clock.now >= old(clock.now)
      invariant clock.now == old(clock.now) || (timeout > 0 && clock.now < deadline + 5.0)
      invariant Polled(old(clock.answers), clock.answers, false)
      decreases deadline + 5.0 - clock.now
    {
      terminal := clock.Kubectl();
      if terminal {
        return;
      }
      if clock.now >= deadline {
        return;
      }
      clock.Sleep(5.0);
    }
  }

  /** The whole observation of a worker, from its Job's creation: it ends before the deadline, both
      graces and one poll's overshoot of 65 s have passed, however the calls are timed. Only a
      deadline below -63 s lets the pod lookup itself outlast that. */
  method ObserveWorker(clock: Clock, deadline: int)
    modifies clock
    ensures clock.now <= old(clock.now) + MaxReal((deadline + STREAM_GRACE + TERMINAL_GRACE + 65) as real, 242.0)
    ensures deadline >= -63 ==> clock.now <= old(clock.now) + (deadline + STREAM_GRACE + TERMINAL_GRACE + 65) as real
  {
    var obsStart := clock.now;
    var found := PodOfJob(clock, 120);
    if found {
      clock.Stream(Remaining(obsStart, deadline, STREAM_GRACE, clock.now));
    }
    var _ := WaitJobTerminal(clock, Remaining(obsStart, deadline, STREAM_GRACE + TERMINAL_GRACE, clock.now));
  }

  // ---------------------------------------------------------------- the timeouts

  datatype Timeouts = Timeouts(api: real, turn: real, job: int)

  /** `Config.from_env` and `job_deadline` without the override, for any two environment values. */
  function FromEnv(api: real, turn: real): Timeouts {
    var a := MaxReal(1.0, api);
    var t := if turn <= a then a + MaxReal(15.0, a * 0.2) else turn;
    Timeouts(a, t, t.Floor + DEADLINE_MARGIN)
  }

  /** The timers never fire in the wrong order, and the observation stays under the waiter's cap for
      turn timeouts below 2095 s, the defaults among them. */
  lemma TimerOrder(api: real, turn: real)
    ensures var t := FromEnv(api, turn);
            && 1.0 <= t.api < t.turn < t.job as real
            && (t.job + STREAM_GRACE + TERMINAL_GRACE + 65 < WAIT_CAP <==> t.turn < 2095.0)
    ensures FromEnv(600.0, 1800.0) == Timeouts(600.0, 1800.0, 2100)
  {
    var t := FromEnv(api, turn);
    assert t.turn.Floor < 2095 <==> t.turn < 2095.0;
  }
}
