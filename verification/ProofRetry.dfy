/** Bounded publication of the cleanup proof. Clock, file observations and publication results are
    read from schedules, one entry per query. */
module ProofRetry {

  /** `clock(k)` is the k-th clock reading; `required(k)` the k-th look at the record (false: absent),
      even ones before an attempt and odd ones after it; `publishes(k)` and `stop(k)` what the k-th
      attempt and the stop request after it say. */
  datatype Schedule = Schedule(clock: nat -> real, required: nat -> bool, publishes: nat -> bool, stop: nat -> bool)

  const POLL_SECONDS: real := 1.0

  function Max(a: real, b: real): real { if a < b then b else a }

  function Min(a: real, b: real): real { if a < b then a else b }

  /** The pause after the k-th attempt. */
  function Pause(s: Schedule, deadline: real, k: nat): real {
    Min(POLL_SECONDS, deadline - s.clock(k))
  }

  /** Clock reading 0 fixes the deadline; reading k follows the k-th attempt. Readings never go back,
      and a pause before attempt k + 1 is slept out in full. */
  ghost predicate Sleeps(s: Schedule, deadline: real) {
    && s.clock(0) <= s.clock(1)
    && forall k: nat | k >= 1 && s.clock(k) < deadline :: s.clock(k + 1) >= s.clock(k) + Pause(s, deadline, k)
  }

  function Deadline(s: Schedule, timeout: real): real {
    s.clock(0) + Max(0.0, timeout)
  }

  function Ceiling(x: real): int {
    if x.Floor as real == x then x.Floor else x.Floor + 1
  }

  /** After k attempts that all slept, the clock is k - 1 seconds on, or the deadline has passed. */
  lemma {:induction false} ClockAdvances(s: Schedule, timeout: real, k: nat)
    requires Sleeps(s, Deadline(s, timeout)) && k >= 1
    requires forall j: nat | 1 <= j < k :: s.clock(j) < Deadline(s, timeout)
    ensures s.clock(k) >= Min(s.clock(0) + (k - 1) as real, Deadline(s, timeout))
  {
    if k > 1 {
      ClockAdvances(s, timeout, k - 1);
    }
  }

  /** As long as every attempt was before the deadline, there were no more than the bound. */
  lemma StillBounded(s: Schedule, timeout: real, k: nat)
    requires Sleeps(s, Deadline(s, timeout)) && k >= 1
    requires forall j: nat | 1 <= j <= k :: s.clock(j) < Deadline(s, timeout)
    ensures k <= Ceiling(Max(0.0, timeout))
  {
    ClockAdvances(s, timeout, k);
  }

  /** Publishes until it succeeds, the record is gone, a stop is requested or the deadline passes. The
      loop makes at most ceil(timeout) + 1 attempts, and success means that an attempt published the
      proof or that the record was observed absent; failure means that every attempt failed. It asks for
      one pause between two attempts, of one second or of what is left until the deadline. */
  method PublishWithRetry(s: Schedule, timeout: real) returns (ok: bool, attempts: nat, pauses: seq<real>)
    requires Sleeps(s, Deadline(s, timeout))
    ensures attempts <= Ceiling(Max(0.0, timeout)) + 1
    ensures ok ==> || (attempts >= 1 && s.publishes(attempts))
                   || (attempts >= 1 && !s.required(2 * attempts - 1))
                   || !s.required(2 * attempts)
    ensures forall j: nat | 1 <= j < attempts ::
      !s.publishes(j) && !s.stop(j) && s.required(2 * j - 1) && s.clock(j) < Deadline(s, timeout)
    ensures forall j: nat | j < attempts :: s.required(2 * j)
    ensures !ok ==> attempts >= 1 && !s.publishes(attempts) && s.required(2 * attempts - 1)
    ensures attempts <= |pauses| + 1 && |pauses| <= attempts
    ensures forall j: nat | j < |pauses| ::
      var left := Deadline(s, timeout) - s.clock(j + 1);
      pauses[j] > 0.0 && pauses[j] == if left >= 1.0 then 1.0 else left
    ensures !ok ==> s.stop(attempts) || s.clock(attempts) >= Deadline(s, timeout)
  {
    var deadline := s.clock(0) + Max(0.0, timeout);
    attempts, pauses := 0, [];
    var bound := Ceiling(Max(0.0, timeout)) + 1;
    while s.required(2 * attempts)
      invariant forall j: nat | 1 <= j <= attempts ::
        !s.publishes(j) && !s.stop(j) && s.required(2 * j - 1) && s.clock(j) < deadline
      invariant forall j: nat | 0 <= j < attempts :: s.required(2 * j)
      invariant attempts < bound && |pauses| == attempts
      invariant forall j: nat | j < |pauses| ::
        var left := deadline - s.clock(j + 1);
        pauses[j] > 0.0 && pauses[j] == if left >= 1.0 then 1.0 else left
      decreases bound - attempts
    {
      attempts := attempts + 1;
      if s.publishes(attempts) {
        return true, attempts, pauses;
      }
      if !s.required(2 * attempts - 1) {
        return true, attempts, pauses;
      }
      if s.stop(attempts) || s.clock(attempts) >= deadline {
        return false, attempts, pauses;
      }
      StillBounded(s, timeout, attempts);
      pauses := pauses + [Pause(s, deadline, attempts)];
    }
    ok := true;
  }
}
