/** Promotion with its wait for the guardian's record: the application may start before the pending
    record is published. Clock readings and files are read from a schedule, one entry per attempt. */
module PromoteWait {
  import opened PyText
  import opened RecordTransitions
  import ProofRetry

  /** Reading 0 of the clock fixes the deadline; reading k follows a k-th attempt that found no record.
      `found(k)` are the files under the lock at the k-th attempt, `None` an I/O error. */
  datatype Schedule = Schedule(clock: nat -> real, found: nat -> Option<Files>)

  const POLL_SECONDS: real := 0.01

  function Deadline(s: Schedule, wait: real): real {
    s.clock(0) + ProofRetry.Max(wait, 0.0)
  }

  /** The k-th attempt finds no record, and there is time for another one. */
  predicate Waits(s: Schedule, wait: real, k: nat) {
    s.found(k).Some? && s.found(k).value.record.None? && s.clock(k) < Deadline(s, wait)
  }

  /** Readings never go back, and a pause before the next attempt is slept out in full. */
  ghost predicate Sleeps(s: Schedule, wait: real) {
    && s.clock(0) <= s.clock(1)
    && forall k: nat | k >= 1 && Waits(s, wait, k) :: s.clock(k + 1) >= s.clock(k) + POLL_SECONDS
  }

  lemma {:induction false} ClockAdvances(s: Schedule, wait: real, k: nat)
    requires Sleeps(s, wait) && k >= 1 && forall j: nat | 1 <= j < k :: Waits(s, wait, j)
    ensures s.clock(k) >= s.clock(0) + (k - 1) as real * POLL_SECONDS
  {
    if k > 1 {
      ClockAdvances(s, wait, k - 1);
      assert Waits(s, wait, k - 1);
    }
  }

  /** The loop is bounded; it waits only while there is no record and time is left; and the first attempt
      at which that is no longer so decides: the record found there is promoted exactly when it is this
      launch's pending one, whose application field is then all that changes. */
  method PromoteWithWait(s: Schedule, l: Launch, applicationPid: int, wait: real) returns (ok: bool, attempts: nat)
    requires Sleeps(s, wait)
    ensures attempts <= ProofRetry.Ceiling(100.0 * ProofRetry.Max(wait, 0.0)) + 1
    ensures attempts == 0 <==> !ValidLaunch(l) || applicationPid <= 0
    ensures attempts >= 1 ==> !Waits(s, wait, attempts) && forall j: nat | 1 <= j < attempts :: Waits(s, wait, j)
    ensures ok <==> attempts >= 1 && s.found(attempts).Some? && Promote(s.found(attempts).value, l, applicationPid).ok
    ensures attempts >= 1 ==> forall g, proof ::
      g > 0 && s.found(attempts) == Some(Files(Some(PendingPayload(l, g)), proof)) ==> ok
  {
    ok, attempts := false, 0;
    if !ValidLaunch(l) || applicationPid <= 0 {
      return;
    }
    var deadline := s.clock(0) + ProofRetry.Max(wait, 0.0);
    attempts := 1;
    while s.found(attempts).Some? && s.found(attempts).value.record.None? && s.clock(attempts) < deadline
      invariant attempts >= 1 && forall j: nat | 1 <= j < attempts :: Waits(s, wait, j)
      invariant attempts <= ProofRetry.Ceiling(100.0 * ProofRetry.Max(wait, 0.0)) + 1
      decreases ProofRetry.Ceiling(100.0 * ProofRetry.Max(wait, 0.0)) + 1 - attempts
    {
      ClockAdvances(s, wait, attempts);
      attempts := attempts + 1;
    }
    ok := s.found(attempts).Some? && Promote(s.found(attempts).value, l, applicationPid).ok;
    forall g, proof | g > 0 && s.found(attempts) == Some(Files(Some(PendingPayload(l, g)), proof)) ensures ok {
      PromoteCreated(s.found(attempts).value, l, g, applicationPid);
    }
  }
}
