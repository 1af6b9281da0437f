/** The shutdown coordinator: lock sections of concurrent calls, and the callback invocations that
    follow them outside the lock in any order. */
module Shutdown {
  import opened PyText

  /** One call, at the moment its lock section runs. Callbacks are compared by identity. */
  datatype Section = Request | Install(callback: int) | Uninstall(callback: int)

  // ----- What the order of lock sections determines -----

  predicate Requested(calls: seq<Section>) {
    exists k :: 0 <= k < |calls| && calls[k].Request?
  }

  /** The call that installed the callback now in place. */
  function CurrentInstall(calls: seq<Section>): (current: Option<nat>)
    ensures current.Some? ==> current.value < |calls| && calls[current.value].Install?
  {
    if calls == [] then None
    else
      var before, last := calls[..|calls| - 1], calls[|calls| - 1];
      match last
      case Request => CurrentInstall(before)
      case Install(_) => Some(|calls| - 1)
      case Uninstall(callback) =>
        var current := CurrentInstall(before);
        if current.Some? && calls[current.value].callback == callback then None else current
  }

  function CurrentCallback(calls: seq<Section>): Option<int> {
    match CurrentInstall(calls)
    case None => None
    case Some(i) => Some(calls[i].callback)
  }

  /** The installation whose callback call `c` invokes after leaving its lock section. */
  function Invokes(calls: seq<Section>, c: nat): Option<nat>
    requires c < |calls|
  {
    match calls[c]
    case Request => if Requested(calls[..c]) then None else CurrentInstall(calls[..c])
    case Install(_) => if Requested(calls[..c]) then Some(c) else None
    case Uninstall(_) => None
  }

  /** The coordinator itself; `history` is the sequence of lock sections so far. */
  class Coordinator {
    var requested: bool
    var callback: Option<int>
    ghost var history: seq<Section>

    ghost predicate Valid()
      reads this
    {
      requested == Requested(history) && callback == CurrentCallback(history)
    }

    constructor ()
      ensures Valid() && history == []
    {
      requested, callback, history := false, None, [];
    }

    /** The lock section of `request`: whether it is the first one, and what to call after it. */
    method RequestSection() returns (first: bool, invoke: Option<int>)
      requires Valid()
      modifies this
      ensures Valid() && history == old(history) + [Request]
      ensures first == !Requested(old(history))
      ensures invoke == if first then CurrentCallback(old(history)) else None
    {
      first := !requested;
      requested := true;
      invoke := if first then callback else None;
      Appended(history, Request);
      history := history + [Request];
    }

    method InstallSection(callback: int) returns (invoke: Option<int>)
      requires Valid()
      modifies this
      ensures Valid() && history == old(history) + [Install(callback)]
      ensures invoke == if Requested(old(history)) then Some(callback) else None
    {
      this.callback := Some(callback);
      invoke := if requested then Some(callback) else None;
      Appended(history, Install(callback));
      history := history + [Install(callback)];
    }

    method UninstallSection(callback: int)
      requires Valid()
      modifies this
      ensures Valid() && history == old(history) + [Uninstall(callback)]
    {
      if this.callback == Some(callback) {
        this.callback := None;
      }
      Appended(history, Uninstall(callback));
      history := history + [Uninstall(callback)];
    }
  }

  lemma Appended(calls: seq<Section>, s: Section)
    ensures Requested(calls + [s]) <==> Requested(calls) || s.Request?
    ensures (calls + [s])[..|calls|] == calls
  {
    var more := calls + [s];
    if Requested(calls) {
      var k :| 0 <= k < |calls| && calls[k].Request?;
      assert more[k].Request?;
    }
    if s.Request? {
      assert more[|calls|].Request?;
    }
  }

  // ----- An independent account: which installations are due a call -----

  /** Position of the first request, or the length when there is none. */
  function FirstRequest(calls: seq<Section>): (r: nat)
    ensures r <= |calls|
    ensures r < |calls| ==> calls[r].Request?
    ensures forall k | 0 <= k < r :: !calls[k].Request?
  {
    if calls == [] || calls[0].Request? then 0 else 1 + FirstRequest(calls[1..])
  }

  /** Installation `i` is undisturbed up to (not including) position `r`. */
  predicate Undisturbed(calls: seq<Section>, i: nat, r: nat)
    requires i < r <= |calls| && calls[i].Install?
  {
    forall k | i < k < r :: !calls[k].Install? && calls[k] != Uninstall(calls[i].callback)
  }

  /** Installation `i` is current at the first request, or comes after it. */
  predicate Due(calls: seq<Section>, i: nat)
    requires i < |calls| && calls[i].Install?
  {
    var r := FirstRequest(calls);
    r < |calls| && (i > r || Undisturbed(calls, i, r))
  }

  /** The one call that owes a due installation its invocation. */
  function Caller(calls: seq<Section>, i: nat): nat {
    if i > FirstRequest(calls) then i else FirstRequest(calls)
  }

  lemma {:induction false} CurrentIsUndisturbed(calls: seq<Section>, i: nat)
    requires i < |calls| && calls[i].Install?
    ensures CurrentInstall(calls) == Some(i) <==> Undisturbed(calls, i, |calls|)
    decreases |calls|
  {
    var before := calls[..|calls| - 1];
    if i < |calls| - 1 {
      CurrentIsUndisturbed(before, i);
      assert forall k | i < k < |calls| - 1 :: before[k] == calls[k];
    }
  }

  lemma RequestedBefore(calls: seq<Section>, c: nat)
    requires c <= |calls|
    ensures Requested(calls[..c]) <==> FirstRequest(calls) < c
  {
    var r := FirstRequest(calls);
    if r < c {
      assert calls[..c][r].Request?;
    } else {
      assert forall k | 0 <= k < c :: calls[..c][k] == calls[k];
    }
  }

  /** An installation is invoked by exactly one call when it is due, and by none otherwise. */
  lemma InvokedByOneCall(calls: seq<Section>, i: nat, c: nat)
    requires i < |calls| && calls[i].Install? && c < |calls|
    ensures Invokes(calls, c) == Some(i) <==> Due(calls, i) && c == Caller(calls, i)
  {
    RequestedBefore(calls, c);
    if calls[c].Request? && i < c {
      assert calls[..c][i] == calls[i];
      CurrentIsUndisturbed(calls[..c], i);
      assert forall k | i < k < c :: calls[..c][k] == calls[k];
    }
  }

  /** `request` reports "first" for the one call at the first request, and for no other. */
  lemma FirstRequestIsUnique(calls: seq<Section>, c: nat)
    requires c < |calls| && calls[c].Request?
    ensures !Requested(calls[..c]) <==> c == FirstRequest(calls)
  {
    RequestedBefore(calls, c);
  }

  // ----- Runs -----

  /** `pending` are calls that left their lock section and still owe an invocation; `log` lists the
      calls that carried theirs out, in order. */
  datatype State = State(calls: seq<Section>, pending: set<nat>, log: seq<nat>)

  datatype Action = Enter(section: Section) | Invoke(call: nat)

  predicate Enabled(s: State, a: Action) {
    a.Invoke? ==> a.call in s.pending
  }

  function Next(s: State, a: Action): State
    requires Enabled(s, a)
  {
    match a
    case Enter(section) =>
      var calls := s.calls + [section];
      State(calls, if Invokes(calls, |s.calls|).Some? then s.pending + {|s.calls|} else s.pending, s.log)
    case Invoke(call) => State(s.calls, s.pending - {call}, s.log + [call])
  }

  ghost predicate Run(ss: seq<State>, acts: seq<Action>) {
    && |ss| == |acts| + 1 && ss[0] == State([], {}, [])
    && forall k | 0 <= k < |acts| :: Enabled(ss[k], acts[k]) && ss[k + 1] == Next(ss[k], acts[k])
  }

  /** How often installation `i` was invoked. */
  function Invocations(s: State, i: nat, upTo: nat): nat
    requires upTo <= |s.log| && forall k | 0 <= k < |s.log| :: s.log[k] < |s.calls|
  {
    if upTo == 0 then 0
    else Invocations(s, i, upTo - 1) + if Invokes(s.calls, s.log[upTo - 1]) == Some(i) then 1 else 0
  }

  /** Every call that owes an invocation is pending or logged, and none is both or logged twice. */
  ghost predicate Inv(s: State) {
    && (forall k | 0 <= k < |s.log| :: s.log[k] < |s.calls| && s.log[k] !in s.pending)
    && (forall c | c in s.pending :: c < |s.calls|)
    && NoRepeats(s.log)
    && (forall c: nat | c < |s.calls| :: Invokes(s.calls, c).Some? <==> c in s.pending || c in s.log)
  }

  lemma InvokesIsStable(calls: seq<Section>, section: Section, c: nat)
    requires c < |calls|
    ensures Invokes(calls + [section], c) == Invokes(calls, c)
  {
    assert (calls + [section])[..c] == calls[..c];
  }

  lemma NextKeepsInv(s: State, a: Action)
    requires Inv(s) && Enabled(s, a)
    ensures Inv(Next(s, a))
  {
    if a.Enter? {
      forall c: nat | c < |s.calls| ensures Invokes(s.calls + [a.section], c) == Invokes(s.calls, c) {
        InvokesIsStable(s.calls, a.section, c);
      }
    }
  }

  lemma {:induction false} RunKeepsInv(ss: seq<State>, acts: seq<Action>, k: nat)
    requires Run(ss, acts) && k < |ss|
    ensures Inv(ss[k])
  {
    if k > 0 {
      RunKeepsInv(ss, acts, k - 1);
      NextKeepsInv(ss[k - 1], acts[k - 1]);
    }
  }

  predicate NoRepeats(log: seq<nat>) {
    forall j, k | 0 <= j < k < |log| :: log[j] != log[k]
  }

  function Occurrences(log: seq<nat>, c: nat, upTo: nat): nat
    requires upTo <= |log|
  {
    if upTo == 0 then 0 else Occurrences(log, c, upTo - 1) + if log[upTo - 1] == c then 1 else 0
  }

  /** A log without repetition counts each call at most once. */
  lemma {:induction false} OccursOnce(log: seq<nat>, c: nat, upTo: nat)
    requires NoRepeats(log) && upTo <= |log|
    ensures Occurrences(log, c, upTo) == if c in log[..upTo] then 1 else 0
  {
    if upTo > 0 {
      OccursOnce(log, c, upTo - 1);
      assert log[..upTo] == log[..upTo - 1] + [log[upTo - 1]];
    }
  }

  /** Where `c` is the only call that invokes `i`, counting invocations of `i` is counting `c`. */
  lemma {:induction false} CountedByCaller(s: State, i: nat, c: nat, upTo: nat)
    requires upTo <= |s.log| && forall k | 0 <= k < |s.log| :: s.log[k] < |s.calls|
    requires forall k | 0 <= k < |s.log| :: Invokes(s.calls, s.log[k]) == Some(i) <==> s.log[k] == c
    ensures Invocations(s, i, upTo) == Occurrences(s.log, c, upTo)
  {
    if upTo > 0 {
      CountedByCaller(s, i, c, upTo - 1);
    }
  }

  lemma {:induction false} NeverCounted(s: State, i: nat, upTo: nat)
    requires upTo <= |s.log| && forall k | 0 <= k < |s.log| :: s.log[k] < |s.calls|
    requires forall k | 0 <= k < |s.log| :: Invokes(s.calls, s.log[k]) != Some(i)
    ensures Invocations(s, i, upTo) == 0
  {
    if upTo > 0 {
      NeverCounted(s, i, upTo - 1);
    }
  }

  /** Over all interleavings: an installation's callback is invoked at most once; never unless it is
      due; and exactly once when it is due and no invocation is outstanding. */
  lemma InvokedExactlyWhenDue(ss: seq<State>, acts: seq<Action>, k: nat, i: nat)
    requires Run(ss, acts) && k < |ss| && i < |ss[k].calls| && ss[k].calls[i].Install?
    ensures forall n | 0 <= n < |ss[k].log| :: ss[k].log[n] < |ss[k].calls|
    ensures Invocations(ss[k], i, |ss[k].log|) <= if Due(ss[k].calls, i) then 1 else 0
    ensures ss[k].pending == {} ==> Invocations(ss[k], i, |ss[k].log|) == if Due(ss[k].calls, i) then 1 else 0
  {
    RunKeepsInv(ss, acts, k);
    var s := ss[k];
    forall d: nat | d < |s.calls|
      ensures Invokes(s.calls, d) == Some(i) <==> Due(s.calls, i) && d == Caller(s.calls, i) {
      InvokedByOneCall(s.calls, i, d);
    }
    if Due(s.calls, i) {
      CountedByCaller(s, i, Caller(s.calls, i), |s.log|);
      OccursOnce(s.log, Caller(s.calls, i), |s.log|);
      assert s.log[..|s.log|] == s.log;
    } else {
      NeverCounted(s, i, |s.log|);
    }
  }
}
