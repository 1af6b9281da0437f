/** The guardian's shutdown path on Linux as a state machine interleaved with the operating system,
    the control pipe and the recovery-record transitions of every other process: from the first
    termination round to the release of the workspace lease. */
module GuardianRun {
  import opened PyText
  import opened Processes
  import opened Refresh
  import opened ControlPipe
  import opened Containment
  import opened RecoveryRecord
  import opened RecordTransitions
  import RecordRuns

  /** The guardian's generation, its PID, the application it forked and the launch it serves. */
  datatype Identity = Identity(gen: nat, pid: int, applicationPid: int, launch: Launch)

  datatype Round = First | Second

  datatype Pc =
    // Inside one termination call: its own view of the tracked processes, and whether the last
    // refresh of this call came back empty.
    | Terminating(round: Round, view: map<int, string>, emptySeen: bool)
    | Draining(registered: bool)
    | Publishing
    | Releasing
    | Finished

  /** `open` says that some process still holds a write end. */
  datatype Pipe = Pipe(queued: string, open: bool)

  datatype State = State(
    sys: RecordRuns.State,
    pipe: Pipe,
    written: string,
    consumed: string,
    buffer: string,
    tracked: map<int, string>,
    groups: map<int, string>,
    ids: set<int>,
    pc: Pc,
    leaseHeld: bool,
    evidence: Option<Files>)

  // ----- The environment -----

  /** Any process or record activity that leaves the guardian alive and is no fork of its own. */
  ghost predicate EnvSystem(id: Identity, s: State, s': State) {
    && s' == s.(sys := s'.sys)
    && exists a :: RecordRuns.Step(s.sys, a, s'.sys) && Quiet(a.path, id.gen, id.pid)
  }

  predicate EnvWrite(s: State, s': State) {
    && s.pipe.open && |s.pipe.queued| <= |s'.pipe.queued| && s.pipe.queued <= s'.pipe.queued
    && var bytes := s'.pipe.queued[|s.pipe.queued|..];
    s' == s.(pipe := s'.pipe, written := s.written + bytes) && s'.pipe.open
  }

  /** The last write end closes; nobody can open another one. */
  predicate EnvClose(s: State, s': State) {
    s.pipe.open && s' == s.(pipe := s.pipe.(open := false))
  }

  // ----- Termination -----

  function Restart(s: State): State {
    s.(pc := Terminating(First, s.tracked, false))
  }

  function Terminated(s: State): State
    requires s.pc.Terminating?
  {
    if s.pc.round == First then s.(pc := Draining(false)) else s.(pc := Publishing)
  }

  /** A refresh on a snapshot of this moment. `confirm` says that the confirmation time is over. */
  ghost predicate TerminateRefresh(id: Identity, s: State, s': State) {
    && s.pc.Terminating? && ValidWorld(s.sys.world)
    && exists snapshot: Snapshot, confirm: bool ::
         AtomicSnapshot(s.sys.world, snapshot) && s' == AfterRefresh(id, s, snapshot, confirm)
  }

  ghost function AfterRefresh(id: Identity, s: State, snapshot: Snapshot, confirm: bool): State
    requires s.pc.Terminating?
  {
    var h := Holdings(s.pc.view, s.groups, s.ids);
    var view := Refreshed(snapshot, h, Some(id.pid));
    var next := s.(groups := RefreshedGroups(snapshot, h, Some(id.pid)), ids := GrownIds(snapshot, h, Some(id.pid)));
    if view == map[] && s.pc.emptySeen && confirm then Terminated(next)
    else next.(pc := Terminating(s.pc.round, view, view == map[]))
  }

  /** A refresh that failed: the view stays, the confirmation starts over. */
  predicate TerminateFailed(s: State, s': State) {
    && s.pc.Terminating?
    && s' == s.(groups := s'.groups, ids := s'.ids, pc := s.pc.(emptySeen := false))
  }

  predicate TerminateTimeout(s: State, s': State) {
    s.pc.Terminating? && s' == Restart(s)
  }

  // ----- Drain -----

  ghost predicate DrainRead(s: State, s': State) {
    && s.pc.Draining?
    && exists n: nat, lookup: int -> TokenRead :: 0 < n <= |s.pipe.queued| && s' == AfterRead(s, n, lookup)
  }

  function AfterRead(s: State, n: nat, lookup: int -> TokenRead): State
    requires s.pc.Draining? && 0 < n <= |s.pipe.queued|
  {
    var payload := s.pipe.queued[..n];
    var r := Consume(s.buffer + payload, Control(s.tracked, s.ids, false, s.pc.registered), lookup);
    s.(pipe := s.pipe.(queued := s.pipe.queued[n..]), consumed := s.consumed + payload,
       buffer := r.0, tracked := r.1.tracked, ids := r.1.ids, pc := Draining(r.1.registered))
  }

  /** An empty pipe that is still open, or a read error: the drain is unresolved. */
  predicate DrainUnresolved(s: State, s': State) {
    s.pc.Draining? && s' == Restart(s)
  }

  predicate DrainEof(s: State, s': State) {
    && s.pc.Draining? && s.pipe == Pipe("", false)
    && s' == if s.buffer != "" || s.pc.registered then Restart(s) else s.(pc := Terminating(Second, s.tracked, false))
  }

  // ----- Proof and lease -----

  /** What ends the publication loop with success: the record is observed absent, or this guardian's
      publication ran to its end. */
  ghost predicate PublishSucceeds(id: Identity, s: State, s': State) {
    && s.pc.Publishing?
    && (|| (s.sys.files.record.None? && s'.sys == s.sys)
        || (exists a :: RecordRuns.Step(s.sys, a, s'.sys) && Quiet(a.path, id.gen, id.pid) && PublishesAll(id, s, a)))
    && s' == s.(sys := s'.sys, pc := Releasing, evidence := Some(s'.sys.files))
  }

  ghost predicate PublishesAll(id: Identity, s: State, a: RecordRuns.Action) {
    && a.Call? && a.op == OpPublish(id.launch, id.applicationPid) && a.caller == id.pid
    && PlanOf(s.sys.files, a.op).ok && a.writes == |PlanOf(s.sys.files, a.op).states| - 1
  }

  predicate PublishGivesUp(s: State, s': State) {
    s.pc.Publishing? && s' == s.(pc := Finished)
  }

  predicate ReleaseLease(s: State, s': State) {
    s.pc.Releasing? && s' == s.(pc := Finished, leaseHeld := false)
  }

  predicate ReleaseFails(s: State, s': State) {
    s.pc.Releasing? && s' == s.(pc := Finished)
  }

  ghost predicate Environment(id: Identity, s: State, s': State) {
    EnvSystem(id, s, s') || EnvWrite(s, s') || EnvClose(s, s')
  }

  ghost predicate Terminates(id: Identity, s: State, s': State) {
    TerminateRefresh(id, s, s') || TerminateFailed(s, s') || TerminateTimeout(s, s')
  }

  ghost predicate Drains(s: State, s': State) {
    DrainRead(s, s') || DrainUnresolved(s, s') || DrainEof(s, s')
  }

  ghost predicate Concludes(id: Identity, s: State, s': State) {
    PublishSucceeds(id, s, s') || PublishGivesUp(s, s') || ReleaseLease(s, s') || ReleaseFails(s, s')
  }

  ghost predicate Next(id: Identity, s: State, s': State) {
    Environment(id, s, s') || Terminates(id, s, s') || Drains(s, s') || Concludes(id, s, s')
  }

  /** The guardian is a subreaper of a rooted tree and holds the lease; everything else is arbitrary. */
  ghost predicate Init(id: Identity, s: State) {
    && RecordRuns.Inv(s.sys) && Guards(s.sys.world, id.gen, id.pid) && Rooted(s.sys.world, id.gen)
    && s.pc == Terminating(First, s.tracked, false) && s.leaseHeld && s.evidence.None?
    && s.written == s.consumed + s.pipe.queued
  }

  ghost predicate Run(id: Identity, ss: seq<State>) {
    Steps(id, ss) && Init(id, ss[0])
  }

  /** Consecutive steps, from any state. */
  ghost predicate Steps(id: Identity, ss: seq<State>) {
    |ss| > 0 && forall i | 0 <= i < |ss| - 1 :: NextAt(id, ss, i)
  }

  ghost predicate NextAt(id: Identity, ss: seq<State>, i: int)
    requires 0 <= i < |ss| - 1
  {
    Next(id, ss[i], ss[i + 1])
  }

  // ----- Invariant -----

  /** Clean end of file: no write end, nothing queued, no unfinished command. */
  predicate PipeClean(s: State) {
    s.pipe == Pipe("", false) && s.buffer == ""
  }

  /** The recovery state the release may rely on: no record, or the exact proof beside it. */
  predicate Proved(id: Identity, files: Files) {
    files.record.None? || files.proof == Some(PrintProof(id.launch.token))
  }

  /** No process the guardian gave rise to is left. */
  ghost predicate Emptied(id: Identity, w: World) {
    ValidWorld(w) && TreeEmpty(w, id.gen)
  }

  ghost predicate AtPc(id: Identity, s: State) {
    match s.pc
    case Terminating(round, view, emptySeen) => (emptySeen ==> view == map[]) && (round == Second ==> PipeClean(s))
    case Draining(_) => true
    case Publishing => PipeClean(s) && Emptied(id, s.sys.world)
    case Releasing => PipeClean(s) && Emptied(id, s.sys.world) && s.evidence.Some? && Proved(id, s.evidence.value)
    case Finished =>
      !s.leaseHeld ==> PipeClean(s) && Emptied(id, s.sys.world) && s.evidence.Some? && Proved(id, s.evidence.value)
  }

  /** What the guardian knows at each point of its own program. */
  ghost predicate Local(id: Identity, s: State) {
    && s.written == s.consumed + s.pipe.queued
    && (!s.pc.Finished? ==> s.leaseHeld)
    && AtPc(id, s)
  }

  /** What holds of the system around it. */
  ghost predicate Around(id: Identity, sys: RecordRuns.State) {
    RecordRuns.Inv(sys) && Guards(sys.world, id.gen, id.pid) && Rooted(sys.world, id.gen)
  }

  ghost predicate Inv(id: Identity, s: State) {
    Around(id, s.sys) && Local(id, s)
  }

  lemma SystemStepKeeps(id: Identity, sys: RecordRuns.State, sys': RecordRuns.State, a: RecordRuns.Action)
    ensures Around(id, sys) && RecordRuns.Step(sys, a, sys') && Quiet(a.path, id.gen, id.pid) ==> Around(id, sys')
    ensures Around(id, sys) && RecordRuns.Step(sys, a, sys') && Quiet(a.path, id.gen, id.pid) ==>
      (Emptied(id, sys.world) ==> Emptied(id, sys'.world))
  {
    if Around(id, sys) && RecordRuns.Step(sys, a, sys') && Quiet(a.path, id.gen, id.pid) {
      RecordRuns.StepKeepsInv(sys, a, sys');
      var last := |a.path| - 1;
      RootedAlong(a.path, id.gen, id.pid, last);
      if Emptied(id, sys.world) {
        EmptyForever(a.path, id.gen, id.pid, last);
      }
    }
  }

  /** A termination call that ends has confirmed an empty tree. */
  lemma ConfirmationIsEmpty(id: Identity, s: State, s': State)
    requires Inv(id, s) && TerminateRefresh(id, s, s') && !s'.pc.Terminating?
    ensures Emptied(id, s.sys.world)
  {
    var snapshot: Snapshot, confirm: bool :|
      AtomicSnapshot(s.sys.world, snapshot) && s' == AfterRefresh(id, s, snapshot, confirm);
    ConfirmedEmpty(s.sys.world, snapshot, Holdings(s.pc.view, s.groups, s.ids), id.gen, id.pid);
  }

  lemma RefreshKeeps(id: Identity, s: State, s': State)
    ensures Inv(id, s) && TerminateRefresh(id, s, s') ==> Local(id, s') && s'.sys == s.sys
  {
    if Inv(id, s) && TerminateRefresh(id, s, s') {
      if !s'.pc.Terminating? {
        ConfirmationIsEmpty(id, s, s');
      }
    }
  }

  /** Whatever ends the publication loop with success leaves no record, or the exact proof. */
  lemma PublishProves(id: Identity, s: State, s': State)
    requires PublishSucceeds(id, s, s')
    ensures Proved(id, s'.sys.files)
  {
    if !(s.sys.files.record.None? && s'.sys == s.sys) {
      var a :| RecordRuns.Step(s.sys, a, s'.sys) && Quiet(a.path, id.gen, id.pid) && PublishesAll(id, s, a);
    }
  }

  lemma PublishKeeps(id: Identity, s: State, s': State)
    ensures Inv(id, s) && PublishSucceeds(id, s, s') ==> Inv(id, s')
  {
    if Inv(id, s) && PublishSucceeds(id, s, s') {
      PublishProves(id, s, s');
      if !(s.sys.files.record.None? && s'.sys == s.sys) {
        var a :| RecordRuns.Step(s.sys, a, s'.sys) && Quiet(a.path, id.gen, id.pid) && PublishesAll(id, s, a);
        SystemStepKeeps(id, s.sys, s'.sys, a);
      }
    }
  }

  lemma SystemKeeps(id: Identity, s: State, s': State)
    ensures Inv(id, s) && EnvSystem(id, s, s') ==> Inv(id, s')
  {
    if Inv(id, s) && EnvSystem(id, s, s') {
      var a :| RecordRuns.Step(s.sys, a, s'.sys) && Quiet(a.path, id.gen, id.pid);
      SystemStepKeeps(id, s.sys, s'.sys, a);
    }
  }

  lemma PipeStepKeeps(id: Identity, s: State, s': State)
    ensures Local(id, s) && (EnvWrite(s, s') || EnvClose(s, s')) ==> Local(id, s') && s'.sys == s.sys
  {
    if Local(id, s) && (EnvWrite(s, s') || EnvClose(s, s')) {
      if EnvWrite(s, s') {
        assert s'.pipe.queued == s.pipe.queued + s'.pipe.queued[|s.pipe.queued|..];
      }
    }
  }

  lemma ReadKeeps(id: Identity, s: State, n: nat, lookup: int -> TokenRead)
    ensures Local(id, s) && s.pc.Draining? && 0 < n <= |s.pipe.queued| ==>
      Local(id, AfterRead(s, n, lookup)) && AfterRead(s, n, lookup).sys == s.sys
  {
    if Local(id, s) && s.pc.Draining? && 0 < n <= |s.pipe.queued| {
      var head, tail := s.pipe.queued[..n], s.pipe.queued[n..];
      assert s.pipe.queued == head + tail;
      assert (s.consumed + head) + tail == s.consumed + (head + tail);
    }
  }

  lemma DrainReadKeeps(id: Identity, s: State, s': State)
    ensures Local(id, s) && DrainRead(s, s') ==> Local(id, s') && s'.sys == s.sys
  {
    if Local(id, s) && DrainRead(s, s') {
      var n: nat, lookup: int -> TokenRead :| 0 < n <= |s.pipe.queued| && s' == AfterRead(s, n, lookup);
      ReadKeeps(id, s, n, lookup);
    }
  }

  lemma DrainEndKeeps(id: Identity, s: State, s': State)
    ensures Local(id, s) && (DrainUnresolved(s, s') || DrainEof(s, s')) ==> Local(id, s') && s'.sys == s.sys
  {
  }

  lemma EnvironmentKeepsInv(id: Identity, s: State, s': State)
    ensures Inv(id, s) && Environment(id, s, s') ==> Inv(id, s')
  {
    if Inv(id, s) && Environment(id, s, s') {
      if EnvSystem(id, s, s') {
        SystemKeeps(id, s, s');
      } else {
        PipeStepKeeps(id, s, s');
      }
    }
  }

  lemma TerminationKeepsInv(id: Identity, s: State, s': State)
    ensures Inv(id, s) && Terminates(id, s, s') ==> Inv(id, s')
  {
    if Inv(id, s) && Terminates(id, s, s') {
      if TerminateRefresh(id, s, s') {
        RefreshKeeps(id, s, s');
      }
    }
  }

  lemma DrainKeepsInv(id: Identity, s: State, s': State)
    ensures Inv(id, s) && Drains(s, s') ==> Inv(id, s')
  {
    if Inv(id, s) && Drains(s, s') {
      if DrainRead(s, s') {
        DrainReadKeeps(id, s, s');
      } else {
        DrainEndKeeps(id, s, s');
      }
    }
  }

  lemma ConclusionKeepsInv(id: Identity, s: State, s': State)
    ensures Inv(id, s) && Concludes(id, s, s') ==> Inv(id, s')
  {
    if Inv(id, s) && Concludes(id, s, s') {
      if PublishSucceeds(id, s, s') {
        PublishKeeps(id, s, s');
      }
    }
  }

  lemma NextKeepsInv(id: Identity, s: State, s': State)
    requires Inv(id, s) && Next(id, s, s')
    ensures Inv(id, s')
  {
    if Environment(id, s, s') {
      EnvironmentKeepsInv(id, s, s');
    } else if Terminates(id, s, s') {
      TerminationKeepsInv(id, s, s');
    } else if Drains(s, s') {
      DrainKeepsInv(id, s, s');
    } else {
      ConclusionKeepsInv(id, s, s');
    }
  }

  lemma {:induction false} RunKeepsInv(id: Identity, ss: seq<State>, i: nat)
    requires Run(id, ss) && i < |ss|
    ensures Inv(id, ss[i])
  {
    if i > 0 {
      RunKeepsInv(id, ss, i - 1);
      assert NextAt(id, ss, i - 1);
      NextKeepsInv(id, ss[i - 1], ss[i]);
    }
  }

  /** The workspace lease is released only when no process the guardian ever gave rise to is alive,
      every byte ever written to the control pipe was consumed with no command unfinished and no
      writer left, and the exact proof was durable or the record absent at publication; otherwise the
      lease is still held. This holds at every moment of every run, including all later ones. */
  lemma LeaseReleaseIsSafe(id: Identity, ss: seq<State>, i: nat)
    requires Run(id, ss) && i < |ss|
    ensures ss[i].leaseHeld
         || (&& Emptied(id, ss[i].sys.world)
             && !ss[i].pipe.open && ss[i].consumed == ss[i].written && ss[i].buffer == ""
             && ss[i].evidence.Some? && Proved(id, ss[i].evidence.value))
  {
    RunKeepsInv(id, ss, i);
  }

  // ----- What a drain takes in -----

  /** A registration that is read whole is tracked by the next termination call, if its token is current, and
      keeps this drain from ending clean. */
  lemma DrainedRegistration(s: State, n: nat, pid: nat, token: string, uniqueId: Option<nat>, lookup: int -> TokenRead)
    requires s.pc.Draining? && s.buffer == "" && 0 < n <= |s.pipe.queued|
    requires pid > 0 && IsAscii(token) && '\t' !in token && '\n' !in token && (uniqueId.Some? ==> uniqueId.value > 0)
    requires s.pipe.queued[..n] == RegisterLine(pid, token, uniqueId) + ['\n']
    ensures var s' := AfterRead(s, n, lookup);
      && s'.pc == Draining(true) && s'.buffer == "" && s'.groups == s.groups
      && s'.tracked == (if lookup(pid) == Token(token) then s.tracked[pid := token] else s.tracked)
      && s'.ids == s.ids + (if uniqueId.Some? then {uniqueId.value} else {})
      && Restart(s').pc.view == s'.tracked
      && !exists later :: DrainsClean(s', later)
  {
    var c := Control(s.tracked, s.ids, false, s.pc.registered);
    assert s.buffer + s.pipe.queued[..n] == RegisterLine(pid, token, uniqueId) + ['\n'] + "";
    RegistrationIsConsumed(c, pid, token, uniqueId, "", lookup);
    NoLineNoEffect("", Registered(c, pid, token, uniqueId, lookup), lookup);
  }

  /** A refresh takes over the groups and unique ids it found, and leaves the registered processes alone. */
  lemma RefreshTakesOver(id: Identity, s: State, snapshot: Snapshot, confirm: bool)
    requires s.pc.Terminating?
    ensures var h, s' := Holdings(s.pc.view, s.groups, s.ids), AfterRefresh(id, s, snapshot, confirm);
      && s'.groups == RefreshedGroups(snapshot, h, Some(id.pid)) && s'.ids == GrownIds(snapshot, h, Some(id.pid))
      && s'.tracked == s.tracked
  {
  }

  // ----- The order of the guardian's phases -----

  /** A termination call ends: the refresh before this one and this one both came back empty. */
  ghost predicate Confirms(id: Identity, s: State, s': State, round: Round) {
    s.pc.Terminating? && s.pc.round == round && s.pc.emptySeen && TerminateRefresh(id, s, s') && !s'.pc.Terminating?
  }

  /** The drain ends: clean end of file, empty buffer, nothing registered. */
  predicate DrainsClean(s: State, s': State) {
    s.pc == Draining(false) && PipeClean(s) && DrainEof(s, s')
  }

  predicate InRound(s: State, round: Round) {
    s.pc.Terminating? && s.pc.round == round
  }

  lemma EnvironmentMoves(id: Identity, s: State, s': State)
    ensures Environment(id, s, s') ==> s'.pc == s.pc && s'.leaseHeld == s.leaseHeld
  {
  }

  lemma TerminationMoves(id: Identity, s: State, s': State)
    requires Terminates(id, s, s')
    ensures s.pc.Terminating? && s'.leaseHeld == s.leaseHeld
    ensures SawEmpty(s') ==> TerminateRefresh(id, s, s') && s'.pc.view == map[]
    ensures || (s'.pc.Terminating? && s'.pc.round in {First, s.pc.round})
            || (s'.pc == Draining(false) && Confirms(id, s, s', First))
            || (s'.pc == Publishing && Confirms(id, s, s', Second))
  {
  }

  lemma DrainMoves(s: State, s': State)
    requires Drains(s, s')
    ensures s.pc.Draining? && s'.leaseHeld == s.leaseHeld
    ensures || s'.pc.Draining?
            || (s'.pc.Terminating? && !s'.pc.emptySeen && (s'.pc.round == Second ==> DrainsClean(s, s')))
  {
  }

  lemma ConclusionMoves(id: Identity, s: State, s': State)
    requires Concludes(id, s, s')
    ensures s'.pc == Finished || (s.pc == Publishing && s'.pc == Releasing && PublishSucceeds(id, s, s'))
    ensures s.leaseHeld && !s'.leaseHeld ==> s.pc == Releasing && ReleaseLease(s, s')
  {
  }

  /** Each phase is entered in one way only. */
  ghost predicate Orderly(id: Identity, s: State, s': State) {
    && (s.leaseHeld && !s'.leaseHeld ==> s.pc == Releasing && ReleaseLease(s, s'))
    && (s'.pc == Releasing && s.pc != Releasing ==> PublishSucceeds(id, s, s'))
    && (s'.pc == Publishing && s.pc != Publishing ==> Confirms(id, s, s', Second))
    && (InRound(s', Second) && !InRound(s, Second) ==> DrainsClean(s, s'))
    && (s'.pc.Draining? && !s.pc.Draining? ==> Confirms(id, s, s', First))
    && (SawEmpty(s') && s'.pc != s.pc ==> TerminateRefresh(id, s, s') && s'.pc.view == map[])
  }

  /** The last refresh of the current termination call came back empty. */
  predicate SawEmpty(s: State) {
    s.pc.Terminating? && s.pc.emptySeen
  }

  lemma PhasesInOrder(id: Identity, s: State, s': State)
    requires Next(id, s, s')
    ensures Orderly(id, s, s')
  {
    if Environment(id, s, s') {
      EnvironmentMoves(id, s, s');
    } else if Terminates(id, s, s') {
      TerminationMoves(id, s, s');
    } else if Drains(s, s') {
      DrainMoves(s, s');
    } else {
      ConclusionMoves(id, s, s');
    }
  }

  lemma OrderlyAt(id: Identity, ss: seq<State>, i: nat)
    requires Steps(id, ss) && 0 < i < |ss|
    ensures Orderly(id, ss[i - 1], ss[i])
  {
    assert NextAt(id, ss, i - 1);
    PhasesInOrder(id, ss[i - 1], ss[i]);
  }

  /** Where the run last entered a phase it is in at moment `i` and was not in at the start. */
  lemma {:induction false} LastEntry(ss: seq<State>, inPhase: State -> bool, i: nat) returns (k: nat)
    requires i < |ss| && inPhase(ss[i]) && !inPhase(ss[0])
    ensures k < i && !inPhase(ss[k]) && inPhase(ss[k + 1])
  {
    if inPhase(ss[i - 1]) {
      k := LastEntry(ss, inPhase, i - 1);
    } else {
      k := i - 1;
    }
  }

  /** The main ordering theorem: a run that has released the lease did so after, in this order, a
      confirmed empty tree, a drain to clean end of file with an empty buffer and no registration, a
      second confirmed empty tree, and a publication that left the exact proof or found no record. */
  lemma ReleaseHistory(id: Identity, ss: seq<State>, i: nat, s: State)
    returns (first: nat, drain: nat, second: nat, publish: nat, release: nat)
    requires Run(id, ss) && Moment(ss, i, s) && !s.leaseHeld
    ensures first < drain < second < publish < release < i
    ensures Confirms(id, ss[first], ss[first + 1], First) && Emptied(id, ss[first].sys.world)
    ensures DrainsClean(ss[drain], ss[drain + 1])
    ensures Confirms(id, ss[second], ss[second + 1], Second) && Emptied(id, ss[second].sys.world)
    ensures PublishSucceeds(id, ss[publish], ss[publish + 1]) && Proved(id, ss[publish + 1].sys.files)
    ensures ReleaseLease(ss[release], ss[release + 1])
  {
    release := LastEntry(ss, (s: State) => !s.leaseHeld, i);
    OrderlyAt(id, ss, release + 1);
    second, publish := PublicationBefore(id, ss, release, ss[0], ss[release]);
    first, drain := DrainBefore(id, ss, second, ss[0], ss[second]);
    PublishProves(id, ss[publish], ss[publish + 1]);
    ConfirmedAt(id, ss, second, ss[second], ss[second + 1]);
    ConfirmedAt(id, ss, first, ss[first], ss[first + 1]);
  }

  predicate Moment(ss: seq<State>, i: nat, s: State) {
    i < |ss| && ss[i] == s
  }

  /** A release is preceded by a publication, and that by the end of a second termination call. */
  lemma PublicationBefore(id: Identity, ss: seq<State>, release: nat, s0: State, s: State)
    returns (second: nat, publish: nat)
    requires Steps(id, ss) && Moment(ss, 0, s0) && InRound(s0, First) && Moment(ss, release, s) && s.pc == Releasing
    ensures second < publish < release
    ensures PublishSucceeds(id, ss[publish], ss[publish + 1]) && Confirms(id, ss[second], ss[second + 1], Second)
  {
    publish := LastEntry(ss, (s: State) => s.pc == Releasing, release);
    OrderlyAt(id, ss, publish + 1);
    assert ss[publish].pc == Publishing;
    second := LastEntry(ss, (s: State) => s.pc == Publishing, publish);
    OrderlyAt(id, ss, second + 1);
  }

  /** A second termination call is preceded by a clean drain, and that by the end of a first one. */
  lemma DrainBefore(id: Identity, ss: seq<State>, second: nat, s0: State, s: State) returns (first: nat, drain: nat)
    requires Steps(id, ss) && Moment(ss, 0, s0) && InRound(s0, First) && Moment(ss, second, s) && InRound(s, Second)
    ensures first < drain < second
    ensures DrainsClean(ss[drain], ss[drain + 1]) && Confirms(id, ss[first], ss[first + 1], First)
  {
    drain := LastEntry(ss, (s: State) => InRound(s, Second), second);
    OrderlyAt(id, ss, drain + 1);
    first := LastEntry(ss, (s: State) => s.pc.Draining?, drain);
    OrderlyAt(id, ss, first + 1);
  }

  lemma ConfirmedAt(id: Identity, ss: seq<State>, k: nat, s: State, s': State)
    ensures Run(id, ss) && Moment(ss, k, s) && TerminateRefresh(id, s, s') && !s'.pc.Terminating? ==>
      Emptied(id, s.sys.world)
  {
    if Run(id, ss) && Moment(ss, k, s) && TerminateRefresh(id, s, s') && !s'.pc.Terminating? {
      RunKeepsInv(id, ss, k);
      ConfirmationIsEmpty(id, s, s');
    }
  }

  // ----- A run that releases the lease -----

  function IdleWorld(): World {
    World(map[1 := Proc(0, 0, 1, 1, 0, false), 2 := Proc(1, 1, 2, 2, 1, false)],
          [Birth(1, 0, 1), Birth(2, 0, 2)], {1})
  }

  lemma IdleWorldIsEmpty()
    ensures ValidWorld(IdleWorld()) && Guards(IdleWorld(), 1, 2) && Rooted(IdleWorld(), 1) && TreeEmpty(IdleWorld(), 1)
  {
    var w := IdleWorld();
    assert !Descends(w.births, 0, 1);
    assert !Descends(w.births, 1, 1);
    forall p | p in w.table ensures !InTree(w, 1, p) {
      assert p == 1 || p == 2;
    }
  }

  ghost predicate IdleTerminating(s: State) {
    s.sys.world == IdleWorld() && s.pc.Terminating? && s.pc.view == map[] && s.groups == map[] && s.ids == {}
  }

  /** In the idle world a refresh changes nothing but the confirmation. */
  lemma IdleRefresh(id: Identity, s: State)
    requires IdleTerminating(s) && id.pid == 2
    ensures TerminateRefresh(id, s, AfterIdle(s))
  {
    IdleWorldIsEmpty();
    var snapshot := SnapshotOf(IdleWorld());
    LinuxTableRows(IdleWorld(), snapshot);
    NothingToDiscover(snapshot, 2);
    NothingRefreshed(snapshot, 2);
    assert AfterIdle(s) == AfterRefresh(id, s, snapshot, true);
  }

  /** The states end in `s`. */
  predicate EndsIn(ss: seq<State>, s: State) {
    |ss| > 0 && ss[|ss| - 1] == s
  }

  lemma OneMore(id: Identity, ss: seq<State>, s: State, next: State)
    requires Steps(id, ss) && EndsIn(ss, s) && Next(id, s, next)
    ensures Steps(id, ss + [next])
  {
    var more := ss + [next];
    forall i | 0 <= i < |more| - 1 ensures NextAt(id, more, i) {
      assert i < |ss| - 1 ==> NextAt(id, ss, i);
    }
  }

  function AfterIdle(s: State): State
    requires s.pc.Terminating?
  {
    if s.pc.emptySeen then Terminated(s) else s.(pc := s.pc.(emptySeen := true))
  }

  lemma IdleStep(id: Identity, prefix: seq<State>, s: State)
    requires id.pid == 2 && Steps(id, prefix) && EndsIn(prefix, s) && IdleTerminating(s)
    ensures Steps(id, prefix + [AfterIdle(s)])
  {
    IdleRefresh(id, s);
    OneMore(id, prefix, s, AfterIdle(s));
  }

  /** An idle termination call: two empty refreshes, and it is over. */
  lemma IdleTermination(id: Identity, prefix: seq<State>, s: State) returns (ss: seq<State>)
    requires id.pid == 2 && Steps(id, prefix) && EndsIn(prefix, s) && IdleTerminating(s) && !SawEmpty(s)
    ensures Steps(id, ss) && prefix <= ss && EndsIn(ss, Terminated(s))
  {
    var once := AfterIdle(s);
    IdleStep(id, prefix, s);
    IdleStep(id, prefix + [once], once);
    ss := prefix + [once] + [AfterIdle(once)];
  }

  /** The safety theorem is not vacuous: an idle guardian does reach the release. */
  lemma ReleaseIsReachable(id: Identity) returns (ss: seq<State>)
    requires id.gen == 1 && id.pid == 2
    ensures Run(id, ss) && !ss[|ss| - 1].leaseHeld
  {
    IdleWorldIsEmpty();
    var sys := RecordRuns.State(Files(None, None), IdleWorld(), None, {});
    var s0 := State(sys, Pipe("", false), "", "", "", map[], map[], {}, Terminating(First, map[], false), true, None);
    ss := IdleTermination(id, [s0], s0);
    ss := ReleaseAfterDrain(id, ss, s0);
  }

  lemma ReleaseAfterDrain(id: Identity, prefix: seq<State>, s0: State) returns (ss: seq<State>)
    requires id.gen == 1 && id.pid == 2 && Steps(id, prefix) && EndsIn(prefix, s0.(pc := Draining(false)))
    requires IdleTerminating(s0) && PipeClean(s0) && s0.tracked == map[] && s0.sys.files.record.None?
    ensures Steps(id, ss) && prefix <= ss && !ss[|ss| - 1].leaseHeld
  {
    var s3 := s0.(pc := Terminating(Second, map[], false));
    assert DrainEof(s0.(pc := Draining(false)), s3);
    OneMore(id, prefix, s0.(pc := Draining(false)), s3);
    ss := IdleTermination(id, prefix + [s3], s3);
    ss := ReleaseAfterConfirmation(id, ss, s0.(pc := Publishing));
  }

  lemma ReleaseAfterConfirmation(id: Identity, prefix: seq<State>, s5: State) returns (ss: seq<State>)
    requires Steps(id, prefix) && EndsIn(prefix, s5) && s5.pc == Publishing && s5.sys.files.record.None?
    ensures Steps(id, ss) && prefix <= ss && !ss[|ss| - 1].leaseHeld
  {
    var s6 := s5.(pc := Releasing, evidence := Some(s5.sys.files));
    OneMore(id, prefix, s5, s6);
    var s7 := s6.(pc := Finished, leaseHeld := false);
    OneMore(id, prefix + [s6], s6, s7);
    ss := prefix + [s6] + [s7];
  }
}
