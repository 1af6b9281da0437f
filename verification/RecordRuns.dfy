/** Whole runs of the recovery-record protocol: transitions by any number of launches, crashes
    between any two durable writes, process exits and PID reuse in between. */
module RecordRuns {
  import opened PyText
  import opened RecoveryRecord
  import opened RecordTransitions
  import opened Processes

  /** The generations behind the current record, for the launch that wrote it. */
  datatype Owner = Owner(guardian: nat, application: Option<nat>, launch: Launch)

  /** `recorded` holds every generation that ever wrote itself into a record. */
  datatype State = State(files: Files, world: World, owner: Option<Owner>, recorded: set<nat>)

  /** One step: the operating system moves along `path`; a `Call` also carries out the first
      `writes` durable writes of one transition, beginning at moment `wrote` of the path. `moments[p]`
      is when PID `p` was last probed and `groupMoments[p]` when its group was, before any write. */
  datatype Action =
    | Os(path: seq<World>)
    | Call(op: Op, caller: int, writes: nat, path: seq<World>, moments: map<int, nat>, groupMoments: map<int, nat>,
           wrote: nat)

  // ----- Probes -----

  ghost predicate ProbedAbsent(a: Action, pid: int) {
    a.Call? && pid in a.moments && a.moments[pid] <= a.wrote < |a.path| && pid !in a.path[a.moments[pid]].table
  }

  /** A finaliser that saw nobody alive probed each recorded PID at some moment before its first write. */
  ghost predicate FinaliserProbes(a: Action)
    requires a.Call? && a.op.OpFinalise?
  {
    !a.op.aliveAfter ==>
      && ProbedAbsent(a, a.op.guardianPid)
      && (a.op.application.Some? ==> ProbedAbsent(a, a.op.application.value))
  }

  /** The recovering launch has not recorded itself yet. A live recorded generation is never taken for a dead
      process, and a PID reported as reused or unrelated is held by a generation that never recorded itself. */
  ghost predicate RecoveryProbes(s: State, a: Action)
    requires a.Call? && a.op.OpRecover?
  {
    && a.op.callerPid == a.caller
    && (Live(s.world, a.caller) ==> s.world.table[a.caller].gen !in s.recorded)
    && (forall p | p in a.op.probes.process :: ProcessProbe(s, a, p))
    && (forall p | p in a.op.probes.group :: GroupProbe(s, a, p))
  }

  ghost predicate ProcessProbe(s: State, a: Action, p: int)
    requires a.Call? && a.op.OpRecover? && p in a.op.probes.process
  {
    && p in a.moments && a.moments[p] <= a.wrote < |a.path|
    && (var w := a.path[a.moments[p]];
        && (a.op.probes.process[p] == Dead ==> !(Live(w, p) && w.table[p].gen in s.recorded))
        && (a.op.probes.process[p] in {Reused, Incompatible} ==> p in w.table && w.table[p].gen !in s.recorded))
  }

  /** A group is probed after its leader's PID. One reported dead has no process, not even a zombie; one
      reported reused was not created by a recorded generation. */
  ghost predicate GroupProbe(s: State, a: Action, p: int)
    requires a.Call? && a.op.OpRecover? && p in a.op.probes.group
  {
    && p in a.groupMoments && a.groupMoments[p] <= a.wrote < |a.path|
    && (p in a.moments ==> a.moments[p] <= a.groupMoments[p])
    && (var w := a.path[a.groupMoments[p]];
        && (a.op.probes.group[p] == GroupDead ==> forall q | q in w.table :: w.table[q].pgid != p)
        && (a.op.probes.group[p] == GroupReused ==>
              forall q | q in w.table && w.table[q].pgid == p :: w.table[q].group !in s.recorded))
  }

  predicate Finalises(a: Action) {
    a.Call? && a.op.OpFinalise?
  }

  predicate Recovers(a: Action) {
    a.Call? && a.op.OpRecover?
  }

  /** What a recovering call has settled. */
  predicate SettlesPid(a: Action, pid: int) {
    Recovers(a) && PidSettled(pid, a.op.callerPid, a.op.probes)
  }

  predicate SettlesGroup(a: Action, pgid: int) {
    Recovers(a) && GroupSettled(pgid, a.op.callerPid, a.op.probes)
  }

  // ----- Steps -----

  ghost predicate CallEnabled(s: State, a: Action)
    requires a.Call?
  {
    && Live(s.world, a.caller) && a.wrote < |a.path|
    && a.writes < |PlanOf(s.files, a.op).states|
    && (a.op.OpCreate? ==> a.op.guardianPid == a.caller)
    && (a.op.OpPromote? ==> a.op.applicationPid == a.caller)
    && (a.op.OpFinalise? ==> FinaliserProbes(a))
    && (a.op.OpRecover? ==> RecoveryProbes(s, a))
  }

  ghost function NextOwner(s: State, a: Action): Option<Owner>
    requires a.Call? && CallEnabled(s, a)
  {
    var files := PlanOf(s.files, a.op).states[a.writes];
    if files.record.None? then None
    else if a.op.OpCreate? && s.files.record.None? then Some(Owner(s.world.table[a.caller].gen, None, a.op.l))
    else if a.op.OpPromote? && a.writes == 1 && s.owner.Some? then
      Some(s.owner.value.(application := Some(s.world.table[a.caller].gen)))
    else s.owner
  }

  ghost predicate Step(s: State, a: Action, s': State) {
    && Path(a.path) && a.path[0] == s.world && a.path[|a.path| - 1] == s'.world
    && match a
       case Os(_) => s'.files == s.files && s'.owner == s.owner && s'.recorded == s.recorded
       case Call(op, caller, writes, _, _, _, _) =>
         && CallEnabled(s, a)
         && s'.files == PlanOf(s.files, op).states[writes]
         && s'.owner == NextOwner(s, a)
         && s'.recorded == s.recorded + if op.OpCreate? || op.OpPromote? then {s.world.table[caller].gen} else {}
  }

  /** Any left-over record, from this or an older version, but no proof and no recorded process. */
  ghost predicate Init(s: State) {
    ValidWorld(s.world) && s.files.proof.None? && s.owner.None?
  }

  ghost predicate Run(ss: seq<State>, acts: seq<Action>) {
    Steps(ss, acts) && Init(ss[0])
  }

  /** Consecutive steps, from any state. */
  ghost predicate Steps(ss: seq<State>, acts: seq<Action>) {
    |ss| == |acts| + 1 && forall i | 0 <= i < |acts| :: ActsAt(ss, acts, i)
  }

  ghost predicate ActsAt(ss: seq<State>, acts: seq<Action>, i: int)
    requires 0 <= i < |acts| && |ss| == |acts| + 1
  {
    Step(ss[i], acts[i], ss[i + 1])
  }

  // ----- Invariant -----

  /** The PID a generation was given; 0 for one that is not born yet. */
  function PidOf(w: World, gen: nat): int {
    if gen < |w.births| then w.births[gen].pid else 0
  }

  ghost predicate OwnerMatches(s: State, o: Owner) {
    && ValidLaunch(o.launch)
    && o.guardian < |s.world.births| && PidOf(s.world, o.guardian) > 0 && o.guardian in s.recorded
    && (o.application.Some? ==>
          && o.application.value < |s.world.births| && PidOf(s.world, o.application.value) > 0
          && o.application.value in s.recorded)
    && s.files.record == Some(OwnerRecord(s.world, o))
  }

  ghost function OwnerRecord(w: World, o: Owner): string
    requires ValidLaunch(o.launch) && o.guardian < |w.births| && PidOf(w, o.guardian) > 0
    requires o.application.Some? ==> o.application.value < |w.births| && PidOf(w, o.application.value) > 0
  {
    Print(PidOf(w, o.guardian), ApplicationPid(w, o), o.launch.shellPid.value, o.launch.bootId, o.launch.token)
  }

  ghost function ApplicationPid(w: World, o: Owner): Option<int>
    requires o.application.Some? ==> o.application.value < |w.births|
  {
    if o.application.None? then None else Some(PidOf(w, o.application.value))
  }

  ghost predicate Inv(s: State) {
    && ValidWorld(s.world)
    && TokenBound(s.files)
    && (s.owner.Some? ==> OwnerMatches(s, s.owner.value))
  }

  predicate Promotes(a: Action) {
    a.Call? && a.op.OpPromote? && a.writes == 1
  }

  predicate Creates(a: Action) {
    a.Call? && a.op.OpCreate?
  }

  lemma PromotionMatches(s: State, a: Action, s': State, o: Owner)
    ensures Inv(s) && Step(s, a, s') && s.owner == Some(o) && Promotes(a) ==>
      s'.owner.Some? && OwnerMatches(s', s'.owner.value)
  {
    if Inv(s) && Step(s, a, s') && s.owner == Some(o) && Promotes(a) {
      var last := |a.path| - 1;
      PathValid(a.path, 0, last);
      OwnPendingOfPrinted(a.op.l, PidOf(s.world, o.guardian), ApplicationPid(s.world, o),
                          o.launch.shellPid.value, o.launch.bootId, o.launch.token);
    }
  }

  lemma CreationMatches(s: State, a: Action, s': State)
    ensures Inv(s) && Step(s, a, s') && Creates(a) && s.files.record.None? ==>
      (s'.owner.Some? ==> OwnerMatches(s', s'.owner.value))
  {
    if Inv(s) && Step(s, a, s') && Creates(a) && s.files.record.None? {
      PathValid(a.path, 0, |a.path| - 1);
    }
  }

  lemma OwnerCarriesOver(s: State, a: Action, s': State, o: Owner)
    ensures Inv(s) && Step(s, a, s') && s.owner == Some(o) && s'.files.record == s.files.record ==>
      OwnerMatches(s', o)
  {
    if Inv(s) && Step(s, a, s') && s.owner == Some(o) && s'.files.record == s.files.record {
      PathValid(a.path, 0, |a.path| - 1);
    }
  }

  lemma StepKeepsOwner(s: State, a: Action, s': State)
    ensures Inv(s) && Step(s, a, s') ==> (s'.owner.Some? ==> OwnerMatches(s', s'.owner.value))
  {
    if Inv(s) && Step(s, a, s') {
      if a.Call? && a.op.OpCreate? && s.files.record.None? {
        CreationMatches(s, a, s');
      } else if a.Call? && a.op.OpPromote? && a.writes == 1 {
        if s.owner.Some? {
          PromotionMatches(s, a, s', s.owner.value);
        }
      } else if s'.owner.Some? {
        if a.Call? {
          RecordKeptOrRemoved(s.files, a.op, a.writes);
        }
        OwnerCarriesOver(s, a, s', s'.owner.value);
      }
    }
  }

  lemma StepKeepsInv(s: State, a: Action, s': State)
    requires Inv(s) && Step(s, a, s')
    ensures Inv(s')
  {
    PathValid(a.path, 0, |a.path| - 1);
    StepKeepsOwner(s, a, s');
    if a.Call? {
      TransitionsKeepTokenBound(s.files, a.op, a.writes);
    }
  }

  lemma {:induction false} RunKeepsInv(ss: seq<State>, acts: seq<Action>, i: nat)
    requires Run(ss, acts) && i < |ss|
    ensures Inv(ss[i])
  {
    if i > 0 {
      RunKeepsInv(ss, acts, i - 1);
      assert ActsAt(ss, acts, i - 1);
      StepKeepsInv(ss[i - 1], acts[i - 1], ss[i]);
    }
  }

  // ----- Removal -----

  lemma AbsentPidIsGone(w: World, gen: nat, pid: int)
    requires ValidWorld(w) && gen < |w.births| && w.births[gen].pid == pid && pid !in w.table
    ensures Gone(w, gen)
  {
  }

  /** A probe that found the recorded PID unheld proves its generation gone when the first write happens. */
  lemma ProbedAbsentIsGone(s: State, a: Action, s': State, gen: nat)
    ensures Inv(s) && Step(s, a, s') && gen < |s.world.births| && ProbedAbsent(a, PidOf(s.world, gen)) ==>
      Gone(a.path[a.wrote], gen)
  {
    if Inv(s) && Step(s, a, s') && gen < |s.world.births| && ProbedAbsent(a, PidOf(s.world, gen)) {
      var m := a.moments[PidOf(s.world, gen)];
      PathValid(a.path, 0, m);
      AbsentPidIsGone(a.path[m], gen, PidOf(s.world, gen));
      GoneForever(a.path, m, a.wrote, gen);
    }
  }

  /** When a recovery verdict on the recorded PID was reached, its generation was gone. */
  lemma VerdictIsGone(s: State, a: Action, s': State, gen: nat) returns (m: nat)
    requires Inv(s) && Step(s, a, s') && gen < |s.world.births| && gen in s.recorded
    requires SettlesPid(a, PidOf(s.world, gen))
    ensures m <= a.wrote < |a.path| && Gone(a.path[m], gen) && Gone(a.path[a.wrote], gen)
    ensures m == if PidOf(s.world, gen) == a.caller then 0 else a.moments[PidOf(s.world, gen)]
  {
    var pid := PidOf(s.world, gen);
    if pid == a.caller {
      m := 0;
    } else {
      assert ProcessProbe(s, a, pid);
      m := a.moments[pid];
    }
    PathValid(a.path, 0, m);
    assert Gone(a.path[m], gen);
    GoneForever(a.path, m, a.wrote, gen);
  }

  /** When a containment group was settled, nobody was in it; and nobody is when the first write happens. */
  lemma SettledGroupIsGone(s: State, a: Action, s': State, gen: nat)
    requires Inv(s) && Grouped(s.world) && Step(s, a, s') && gen < |s.world.births| && gen in s.recorded
    requires SettlesPid(a, PidOf(s.world, gen)) && SettlesGroup(a, PidOf(s.world, gen))
    ensures GroupGone(a.path[a.wrote], gen)
  {
    var pid := PidOf(s.world, gen);
    var m := VerdictIsGone(s, a, s', gen);
    if pid == a.caller || (pid in a.op.probes.process && a.op.probes.process[pid] in {Reused, Incompatible}) {
      ReusedLeaderEndsGroup(s, a, s', gen, m);
    } else {
      var n := GroupProbedGone(s, a, s', gen);
      PathValid(a.path, 0, m);
      GoneForever(a.path, m, n, gen);
      PathValid(a.path, 0, n);
      GroupGoneForever(a.path, n, a.wrote, gen);
    }
  }

  /** At moment `m` the PID was known to be the caller's or somebody else's. */
  predicate LeaderReused(a: Action, pid: int, m: nat) {
    && Recovers(a) && m <= a.wrote < |a.path|
    && if pid == a.caller then m == 0
       else && pid in a.op.probes.process && a.op.probes.process[pid] in {Reused, Incompatible}
            && pid in a.moments && m == a.moments[pid]
  }

  /** The PID and its group were probed, and the group was found dead or reused. */
  predicate GroupProbed(a: Action, pid: int) {
    && Recovers(a) && pid in a.op.probes.process
    && pid in a.op.probes.group && a.op.probes.group[pid] in {GroupDead, GroupReused}
  }

  lemma ReusedLeaderEndsGroup(s: State, a: Action, s': State, gen: nat, m: nat)
    requires Inv(s) && Grouped(s.world) && Step(s, a, s') && gen < |s.world.births| && gen in s.recorded
    requires LeaderReused(a, PidOf(s.world, gen), m) && Gone(a.path[m], gen)
    ensures GroupGone(a.path[a.wrote], gen)
  {
    var pid := PidOf(s.world, gen);
    if pid != a.caller {
      assert ProcessProbe(s, a, pid);
    }
    PathValid(a.path, 0, m);
    GroupedAlong(a.path, m);
    ReusedPidEndsGroup(a.path[m], gen, pid);
    GroupGoneForever(a.path, m, a.wrote, gen);
  }

  lemma GroupProbedGone(s: State, a: Action, s': State, gen: nat) returns (n: nat)
    requires Inv(s) && Grouped(s.world) && Step(s, a, s') && gen < |s.world.births| && gen in s.recorded
    requires GroupProbed(a, PidOf(s.world, gen))
    ensures n <= a.wrote < |a.path| && a.moments[PidOf(s.world, gen)] <= n && GroupGone(a.path[n], gen)
  {
    var pid := PidOf(s.world, gen);
    assert GroupProbe(s, a, pid) && ProcessProbe(s, a, pid);
    n := a.groupMoments[pid];
    PathValid(a.path, 0, n);
    GroupedAlong(a.path, n);
    forall p | p in a.path[n].table ensures a.path[n].table[p].group != gen {
      assert GroupedAt(a.path[n], p);
    }
  }

  /** The record on disk is the one this launch prints for these PIDs. */
  predicate Records(f: Files, g: int, application: Option<int>, l: Launch) {
    && ValidLaunch(l) && g > 0 && (application.Some? ==> application.value > 0)
    && f.record == Some(Print(g, application, l.shellPid.value, l.bootId, l.token))
  }

  /** A generation that wrote itself into some record, under one of these PIDs. */
  predicate RecordedUnder(s: State, gen: nat, g: int, application: Option<int>) {
    && gen in s.recorded && gen < |s.world.births|
    && (PidOf(s.world, gen) == g || Some(PidOf(s.world, gen)) == application)
  }

  /** When a finaliser unlinks a record, no generation under its PIDs is left. */
  lemma FinaliseRemoval(s: State, a: Action, s': State, g: int, application: Option<int>, l: Launch, gen: nat)
    requires Inv(s) && Step(s, a, s') && Records(s.files, g, application, l) && s'.files.record.None? && Finalises(a)
    requires gen < |s.world.births| && (PidOf(s.world, gen) == g || Some(PidOf(s.world, gen)) == application)
    ensures Gone(a.path[a.wrote], gen)
  {
    var op := a.op;
    assert a.writes > 0;
    PrintInjective(g, application, l.shellPid.value, l.bootId, l.token,
                   op.guardianPid, op.application, op.l.shellPid.value, op.l.bootId, op.l.token);
    ProbedAbsentIsGone(s, a, s', gen);
  }

  /** What recovery has settled about a printed record it removes. */
  lemma StaleVerdicts(s: State, a: Action, s': State, g: int, application: Option<int>, l: Launch)
    ensures Step(s, a, s') && Records(s.files, g, application, l) && s'.files.record.None? && Recovers(a) ==>
      SettlesPid(a, g) && SettlesGroup(a, g)
    ensures Step(s, a, s') && Records(s.files, g, application, l) && s'.files.record.None? && Recovers(a) ==>
      (application.Some? ==> SettlesPid(a, application.value) && SettlesGroup(a, application.value))
  {
    if Step(s, a, s') && Records(s.files, g, application, l) && s'.files.record.None? && Recovers(a) {
      RemovedIsSettled(s.files, g, application, l, a.op.shellPid, a.op.callerPid, a.op.probes, a.writes);
    }
  }

  /** When stale recovery unlinks a record, no recorded generation under its PIDs is left. */
  lemma RecoverRemoval(s: State, a: Action, s': State, g: int, application: Option<int>, l: Launch, gen: nat)
    requires Inv(s) && Step(s, a, s') && Records(s.files, g, application, l) && s'.files.record.None?
    requires Recovers(a) && RecordedUnder(s, gen, g, application)
    ensures Gone(a.path[a.wrote], gen)
  {
    StaleVerdicts(s, a, s', g, application, l);
    var _ := VerdictIsGone(s, a, s', gen);
  }

  /** When stale recovery unlinks a contained record, nobody is left in a group that a recorded generation
      under its PIDs created. */
  lemma RecoverLeavesNoGroup(s: State, a: Action, s': State, g: int, application: Option<int>, l: Launch, gen: nat)
    requires Inv(s) && Grouped(s.world) && Step(s, a, s') && Records(s.files, g, application, l)
    requires s'.files.record.None? && Recovers(a) && RecordedUnder(s, gen, g, application)
    ensures Gone(a.path[a.wrote], gen) && GroupGone(a.path[a.wrote], gen)
  {
    StaleVerdicts(s, a, s', g, application, l);
    var _ := VerdictIsGone(s, a, s', gen);
    SettledGroupIsGone(s, a, s', gen);
  }

  /** Nothing but finalisation and recovery changes a promoted record. */
  lemma PromotedChangedBy(s: State, a: Action, s': State, g: int, application: int, l: Launch)
    ensures Step(s, a, s') && Records(s.files, g, Some(application), l) && s'.files.record != s.files.record ==>
      (s'.files.record.None? && a.Call? && (a.op.OpFinalise? || a.op.OpRecover?))
  {
    if Step(s, a, s') && Records(s.files, g, Some(application), l) && s'.files.record != s.files.record {
      if (a.op.OpPromote? || a.op.OpClear?) && ValidLaunch(a.op.l) {
        OwnPendingOfPrinted(a.op.l, g, Some(application), l.shellPid.value, l.bootId, l.token);
      }
    }
  }

  /** Finalisation of a promoted record needs its proof, whether or not anybody is recorded. */
  lemma FinalisedIsProved(s: State, a: Action, s': State, g: int, application: int, l: Launch)
    requires Step(s, a, s') && Records(s.files, g, Some(application), l) && s'.files.record.None? && Finalises(a)
    ensures s.files.proof == Some(PrintProof(l.token))
  {
    assert a.writes > 0;
    PrintInjective(g, Some(application), l.shellPid.value, l.bootId, l.token,
                   a.op.guardianPid, a.op.application, a.op.l.shellPid.value, a.op.l.bootId, a.op.l.token);
  }

  /** A promoted record, whoever wrote it, changes only by removal, only through finalisation (with the
      matching proof in place) or stale recovery; and when it is unlinked, every generation that ever
      recorded itself under its guardian or application PID is gone. */
  lemma PromotedRemovalIsSafe(s: State, a: Action, s': State, g: int, application: int, l: Launch, gen: nat)
    requires Inv(s) && Step(s, a, s') && Records(s.files, g, Some(application), l)
    requires s'.files.record != s.files.record
    ensures s'.files.record.None? && a.Call? && (a.op.OpFinalise? || a.op.OpRecover?)
    ensures a.op.OpFinalise? ==> s.files.proof == Some(PrintProof(l.token))
    ensures RecordedUnder(s, gen, g, Some(application)) ==> Gone(a.path[a.wrote], gen)
  {
    PromotedChangedBy(s, a, s', g, application, l);
    if a.op.OpFinalise? {
      FinalisedIsProved(s, a, s', g, application, l);
    }
    if RecordedUnder(s, gen, g, Some(application)) {
      if a.op.OpFinalise? {
        FinaliseRemoval(s, a, s', g, Some(application), l, gen);
      } else {
        RecoverRemoval(s, a, s', g, Some(application), l, gen);
      }
    }
  }

  /** The worlds from some moment of step `i` to a later state. */
  lemma {:induction false} WorldsBetween(ss: seq<State>, acts: seq<Action>, i: nat, m: nat, j: nat)
    returns (ws: seq<World>)
    requires Steps(ss, acts) && i < j < |ss| && m < |acts[i].path|
    ensures Path(ws) && ws[0] == acts[i].path[m] && ws[|ws| - 1] == ss[j].world
    decreases j - i
  {
    assert ActsAt(ss, acts, i);
    var rest := [ss[i + 1].world];
    PathValid(acts[i].path, 0, |acts[i].path| - 1);
    if i + 1 < j {
      assert ActsAt(ss, acts, i + 1);
      rest := WorldsBetween(ss, acts, i + 1, 0, j);
    }
    ws := JoinPaths(acts[i].path, m, rest);
  }

  /** In every run, from whatever record it started: a promoted record changes only by being unlinked, by
      finalisation beside its proof or by stale recovery. Every generation that has recorded itself under
      its guardian or application PID is gone at that very moment and at every later one, whoever
      reuses the PIDs. */
  lemma RemovedOnlyWhenGone(ss: seq<State>, acts: seq<Action>, i: nat, j: nat,
                            g: int, application: int, l: Launch, gen: nat)
    requires Run(ss, acts) && i < j < |ss| && Records(ss[i].files, g, Some(application), l)
    requires ss[i + 1].files.record != ss[i].files.record
    ensures ss[i + 1].files.record.None? && acts[i].Call? && acts[i].wrote < |acts[i].path|
    ensures (acts[i].op.OpFinalise? && ss[i].files.proof == Some(PrintProof(l.token))) || acts[i].op.OpRecover?
    ensures RecordedUnder(ss[i], gen, g, Some(application)) ==>
      Gone(acts[i].path[acts[i].wrote], gen) && Gone(ss[j].world, gen)
  {
    RunKeepsInv(ss, acts, i);
    assert ActsAt(ss, acts, i);
    PromotedRemovalIsSafe(ss[i], acts[i], ss[i + 1], g, application, l, gen);
    if RecordedUnder(ss[i], gen, g, Some(application)) {
      var ws := WorldsBetween(ss, acts, i, acts[i].wrote, j);
      PathValid(acts[i].path, 0, acts[i].wrote);
      GoneForever(ws, 0, |ws| - 1, gen);
    }
  }

  lemma GroupedAlongRun(ss: seq<State>, acts: seq<Action>, i: nat)
    requires Steps(ss, acts) && i < |ss| && Grouped(ss[0].world)
    ensures Grouped(ss[i].world)
  {
    if i > 0 {
      assert ActsAt(ss, acts, 0);
      var ws := WorldsBetween(ss, acts, 0, 0, i);
      GroupedAlong(ws, |ws| - 1);
    }
  }

  /** In every run: when stale recovery unlinks a record, every group created by a generation recorded under
      its PIDs is empty at that very moment, and stays empty. */
  lemma RecoveredGroupsAreGone(ss: seq<State>, acts: seq<Action>, i: nat, j: nat,
                               g: int, application: Option<int>, l: Launch, gen: nat)
    requires Run(ss, acts) && Grouped(ss[0].world) && i < j < |ss| && Records(ss[i].files, g, application, l)
    requires acts[i].Call? && acts[i].op.OpRecover? && ss[i + 1].files.record.None?
    requires RecordedUnder(ss[i], gen, g, application)
    ensures acts[i].wrote < |acts[i].path| && GroupGone(acts[i].path[acts[i].wrote], gen) && GroupGone(ss[j].world, gen)
  {
    RunKeepsInv(ss, acts, i);
    GroupedAlongRun(ss, acts, i);
    assert ActsAt(ss, acts, i);
    RecoverLeavesNoGroup(ss[i], acts[i], ss[i + 1], g, application, l, gen);
    var ws := WorldsBetween(ss, acts, i, acts[i].wrote, j);
    PathValid(acts[i].path, 0, acts[i].wrote);
    GroupGoneForever(ws, 0, |ws| - 1, gen);
  }

  lemma StepKeepsOwned(s: State, a: Action, s': State)
    ensures Step(s, a, s') && (s.files.record.Some? ==> s.owner.Some?) ==> (s'.files.record.Some? ==> s'.owner.Some?)
  {
    if Step(s, a, s') && (s.files.record.Some? ==> s.owner.Some?) {
      if a.Call? && s.files.record.None? && s'.files.record.Some? {
        RecordAppearsProofFree(s.files, a.op, a.writes);
      }
    }
  }

  lemma {:induction false} OwnedAlong(ss: seq<State>, acts: seq<Action>, i: nat)
    requires Steps(ss, acts) && i < |ss| && ss[0].files.record.None?
    ensures ss[i].files.record.Some? ==> ss[i].owner.Some?
  {
    if i > 0 {
      OwnedAlong(ss, acts, i - 1);
      assert ActsAt(ss, acts, i - 1);
      StepKeepsOwned(ss[i - 1], acts[i - 1], ss[i]);
    }
  }

  /** In a run that starts without a record, every record has an owner: the guardian that created it and,
      once promoted, the application that promoted it, both recorded under the PIDs it shows. */
  lemma RecordHasOwner(ss: seq<State>, acts: seq<Action>, i: nat)
    requires Run(ss, acts) && i < |ss| && ss[0].files.record.None? && ss[i].files.record.Some?
    ensures ss[i].owner.Some? && OwnerMatches(ss[i], ss[i].owner.value)
  {
    RunKeepsInv(ss, acts, i);
    OwnedAlong(ss, acts, i);
  }

  predicate OwnersGone(w: World, o: Owner) {
    Gone(w, o.guardian) && (o.application.Some? ==> Gone(w, o.application.value))
  }

  /** So in such a run the very guardian and application that wrote a promoted record are gone when it is
      unlinked, and ever after. */
  lemma OwnersGoneOnRemoval(ss: seq<State>, acts: seq<Action>, i: nat, j: nat, o: Owner)
    requires Run(ss, acts) && i < j < |ss| && ss[i].owner == Some(o) && o.application.Some?
    requires ss[i + 1].files.record != ss[i].files.record
    ensures acts[i].Call? && acts[i].wrote < |acts[i].path| && OwnersGone(acts[i].path[acts[i].wrote], o)
    ensures OwnersGone(ss[j].world, o)
  {
    RunKeepsInv(ss, acts, i);
    var g, application := PidOf(ss[i].world, o.guardian), PidOf(ss[i].world, o.application.value);
    RemovedOnlyWhenGone(ss, acts, i, j, g, application, o.launch, o.guardian);
    RemovedOnlyWhenGone(ss, acts, i, j, g, application, o.launch, o.application.value);
  }

  // ----- Proofs -----

  /** In every reachable state a proof beside a record carries the record's token, and a record only
      ever appears in a state that holds no proof. */
  lemma ProofNeverMisbound(ss: seq<State>, acts: seq<Action>, i: nat)
    requires Run(ss, acts) && i < |ss|
    ensures TokenBound(ss[i].files)
    ensures i > 0 && ss[i - 1].files.record.None? && ss[i].files.record.Some? ==> ss[i].files.proof.None?
  {
    RunKeepsInv(ss, acts, i);
    if i > 0 && ss[i - 1].files.record.None? && ss[i].files.record.Some? {
      assert ActsAt(ss, acts, i - 1);
      RecordAppearsProofFree(ss[i - 1].files, acts[i - 1].op, acts[i - 1].writes);
    }
  }

  /** No step replaces or removes the proof beside a record without removing the record. */
  lemma StepKeepsProof(s: State, a: Action, s': State)
    requires Inv(s) && Step(s, a, s')
    requires s.files.record.Some? && s.files.proof.Some? && s'.files.record.Some?
    ensures s'.files.proof == s.files.proof
  {
    if a.Call? {
      if a.op.OpFinalise? || a.op.OpRecover? {
        RemovalIsRecordFirst(s.files, a.op, a.writes);
      } else if a.op.OpPublish? && a.writes == 1 {
        PublishKeepsProof(s.files, a.op.l, a.op.applicationPid);
      }
    }
  }

  /** In every run: once a record is proved it stays proved, by the same bytes, until it is gone. */
  lemma {:induction false} ProvedUntilRemoved(ss: seq<State>, acts: seq<Action>, i: nat, j: nat)
    requires Run(ss, acts) && i <= j < |ss| && ss[i].files.proof.Some?
    requires forall k | i <= k <= j :: ss[k].files.record.Some?
    ensures ss[j].files.proof == ss[i].files.proof
  {
    if i < j {
      ProvedUntilRemoved(ss, acts, i, j - 1);
      RunKeepsInv(ss, acts, j - 1);
      assert ActsAt(ss, acts, j - 1);
      StepKeepsProof(ss[j - 1], acts[j - 1], ss[j]);
    }
  }

  /** In every reachable state without a record, whatever crashes left behind, the next launch can create
      its record, and ends with that record alone. */
  lemma NextLaunchCanStart(ss: seq<State>, acts: seq<Action>, i: nat, l: Launch, guardianPid: int)
    requires Run(ss, acts) && i < |ss| && ss[i].files.record.None? && ValidLaunch(l) && guardianPid > 0
    ensures var plan := Create(ss[i].files, l, guardianPid);
      plan.ok && Last(plan) == Files(Some(PendingPayload(l, guardianPid)), None)
  {
    RunKeepsInv(ss, acts, i);
    CreateSucceedsIff(ss[i].files, l, guardianPid);
  }

  // ----- A run that removes a promoted record -----

  /** A root process, a guardian with its application, and a shell. */
  lemma LaunchWorld() returns (w: World)
    ensures Populated(w)
  {
    w := World(map[1 := Proc(0, 0, 1, 1, 0, false), 2 := Proc(1, 1, 2, 2, 1, false), 3 := Proc(2, 2, 3, 3, 2, false),
                   4 := Proc(3, 1, 4, 4, 3, false)],
               [Birth(1, 0, 1), Birth(2, 0, 2), Birth(3, 1, 3), Birth(4, 0, 4)], {});
    assert Descends(w.births, 1, 0);
    assert Descends(w.births, 2, 0);
  }

  lemma SomeLaunch() returns (l: Launch)
    ensures ValidLaunch(l) && l.shellPid == Some(4)
  {
    var zeros := "0000000000000000";
    l := Launch(Some(4), zeros, zeros + zeros + zeros + zeros);
  }

  /** One transition at a moment at which nothing else happens, probing these PIDs. */
  function Instant(op: Op, caller: int, writes: nat, w: World, probed: set<int>): Action {
    Call(op, caller, writes, [w], map p | p in probed :: 0, map[], 0)
  }

  lemma CreatesAt(s: State, l: Launch, g: int)
    ensures ValidWorld(s.world) && Live(s.world, g) && ValidLaunch(l) && s.files == Files(None, None) ==> g > 0
    ensures ValidWorld(s.world) && Live(s.world, g) && ValidLaunch(l) && s.files == Files(None, None) ==>
      Step(s, Instant(OpCreate(l, g), g, 1, s.world, {}),
                 State(Files(Some(PendingPayload(l, g)), None), s.world, Some(Owner(s.world.table[g].gen, None, l)),
                       s.recorded + {s.world.table[g].gen}))
  {
  }

  lemma PromotesAt(s: State, l: Launch, g: int, application: int)
    requires ValidWorld(s.world) && Live(s.world, application) && ValidLaunch(l) && g > 0 && s.owner.Some?
    requires s.files == Files(Some(PendingPayload(l, g)), None)
    ensures application > 0
    ensures var gen := s.world.table[application].gen;
      Step(s, Instant(OpPromote(l, application), application, 1, s.world, {}),
           State(Files(Some(Print(g, Some(application), l.shellPid.value, l.bootId, l.token)), None), s.world,
                 Some(s.owner.value.(application := Some(gen))), s.recorded + {gen}))
  {
    PromoteCreated(s.files, l, g, application);
  }

  lemma PublishesAt(s: State, l: Launch, g: int, application: int, caller: int)
    ensures ValidWorld(s.world) && Live(s.world, caller) && Records(s.files, g, Some(application), l) ==>
      Step(s, Instant(OpPublish(l, application), caller, 1, s.world, {}),
                 s.(files := s.files.(proof := Some(PrintProof(l.token)))))
  {
    if ValidWorld(s.world) && Live(s.world, caller) && Records(s.files, g, Some(application), l) {
      PublishPrintedIff(s.files, l, application, g, Some(application), l.shellPid.value, l.bootId, l.token);
    }
  }

  lemma FinalisesAt(s: State, l: Launch, g: int, application: int, caller: int)
    requires ValidWorld(s.world) && Live(s.world, caller) && Records(s.files, g, Some(application), l)
    requires FinaliseArguments(l, g, Some(application), caller) && s.files.proof == Some(PrintProof(l.token))
    requires g !in s.world.table && application !in s.world.table
    ensures Step(s, Instant(OpFinalise(l, g, Some(application), caller, false, false),
                         caller, 2, s.world, {g, application}),
                 s.(files := Files(None, None), owner := None))
  {
    FinalisePromotedIff(s.files, l, g, application, caller, false, false);
  }

  /** A process exits and is reaped. */
  lemma ExitsAt(s: State, p: int) returns (a: Action, s': State)
    requires ValidWorld(s.world) && s.world.reapers == {} && Live(s.world, 1) && Live(s.world, p) && p != 1
    requires Descends(s.world.births, s.world.table[p].gen, s.world.table[1].gen)
    ensures Step(s, a, s') && s'.files == s.files
    ensures ValidWorld(s'.world) && s'.world.births == s.world.births && s'.world.reapers == {}
    ensures s'.world.table.Keys == s.world.table.Keys - {p}
    ensures forall q | q in s'.world.table ::
      s'.world.table[q].gen == s.world.table[q].gen && s'.world.table[q].zombie == s.world.table[q].zombie
  {
    var path := ExitAndReap(s.world, p);
    a, s' := Os(path), s.(world := path[2]);
  }

  lemma OneMore(ss: seq<State>, acts: seq<Action>, a: Action, next: State)
    ensures Steps(ss, acts) && Step(ss[|ss| - 1], a, next) ==> Steps(ss + [next], acts + [a])
  {
    if Steps(ss, acts) && Step(ss[|ss| - 1], a, next) {
      forall i | 0 <= i < |acts| + 1 ensures ActsAt(ss + [next], acts + [a], i) {
        assert i < |acts| ==> ActsAt(ss, acts, i);
      }
    }
  }

  /** The launch comes up, from nothing to a promoted record. */
  lemma ComesUp(w: World, l: Launch) returns (ss: seq<State>, acts: seq<Action>)
    requires ValidWorld(w) && Live(w, 2) && Live(w, 3) && ValidLaunch(l)
    ensures Steps(ss, acts) && Init(ss[0]) && ss[0].files == Files(None, None)
    ensures ss[|ss| - 1].world == w && Records(ss[|ss| - 1].files, 2, Some(3), l)
  {
    var s := State(Files(None, None), w, None, {});
    CreatesAt(s, l, 2);
    var pending := Files(Some(PendingPayload(l, 2)), None);
    var s' := State(pending, w, Some(Owner(w.table[2].gen, None, l)), {w.table[2].gen});
    OneMore([s], [], Instant(OpCreate(l, 2), 2, 1, w, {}), s');
    PromotesAt(s', l, 2, 3);
    var promoted := Files(Some(Print(2, Some(3), l.shellPid.value, l.bootId, l.token)), None);
    var s'' := State(promoted, w, Some(s'.owner.value.(application := Some(w.table[3].gen))),
                     s'.recorded + {w.table[3].gen});
    var create, promote := Instant(OpCreate(l, 2), 2, 1, w, {}), Instant(OpPromote(l, 3), 3, 1, w, {});
    OneMore([s] + [s'], [] + [create], promote, s'');
    ss, acts := [s] + [s'] + [s''], [] + [create] + [promote];
  }

  /** Root, guardian, application and shell are there, and the root can adopt. */
  ghost predicate Populated(w: World) {
    && ValidWorld(w) && w.reapers == {} && Live(w, 1) && Live(w, 2) && Live(w, 3) && Live(w, 4)
    && Descends(w.births, w.table[2].gen, w.table[1].gen) && Descends(w.births, w.table[3].gen, w.table[1].gen)
  }

  /** The application exits, then the guardian. */
  lemma BothExit(s: State) returns (a: Action, half: State, b: Action, quiet: State)
    requires Populated(s.world)
    ensures Step(s, a, half) && Step(half, b, quiet) && quiet.files == s.files
    ensures ValidWorld(quiet.world) && Live(quiet.world, 4) && 2 !in quiet.world.table && 3 !in quiet.world.table
  {
    a, half := ExitsAt(s, 3);
    assert Live(half.world, 1) && Live(half.world, 2) && Live(half.world, 4);
    b, quiet := ExitsAt(half, 2);
  }

  /** It is proved, and its processes exit. */
  lemma GoesDown(ss: seq<State>, acts: seq<Action>, l: Launch) returns (ss': seq<State>, acts': seq<Action>)
    requires Steps(ss, acts) && Records(ss[|ss| - 1].files, 2, Some(3), l) && Populated(ss[|ss| - 1].world)
    ensures Steps(ss', acts') && ss <= ss'
    ensures ss'[|ss'| - 1].files == ss[|ss| - 1].files.(proof := Some(PrintProof(l.token)))
    ensures var w := ss'[|ss'| - 1].world;
      ValidWorld(w) && Live(w, 4) && 2 !in w.table && 3 !in w.table
  {
    var s := ss[|ss| - 1];
    PublishesAt(s, l, 2, 3, 2);
    var publish := Instant(OpPublish(l, 3), 2, 1, s.world, {});
    var proved := s.(files := s.files.(proof := Some(PrintProof(l.token))));
    OneMore(ss, acts, publish, proved);
    var a, half, b, quiet := BothExit(proved);
    OneMore(ss + [proved], acts + [publish], a, half);
    OneMore(ss + [proved] + [half], acts + [publish] + [a], b, quiet);
    ss', acts' := ss + [proved] + [half] + [quiet], acts + [publish] + [a] + [b];
  }

  /** The theorems on removal are not vacuous: a launch that starts from nothing is created, promoted and
      proved, its processes exit, and the shell finalises it. */
  lemma RemovalIsReachable() returns (ss: seq<State>, acts: seq<Action>, l: Launch)
    ensures Run(ss, acts) && |ss| >= 2 && ss[0].files.record.None?
    ensures Records(ss[|ss| - 2].files, 2, Some(3), l) && ss[|ss| - 1].files == Files(None, None)
  {
    l := SomeLaunch();
    var w := LaunchWorld();
    ss, acts := ComesUp(w, l);
    ss, acts := GoesDown(ss, acts, l);
    var s := ss[|ss| - 1];
    FinalisesAt(s, l, 2, 3, 4);
    var finalise := Instant(OpFinalise(l, 2, Some(3), 4, false, false), 4, 2, s.world, {2, 3});
    var removed := s.(files := Files(None, None), owner := None);
    OneMore(ss, acts, finalise, removed);
    ss, acts := ss + [removed], acts + [finalise];
  }
}
