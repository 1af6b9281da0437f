/** The recovery-record transitions. Each one runs under the transition lock, so it is described by
    the durable states it passes through: `states[0]` is what it found, every later entry is the
    result of one more durable write, and a crash or an I/O error stops it at some entry. */
module RecordTransitions {
  import opened PyText
  import opened RecoveryRecord

  datatype Files = Files(record: Option<string>, proof: Option<string>)

  /** `ok` is what the transition returns when it reaches its last state. */
  datatype Plan = Plan(states: seq<Files>, ok: bool)

  /** The launch identity a process reads from its environment. */
  datatype Launch = Launch(shellPid: Option<int>, bootId: string, token: string)

  datatype Observation = Dead | Reused | Compatible | Incompatible | Unreadable

  datatype GroupObservation = GroupDead | GroupReused | GroupAlive | GroupUnreadable

  predicate ValidLaunch(l: Launch) {
    l.shellPid.Some? && l.shellPid.value > 0 && ValidBootId(l.bootId) && ValidToken(l.token)
  }

  function Unchanged(f: Files): Plan {
    Plan([f], false)
  }

  // ----- create_pending_application_pid_record -----

  function PendingPayload(l: Launch, guardianPid: int): string
    requires ValidLaunch(l) && guardianPid > 0
  {
    Print(guardianPid, None, l.shellPid.value, l.bootId, l.token)
  }

  function Create(f: Files, l: Launch, guardianPid: int): Plan {
    if !ValidLaunch(l) || guardianPid <= 0 || f.record.Some? then Unchanged(f)
    else
      var created := Files(Some(PendingPayload(l, guardianPid)), None);
      if f.proof.None? then Plan([f, created], true)
      else if ProofToken(f.proof.value).None? then Unchanged(f)
      else Plan([f, Files(None, None), created], true)
  }

  // ----- promote / clear -----

  /** The pending record of exactly this launch, as promotion and clearing recognise it; the
      guardian PID it names. */
  function OwnPending(payload: string, l: Launch): (guardianPid: Option<int>)
    requires ValidLaunch(l)
    ensures guardianPid.Some? ==> guardianPid.value > 0
  {
    var lines := SplitLines(payload);
    if |lines| != 6 || Strip(lines[0]) != RECORD_VERSION then None
    else
      var launcherPid, recordedShell := ParseInt(Strip(lines[1])), ParseInt(Strip(lines[3]));
      if launcherPid.None? || recordedShell.None? then None
      else if launcherPid.value <= 0 || Strip(lines[2]) != PENDING || recordedShell != l.shellPid
              || lines[4] != l.bootId || lines[5] != l.token then None
      else launcherPid
  }

  /** One attempt of `promote_application_pid_record`. */
  function Promote(f: Files, l: Launch, applicationPid: int): Plan {
    if !ValidLaunch(l) || applicationPid <= 0 || f.record.None? || OwnPending(f.record.value, l).None? then Unchanged(f)
    else
      var guardianPid := OwnPending(f.record.value, l).value;
      var promoted := Print(guardianPid, Some(applicationPid), l.shellPid.value, l.bootId, l.token);
      Plan([f, f.(record := Some(promoted))], true)
  }

  function ClearPending(f: Files, l: Launch): Plan {
    if !ValidLaunch(l) || f.record.None? || OwnPending(f.record.value, l).None? then Unchanged(f)
    else Plan([f, f.(record := None)], true)
  }

  // ----- publish_cleanup_complete_proof -----

  /** The record this guardian may prove clean: no blanks tolerated around version and application. */
  predicate Provable(payload: string, l: Launch, applicationPid: int)
    requires ValidLaunch(l) && applicationPid > 0
  {
    var lines := SplitLines(payload);
    && |lines| == 6 && lines[0] == RECORD_VERSION
    && var launcherPid, recordedShell := ParseInt(lines[1]), ParseInt(lines[3]);
    && launcherPid.Some? && recordedShell.Some? && launcherPid.value > 0
    && lines[2] in {PENDING, Decimal(applicationPid)}
    && recordedShell == l.shellPid
    && lines[4] == l.bootId && lines[5] == l.token
  }

  function Publish(f: Files, l: Launch, applicationPid: int): Plan {
    if !ValidLaunch(l) || applicationPid <= 0 || f.record.None? || !Provable(f.record.value, l, applicationPid)
    then Unchanged(f)
    else Plan([f, f.(proof := Some(PrintProof(l.token)))], true)
  }

  // ----- finalise_source_cleanup -----

  predicate FinaliseArguments(l: Launch, guardianPid: int, applicationPid: Option<int>, callerPid: int) {
    && ValidLaunch(l)
    && guardianPid > 0 && guardianPid !in {l.shellPid.value, callerPid}
    && (applicationPid.Some? ==> applicationPid.value > 0 && applicationPid.value !in {l.shellPid.value, callerPid})
  }

  /** `aliveBefore` is the liveness round taken before the lock, `aliveAfter` the one inside it. */
  function Finalise(f: Files, l: Launch, guardianPid: int, applicationPid: Option<int>, callerPid: int,
                    aliveBefore: bool, aliveAfter: bool): Plan
  {
    if !FinaliseArguments(l, guardianPid, applicationPid, callerPid) || aliveBefore then Unchanged(f)
    else
      var expectedRecord := Print(guardianPid, applicationPid, l.shellPid.value, l.bootId, l.token);
      var expectedProof := PrintProof(l.token);
      if f.record.None? then
        if applicationPid.Some? || (f.proof.Some? && f.proof.value != expectedProof) || aliveAfter then Unchanged(f)
        else if f.proof.Some? then Plan([f, Files(None, None)], true)
        else Plan([f], true)
      else if f.record.value != expectedRecord
           || (applicationPid.Some? && f.proof.None?)
           || (f.proof.Some? && f.proof.value != expectedProof)
           || aliveAfter then Unchanged(f)
      else if f.proof.Some? then Plan([f, f.(record := None), Files(None, None)], true)
      else Plan([f, Files(None, None)], true)
  }

  // ----- recover_stale_desktop_record -----

  /** What the recovering launch sees: one observation per inspected PID and containment group. */
  datatype Probes = Probes(shell: Observation, process: map<int, Observation>, group: map<int, GroupObservation>)

  /** The verdict on one recorded PID: `Dead`, `Reused`, or `None` when it blocks recovery. */
  function Inspect(pid: int, own: int, observed: Observation): Option<Observation> {
    if pid == own then Some(Reused)
    else match observed
      case Dead => Some(Dead)
      case Reused => Some(Reused)
      case Incompatible => Some(Reused)
      case Compatible => None
      case Unreadable => None
  }

  function ProcessVerdict(pid: int, callerPid: int, probes: Probes): Option<Observation> {
    Inspect(pid, callerPid, if pid in probes.process then probes.process[pid] else Unreadable)
  }

  predicate GroupResolved(pgid: int, callerPid: int, probes: Probes) {
    || ProcessVerdict(pgid, callerPid, probes) == Some(Reused)
    || (pgid in probes.group && probes.group[pgid] in {GroupDead, GroupReused})
  }

  /** Every authority the record names is proved dead or reused. */
  predicate Stale(r: Record, shellPid: int, callerPid: int, probes: Probes) {
    && Inspect(r.shellPid, shellPid, probes.shell).Some?
    && (r.applicationPid.Some? ==> ProcessVerdict(r.applicationPid.value, callerPid, probes).Some?)
    && ProcessVerdict(r.guardianPid, callerPid, probes).Some?
    && (r.spawnContained ==>
          && GroupResolved(r.guardianPid, callerPid, probes)
          && (r.applicationPid.Some? ==> GroupResolved(r.applicationPid.value, callerPid, probes)))
  }

  /** `ok` is true exactly when a record was removed; blocked and nothing-to-do leave it false. */
  function Recover(f: Files, shellPid: int, callerPid: int, probes: Probes): Plan {
    if f.record.None? then
      if f.proof.None? || ProofToken(f.proof.value).None? then Unchanged(f)
      else Plan([f, Files(None, None)], false)
    else
      var record := Parse(f.record.value);
      if record.None? then Unchanged(f)
      else if f.proof.Some? && (record.value.launchToken.None? || ProofToken(f.proof.value) != record.value.launchToken)
      then Unchanged(f)
      else if !Stale(record.value, shellPid, callerPid, probes) then Unchanged(f)
      else if f.proof.Some? then Plan([f, f.(record := None), Files(None, None)], true)
      else Plan([f, Files(None, None)], true)
  }

  // ----- What every durable state keeps -----

  /** The token of a v4 record. */
  function RecordToken(payload: string): Option<string> {
    var lines := SplitLines(payload);
    if |lines| == 6 && Strip(lines[0]) == RECORD_VERSION then Some(lines[5]) else None
  }

  /** Any proof is an exact proof, and one beside a record carries that record's token. */
  predicate TokenBound(f: Files) {
    && (f.proof.Some? ==> ProofToken(f.proof.value).Some?)
    && (f.proof.Some? && f.record.Some? ==> RecordToken(f.record.value) == ProofToken(f.proof.value))
  }

  datatype Op =
    | OpCreate(l: Launch, guardianPid: int)
    | OpPromote(l: Launch, applicationPid: int)
    | OpClear(l: Launch)
    | OpPublish(l: Launch, applicationPid: int)
    | OpFinalise(l: Launch, guardianPid: int, application: Option<int>,
                 callerPid: int, aliveBefore: bool, aliveAfter: bool)
    | OpRecover(shellPid: int, callerPid: int, probes: Probes)

  function PlanOf(f: Files, op: Op): (plan: Plan)
    ensures |plan.states| > 0 && plan.states[0] == f
  {
    match op
    case OpCreate(l, g) => Create(f, l, g)
    case OpPromote(l, a) => Promote(f, l, a)
    case OpClear(l) => ClearPending(f, l)
    case OpPublish(l, a) => Publish(f, l, a)
    case OpFinalise(l, g, a, caller, before, after) => Finalise(f, l, g, a, caller, before, after)
    case OpRecover(shell, caller, probes) => Recover(f, shell, caller, probes)
  }

  lemma PrintedToken(g: int, a: Option<int>, shell: int, bootId: string, token: string)
    requires g > 0 && shell > 0 && (a.Some? ==> a.value > 0) && ValidBootId(bootId) && ValidToken(token)
    ensures RecordToken(Print(g, a, shell, bootId, token)) == Some(token)
  {
    PrintedLines(g, a, shell, bootId, token);
    StripWord(RECORD_VERSION);
  }

  lemma PromoteKeepsTokenBound(f: Files, l: Launch, a: int)
    requires TokenBound(f)
    ensures forall i | 0 <= i < |Promote(f, l, a).states| :: TokenBound(Promote(f, l, a).states[i])
  {
    var plan := Promote(f, l, a);
    if plan.ok {
      PrintedToken(OwnPending(f.record.value, l).value, Some(a), l.shellPid.value, l.bootId, l.token);
    }
  }

  lemma PublishKeepsTokenBound(f: Files, l: Launch, a: int)
    requires TokenBound(f)
    ensures forall i | 0 <= i < |Publish(f, l, a).states| :: TokenBound(Publish(f, l, a).states[i])
  {
    var plan := Publish(f, l, a);
    if plan.ok {
      ProofRoundTrip(PrintProof(l.token), l.token);
      StripWord(RECORD_VERSION);
    }
  }

  /** Publishing beside a proof writes the same proof again. */
  lemma PublishKeepsProof(f: Files, l: Launch, a: int)
    requires TokenBound(f) && f.proof.Some? && Publish(f, l, a).ok
    ensures f.proof == Some(PrintProof(l.token))
  {
    StripWord(RECORD_VERSION);
    ProofRoundTrip(f.proof.value, l.token);
  }

  /** Every durable state any transition passes through keeps proof and record bound to one token. */
  lemma TransitionsKeepTokenBound(f: Files, op: Op, i: nat)
    requires TokenBound(f) && i < |PlanOf(f, op).states|
    ensures TokenBound(PlanOf(f, op).states[i])
  {
    match op
    case OpPromote(l, a) => PromoteKeepsTokenBound(f, l, a);
    case OpPublish(l, a) => PublishKeepsTokenBound(f, l, a);
    case OpCreate(_, _) =>
    case OpClear(_) =>
    case OpFinalise(_, _, _, _, _, _) =>
    case OpRecover(_, _, _) =>
  }

  /** A record appears only in a state without any proof: a left-over proof is cleared first. */
  lemma RecordAppearsProofFree(f: Files, op: Op, i: nat)
    requires i < |PlanOf(f, op).states| && f.record.None? && PlanOf(f, op).states[i].record.Some?
    ensures op.OpCreate? && PlanOf(f, op).states[i].proof.None?
    ensures PlanOf(f, op).states[i].record == Some(PendingPayload(op.l, op.guardianPid))
  {
  }

  /** Apart from creating an absent record and promoting a pending one, a transition leaves the record
      as it is or removes it. */
  lemma RecordKeptOrRemoved(f: Files, op: Op, i: nat)
    requires i < |PlanOf(f, op).states|
    requires !(op.OpCreate? && f.record.None?) && !(op.OpPromote? && i == 1)
    ensures PlanOf(f, op).states[i].record == f.record || PlanOf(f, op).states[i].record.None?
  {
  }

  /** A launch identity is valid exactly with a positive shell PID, an even number of 16 to 512 hexadecimal
      digits as boot id and 64 of them as token. */
  lemma ValidLaunchIff(l: Launch)
    ensures ValidLaunch(l)
       <==> && l.shellPid.Some? && l.shellPid.value > 0
            && 16 <= |l.bootId| <= 512 && |l.bootId| % 2 == 0 && |l.token| == 64
            && (forall i | 0 <= i < |l.bootId| :: l.bootId[i] in "0123456789abcdefABCDEF")
            && (forall i | 0 <= i < |l.token| :: l.token[i] in "0123456789abcdefABCDEF")
  {
    ValidHexIff(l.bootId, 16, 512);
    ValidHexIff(l.token, 64, 64);
  }

  /** Creation succeeds exactly on a valid launch that finds no record and no malformed proof; it ends with
      the pending record alone. */
  lemma CreateSucceedsIff(f: Files, l: Launch, g: int)
    ensures Create(f, l, g).ok
       <==> ValidLaunch(l) && g > 0 && f.record.None? && (f.proof.Some? ==> ProofToken(f.proof.value).Some?)
    ensures Create(f, l, g).ok ==> Last(Create(f, l, g)) == Files(Some(PendingPayload(l, g)), None)
    ensures !Create(f, l, g).ok ==> Create(f, l, g) == Unchanged(f)
  {
  }

  /** Clearing never removes a promoted record, whoever promoted it. */
  lemma ClearSparesPromoted(f: Files, l: Launch, g: int, a: int, shell: int, bootId: string, token: string)
    requires g > 0 && a > 0 && shell > 0 && ValidBootId(bootId) && ValidToken(token)
    requires f.record == Some(Print(g, Some(a), shell, bootId, token))
    ensures ClearPending(f, l) == Unchanged(f)
  {
    PrintedLines(g, Some(a), shell, bootId, token);
    ApplicationFieldRoundTrip(Some(a));
  }

  /** Promotion of a created record changes its application field and nothing else. */
  lemma PromoteCreated(f: Files, l: Launch, g: int, a: int)
    requires ValidLaunch(l) && g > 0 && a > 0 && f.record == Some(PendingPayload(l, g))
    ensures Promote(f, l, a).ok
    ensures Promote(f, l, a).states == [f, f.(record := Some(Print(g, Some(a), l.shellPid.value, l.bootId, l.token)))]
    ensures Parse(f.record.value).Some?
    ensures Parse(Promote(f, l, a).states[1].record.value)
         == Some(Parse(f.record.value).value.(applicationPid := Some(a)))
  {
    OwnPendingPrinted(l, g);
    RecordRoundTrip(g, None, l.shellPid.value, l.bootId, l.token);
    RecordRoundTrip(g, Some(a), l.shellPid.value, l.bootId, l.token);
  }

  lemma OwnPendingPrinted(l: Launch, g: int)
    requires ValidLaunch(l) && g > 0
    ensures OwnPending(PendingPayload(l, g), l) == Some(g)
  {
    PrintedLines(g, None, l.shellPid.value, l.bootId, l.token);
    DecimalRoundTrip(g);
    DecimalRoundTrip(l.shellPid.value);
    StripWord(RECORD_VERSION);
    StripWord(PENDING);
  }

  /** Only the launch that printed a record recognises it as its own pending one. */
  lemma OwnPendingOfPrinted(l: Launch, g: int, a: Option<int>, shell: int, bootId: string, token: string)
    requires ValidLaunch(l) && g > 0 && shell > 0 && (a.Some? ==> a.value > 0)
             && ValidBootId(bootId) && ValidToken(token)
    ensures OwnPending(Print(g, a, shell, bootId, token), l)
         == if a.None? && l == Launch(Some(shell), bootId, token) then Some(g) else None
  {
    PrintedLines(g, a, shell, bootId, token);
    DecimalRoundTrip(g);
    DecimalRoundTrip(shell);
    ApplicationFieldRoundTrip(a);
    StripWord(RECORD_VERSION);
  }

  /** Blanks that do not end a line. */
  predicate IsPadding(s: string) {
    forall i | 0 <= i < |s| :: s[i] == ' ' || s[i] == '\t'
  }

  lemma PaddedField(before: string, word: string, after: string)
    requires IsPadding(before) && IsWord(word) && IsPadding(after)
    ensures Strip(before + word + after) == word && IsLine(before + word + after)
    ensures before + word + after == word <==> before == "" && after == ""
  {
    WordIsLine(word);
    StripPadded(before, word, after);
    if before + word + after == word {
      assert |before + word + after| == |word|;
    }
  }

  /** A pending record with blanks around its version, its guardian and its application field: promotion and
      clearing still recognise it, while a guardian will not prove it clean unless version and
      application field are bare. */
  lemma PaddedPending(l: Launch, g: int, app: int, b: seq<string>)
    requires ValidLaunch(l) && g > 0 && app > 0 && |b| == 6 && forall i | 0 <= i < 6 :: IsPadding(b[i])
    ensures var lines := [b[0] + "v4" + b[1], b[2] + Decimal(g) + b[3], b[4] + "pending" + b[5],
                          Decimal(l.shellPid.value), l.bootId, l.token];
      && OwnPending(JoinLines(lines), l) == Some(g)
      && (Provable(JoinLines(lines), l, app) ==> b[0] == "" && b[1] == "" && b[4] == "" && b[5] == "")
  {
    var lines := [b[0] + "v4" + b[1], b[2] + Decimal(g) + b[3], b[4] + "pending" + b[5],
                  Decimal(l.shellPid.value), l.bootId, l.token];
    PaddedField(b[0], "v4", b[1]);
    DecimalRoundTrip(g);
    PaddedField(b[2], Decimal(g), b[3]);
    PaddedField(b[4], "pending", b[5]);
    PlainFields(l);
    JoinedLines(lines);
    if Provable(JoinLines(lines), l, app) {
      PaddedIsNotDecimal(b[4], b[5], app);
    }
  }

  lemma PlainFields(l: Launch)
    requires ValidLaunch(l)
    ensures IsLine(Decimal(l.shellPid.value)) && IsLine(l.bootId) && IsLine(l.token)
    ensures ParseInt(Strip(Decimal(l.shellPid.value))) == l.shellPid
  {
    DecimalRoundTrip(l.shellPid.value);
    WordIsLine(Decimal(l.shellPid.value));
    HexIsWord(l.bootId, 16, 512);
    WordIsLine(l.bootId);
    HexIsWord(l.token, 64, 64);
    WordIsLine(l.token);
  }

  lemma PaddedIsNotDecimal(before: string, after: string, n: nat)
    requires IsPadding(before)
    ensures before + "pending" + after != Decimal(n)
  {
    var padded := before + "pending" + after;
    assert padded[|before|] == 'p';
    assert |before| < |padded|;
  }

  /** A guardian proves exactly its own launch's record, pending or promoted to its own application. */
  lemma PublishPrintedIff(f: Files, l: Launch, app: int,
                          g: int, a: Option<int>, shell: int, bootId: string, token: string)
    requires g > 0 && shell > 0 && (a.Some? ==> a.value > 0) && ValidBootId(bootId) && ValidToken(token)
    requires ValidLaunch(l) && app > 0 && f.record == Some(Print(g, a, shell, bootId, token))
    ensures Publish(f, l, app).ok <==> l == Launch(Some(shell), bootId, token) && (a.None? || a == Some(app))
    ensures Publish(f, l, app).ok ==> Publish(f, l, app).states == [f, Files(f.record, Some(PrintProof(token)))]
  {
    PrintedLines(g, a, shell, bootId, token);
    DecimalRoundTrip(g);
    DecimalRoundTrip(shell);
    ApplicationFieldRoundTrip(a);
    if a.Some? {
      PendingIsNotDecimal(a.value);
      if Decimal(a.value) == Decimal(app) {
        DecimalInjective(a.value, app);
      }
    }
  }

  function Last(plan: Plan): Files
    requires |plan.states| > 0
  {
    plan.states[|plan.states| - 1]
  }

  /** A whole launch undoes itself: created, promoted, proved and finalised after both processes died,
      it leaves no record and no proof, and the next launch can start. */
  lemma LaunchCycle(f: Files, l: Launch, g: int, a: int, caller: int)
    requires TokenBound(f) && f.record.None? && FinaliseArguments(l, g, Some(a), caller)
    ensures var created := Create(f, l, g);
      created.ok && var promoted := Promote(Last(created), l, a);
      promoted.ok && var proved := Publish(Last(promoted), l, a);
      proved.ok && var finalised := Finalise(Last(proved), l, g, Some(a), caller, false, false);
      finalised.ok && Last(finalised) == Files(None, None)
  {
    var created := Create(f, l, g);
    PromoteCreated(Last(created), l, g, a);
    var promoted := Promote(Last(created), l, a);
    PublishPrintedIff(Last(promoted), l, a, g, Some(a), l.shellPid.value, l.bootId, l.token);
  }

  /** Finalisation of a promoted launch: it reports success exactly when the PIDs are positive and neither
      the shell's nor the caller's, the record is this launch's bytes, the matching proof is present and
      both liveness rounds saw no recorded PID; otherwise nothing changes. */
  lemma FinalisePromotedIff(f: Files, l: Launch, g: int, a: int, caller: int, before: bool, after: bool)
    ensures Finalise(f, l, g, Some(a), caller, before, after).ok
       <==> && ValidLaunch(l) && g > 0 && g != l.shellPid.value && g != caller
            && a > 0 && a != l.shellPid.value && a != caller
            && f == Files(Some(Print(g, Some(a), l.shellPid.value, l.bootId, l.token)), Some(PrintProof(l.token)))
            && !before && !after
    ensures !Finalise(f, l, g, Some(a), caller, before, after).ok
       ==> Finalise(f, l, g, Some(a), caller, before, after) == Unchanged(f)
  {
  }

  /** Finalisation of a pending launch is idempotent on an already absent record and needs no proof, but
      refuses any other record, any foreign proof and any live guardian. */
  lemma FinalisePendingIff(f: Files, l: Launch, g: int, caller: int, before: bool, after: bool)
    ensures Finalise(f, l, g, None, caller, before, after).ok
       <==> && ValidLaunch(l) && g > 0 && g != l.shellPid.value && g != caller
            && (f.record.None? || f.record.value == PendingPayload(l, g))
            && (f.proof.None? || f.proof.value == PrintProof(l.token))
            && !before && !after
    ensures !Finalise(f, l, g, None, caller, before, after).ok
       ==> Finalise(f, l, g, None, caller, before, after) == Unchanged(f)
  {
  }

  /** Removal is record-first: no state on the way keeps the record and has lost its proof. */
  lemma RemovalIsRecordFirst(f: Files, op: Op, i: nat)
    requires op.OpFinalise? || op.OpRecover?
    requires i < |PlanOf(f, op).states|
    ensures PlanOf(f, op).states[i].record.Some? ==> PlanOf(f, op).states[i] == f
    ensures PlanOf(f, op).ok ==> PlanOf(f, op).states[|PlanOf(f, op).states| - 1] == Files(None, None)
  {
  }

  /** The PID is the caller's own, or was observed dead, reused or held by an unrelated process. */
  predicate PidSettled(pid: int, callerPid: int, probes: Probes) {
    pid == callerPid || (pid in probes.process && probes.process[pid] in {Dead, Reused, Incompatible})
  }

  /** The group was observed dead or reused, or its leader's PID is known to be somebody else's by now. */
  predicate GroupSettled(pgid: int, callerPid: int, probes: Probes) {
    || pgid == callerPid
    || (pgid in probes.process && probes.process[pgid] in {Reused, Incompatible})
    || (pgid in probes.group && probes.group[pgid] in {GroupDead, GroupReused})
  }

  lemma StaleIff(r: Record, shellPid: int, callerPid: int, probes: Probes)
    ensures Stale(r, shellPid, callerPid, probes)
       <==> && (r.shellPid == shellPid || probes.shell in {Dead, Reused, Incompatible})
            && PidSettled(r.guardianPid, callerPid, probes)
            && (r.applicationPid.Some? ==> PidSettled(r.applicationPid.value, callerPid, probes))
            && (r.spawnContained ==> GroupSettled(r.guardianPid, callerPid, probes))
            && (r.spawnContained && r.applicationPid.Some? ==> GroupSettled(r.applicationPid.value, callerPid, probes))
  {
  }

  /** Recovery of any record that parses, whatever its version: it is removed exactly when a proof beside
      it carries its token, the shell, the guardian and the application are settled and, if its spawns
      are contained, both containment groups are; otherwise everything stays as it is. */
  lemma RecoverIff(f: Files, shellPid: int, callerPid: int, probes: Probes, r: Record)
    requires f.record.Some? && Parse(f.record.value) == Some(r)
    ensures Recover(f, shellPid, callerPid, probes).ok
       <==> && (f.proof.None? || (r.launchToken.Some? && ProofToken(f.proof.value) == r.launchToken))
            && (r.shellPid == shellPid || probes.shell in {Dead, Reused, Incompatible})
            && PidSettled(r.guardianPid, callerPid, probes)
            && (r.applicationPid.Some? ==> PidSettled(r.applicationPid.value, callerPid, probes))
            && (r.spawnContained ==> GroupSettled(r.guardianPid, callerPid, probes))
            && (r.spawnContained && r.applicationPid.Some? ==> GroupSettled(r.applicationPid.value, callerPid, probes))
    ensures !Recover(f, shellPid, callerPid, probes).ok ==> Recover(f, shellPid, callerPid, probes) == Unchanged(f)
  {
    StaleIff(r, shellPid, callerPid, probes);
  }

  /** Without a record, or with one that does not parse, recovery removes at most an orphaned exact proof. */
  lemma RecoverNothing(f: Files, shellPid: int, callerPid: int, probes: Probes)
    requires f.record.None? || Parse(f.record.value).None?
    ensures !Recover(f, shellPid, callerPid, probes).ok
    ensures Recover(f, shellPid, callerPid, probes).states
         == if f.record.None? && f.proof.Some? && ProofToken(f.proof.value).Some? then [f, Files(None, None)] else [f]
  {
  }

  /** For a printed record: a dead launch is recovered, and a live or unknown process or containment group
      keeps its record. */
  lemma RecoverPrintedIff(f: Files, g: int, a: Option<int>, l: Launch, shellPid: int, callerPid: int, probes: Probes)
    requires ValidLaunch(l) && g > 0 && (a.Some? ==> a.value > 0)
    requires f == Files(Some(Print(g, a, l.shellPid.value, l.bootId, l.token)), None)
    ensures Recover(f, shellPid, callerPid, probes).ok
       <==> && (l.shellPid == Some(shellPid) || probes.shell in {Dead, Reused, Incompatible})
            && PidSettled(g, callerPid, probes) && GroupSettled(g, callerPid, probes)
            && (a.Some? ==> PidSettled(a.value, callerPid, probes) && GroupSettled(a.value, callerPid, probes))
  {
    RecordRoundTrip(g, a, l.shellPid.value, l.bootId, l.token);
    RecoverIff(f, shellPid, callerPid, probes, Parse(f.record.value).value);
  }

  /** What recovery has settled whenever it removes a printed record, whatever proof is beside it. */
  lemma RemovedIsSettled(f: Files, g: int, a: Option<int>, l: Launch, shellPid: int, callerPid: int, probes: Probes,
                         i: nat)
    requires ValidLaunch(l) && g > 0 && (a.Some? ==> a.value > 0)
    requires f.record == Some(Print(g, a, l.shellPid.value, l.bootId, l.token))
    ensures var states := Recover(f, shellPid, callerPid, probes).states;
      i < |states| && states[i].record.None? ==>
      && PidSettled(g, callerPid, probes) && GroupSettled(g, callerPid, probes)
      && (a.Some? ==> PidSettled(a.value, callerPid, probes) && GroupSettled(a.value, callerPid, probes))
  {
    RecordRoundTrip(g, a, l.shellPid.value, l.bootId, l.token);
    RecoverIff(f, shellPid, callerPid, probes, Parse(f.record.value).value);
  }

  /** A successful finalisation that crashed after durable state `i` and is run again. A pending launch's
      finalisation can always be resumed. A promoted launch's cannot once its record is gone: the rerun
      refuses, and what is left never keeps the next launch from being created. */
  lemma FinaliseRerunIff(f: Files, l: Launch, g: int, a: Option<int>, caller: int, i: nat,
                         next: Launch, nextGuardian: int)
    requires TokenBound(f) && Finalise(f, l, g, a, caller, false, false).ok
    requires i < |Finalise(f, l, g, a, caller, false, false).states|
    requires ValidLaunch(next) && nextGuardian > 0
    ensures var left := Finalise(f, l, g, a, caller, false, false).states[i];
      && (Finalise(left, l, g, a, caller, false, false).ok <==> a.None? || left.record.Some?)
      && (left.record.None? ==> Create(left, next, nextGuardian).ok)
  {
    var op := OpFinalise(l, g, a, caller, false, false);
    var left := Finalise(f, l, g, a, caller, false, false).states[i];
    RemovalIsRecordFirst(f, op, i);
    TransitionsKeepTokenBound(f, op, i);
    CreateSucceedsIff(left, next, nextGuardian);
    if a.None? {
      FinalisePendingIff(f, l, g, caller, false, false);
      FinalisePendingIff(left, l, g, caller, false, false);
    } else {
      FinalisePromotedIff(left, l, g, a.value, caller, false, false);
    }
  }

  /** The transitions as they run: one directory holding the record and its proof, each durable
      write visible in `history`. */
  class RecordDirectory {
    var record: Option<string>
    var proof: Option<string>
    ghost var history: seq<Files>

    ghost predicate Valid()
      reads this
    {
      |history| > 0 && history[|history| - 1] == Files(record, proof)
    }

    constructor ()
      ensures Valid() && record == None && proof == None && history == [Files(None, None)]
    {
      record, proof := None, None;
      history := [Files(None, None)];
    }

    method WriteRecord(value: Option<string>)
      requires Valid()
      modifies this
      ensures Valid() && record == value && proof == old(proof)
      ensures history == old(history) + [Files(value, old(proof))]
    {
      record := value;
      history := history + [Files(record, proof)];
    }

    method WriteProof(value: Option<string>)
      requires Valid()
      modifies this
      ensures Valid() && record == old(record) && proof == value
      ensures history == old(history) + [Files(old(record), value)]
    {
      proof := value;
      history := history + [Files(record, proof)];
    }

    /** Removes a crash-left exact proof; `false` is the refusal on a malformed one. */
    method ReconcileOrphanedProof() returns (ok: bool)
      requires Valid()
      modifies this
      ensures Valid() && record == old(record)
      ensures ok <==> old(proof).None? || ProofToken(old(proof).value).Some?
      ensures proof == if ok then None else old(proof)
      ensures history == old(history) + if ok && old(proof).Some? then [Files(record, None)] else []
    {
      ok := true;
      if proof.Some? {
        if ProofToken(proof.value).None? {
          return false;
        }
        WriteProof(None);
      }
    }

    method CreatePending(l: Launch, guardianPid: int) returns (ok: bool)
      requires Valid()
      modifies this
      ensures Valid()
      ensures var plan := Create(old(Files(record, proof)), l, guardianPid);
              ok == plan.ok && history == old(history) + plan.states[1..]
    {
      if !ValidLaunch(l) || guardianPid <= 0 || record.Some? {
        return false;
      }
      var reconciled := ReconcileOrphanedProof();
      if !reconciled {
        return false;
      }
      WriteRecord(Some(PendingPayload(l, guardianPid)));
      ok := true;
    }

    method PromoteApplication(l: Launch, applicationPid: int) returns (ok: bool)
      requires Valid()
      modifies this
      ensures Valid()
      ensures var plan := Promote(old(Files(record, proof)), l, applicationPid);
              ok == plan.ok && history == old(history) + plan.states[1..]
    {
      if !ValidLaunch(l) || applicationPid <= 0 || record.None? {
        return false;
      }
      var guardianPid := OwnPending(record.value, l);
      if guardianPid.None? {
        return false;
      }
      WriteRecord(Some(Print(guardianPid.value, Some(applicationPid), l.shellPid.value, l.bootId, l.token)));
      ok := true;
    }

    method Clear(l: Launch) returns (ok: bool)
      requires Valid()
      modifies this
      ensures Valid()
      ensures var plan := ClearPending(old(Files(record, proof)), l);
              ok == plan.ok && history == old(history) + plan.states[1..]
    {
      if !ValidLaunch(l) || record.None? || OwnPending(record.value, l).None? {
        return false;
      }
      WriteRecord(None);
      ok := true;
    }

    method PublishProof(l: Launch, applicationPid: int) returns (ok: bool)
      requires Valid()
      modifies this
      ensures Valid()
      ensures var plan := Publish(old(Files(record, proof)), l, applicationPid);
              ok == plan.ok && history == old(history) + plan.states[1..]
    {
      if !ValidLaunch(l) || applicationPid <= 0 || record.None? || !Provable(record.value, l, applicationPid) {
        return false;
      }
      WriteProof(Some(PrintProof(l.token)));
      ok := true;
    }

    method FinaliseCleanup(l: Launch, guardianPid: int, applicationPid: Option<int>, callerPid: int,
                           aliveBefore: bool, aliveAfter: bool) returns (ok: bool)
      requires Valid()
      modifies this
      ensures Valid()
      ensures var plan := Finalise(old(Files(record, proof)), l, guardianPid, applicationPid,
                                   callerPid, aliveBefore, aliveAfter);
              ok == plan.ok && history == old(history) + plan.states[1..]
    {
      if !FinaliseArguments(l, guardianPid, applicationPid, callerPid) || aliveBefore {
        return false;
      }
      var expectedProof := PrintProof(l.token);
      if proof.Some? && proof.value != expectedProof {
        return false;
      }
      if record.None? {
        if applicationPid.Some? || aliveAfter {
          return false;
        }
        if proof.Some? {
          WriteProof(None);
        }
        return true;
      }
      if record.value != Print(guardianPid, applicationPid, l.shellPid.value, l.bootId, l.token)
         || (applicationPid.Some? && proof.None?) || aliveAfter {
        return false;
      }
      // Record absence is the launch gate, so the record goes first.
      WriteRecord(None);
      if proof.Some? {
        WriteProof(None);
      }
      ok := true;
    }

    method RecoverStale(shellPid: int, callerPid: int, probes: Probes) returns (removed: bool)
      requires Valid()
      modifies this
      ensures Valid()
      ensures var plan := Recover(old(Files(record, proof)), shellPid, callerPid, probes);
              removed == plan.ok && history == old(history) + plan.states[1..]
    {
      removed := false;
      if record.None? {
        var _ := ReconcileOrphanedProof();
        return false;
      }
      var parsed := Parse(record.value);
      if parsed.None?
         || (proof.Some? && (parsed.value.launchToken.None? || ProofToken(proof.value) != parsed.value.launchToken))
         || !Stale(parsed.value, shellPid, callerPid, probes) {
        return false;
      }
      WriteRecord(None);
      if proof.Some? {
        WriteProof(None);
      }
      removed := true;
    }
  }
}
