/** Revalidation of one numeric parent or group edge on Linux, by reading the relative, the candidate and
    the relative again while processes exit and PIDs are reused; where the platform has pidfds, the
    relative is also watched through one. */
module Validator {
  import opened PyText
  import opened Processes
  import opened Ownership
  import opened Containment

  ghost function ReadProcess(w: World, pid: int): Option<Row>
    requires ValidWorld(w)
  {
    if pid in w.table then Some(LinuxTable(w)[pid]) else None
  }

  /** The strongest generation identity of Linux rows: PID and start token. */
  predicate SameGeneration(snapshot: Row, current: Row) {
    snapshot.pid == current.pid && snapshot.startToken != "" && snapshot.startToken == current.startToken
  }

  /** The death guard: a pidfd on the relative, opened at `open` and polled at `first` and `second`. */
  datatype Watch = Unwatched | Watched(open: nat, first: nat, second: nat)

  /** The moments of one validation, in the order in which it takes them. */
  datatype Moments = Moments(watch: Watch, before: nat, at: nat, after: nat)

  ghost predicate Ordered(m: Moments, snapshot: nat, end: nat) {
    && snapshot <= m.before <= m.at <= m.after < end
    && (m.watch.Watched? ==>
          snapshot <= m.watch.open <= m.watch.first <= m.before && m.after <= m.watch.second < end)
  }

  /** A pidfd is bound to the generation that holds the PID when it is opened, and polls as readable once
      that generation has exited. */
  ghost predicate StaysQuiet(ws: seq<World>, pid: int, watch: Watch)
    requires watch.Watched? ==> watch.open < |ws| && watch.first < |ws| && watch.second < |ws|
  {
    watch.Watched? ==>
      && pid in ws[watch.open].table
      && !Gone(ws[watch.first], ws[watch.open].table[pid].gen)
      && !Gone(ws[watch.second], ws[watch.open].table[pid].gen)
  }

  /** `candidate` and `relative` are rows of an earlier snapshot. */
  ghost predicate Confirms(ws: seq<World>, candidate: Row, relative: Row, relation: Relation, m: Moments)
    requires Path(ws) && Ordered(m, 0, |ws|)
  {
    PathValid(ws, 0, m.before);
    PathValid(ws, 0, m.at);
    PathValid(ws, 0, m.after);
    var first, current, last :=
      ReadProcess(ws[m.before], relative.pid), ReadProcess(ws[m.at], candidate.pid),
      ReadProcess(ws[m.after], relative.pid);
    && StaysQuiet(ws, relative.pid, m.watch)
    && first.Some? && current.Some? && last.Some?
    && SameGeneration(relative, first.value) && SameGeneration(relative, last.value)
    && SameGeneration(candidate, current.value)
    && match relation
       case Parent => current.value.ppid == relative.pid
       case Group =>
         && current.value.pgid == relative.pid
         && first.value.pid == first.value.pgid && last.value.pid == last.value.pgid
         && current.value.sid == first.value.sid == last.value.sid
  }

  ghost predicate Holds(w: World, pid: int, gen: nat) {
    pid in w.table && w.table[pid].gen == gen
  }

  /** A row of an earlier snapshot and a later read name the same generation exactly when that
      generation still holds the PID. */
  lemma SameGenerationIff(ws: seq<World>, snapshot: nat, later: nat, pid: int)
    requires Path(ws) && snapshot <= later < |ws| && ValidWorld(ws[snapshot]) && ValidWorld(ws[later])
    requires pid in ws[snapshot].table
    ensures Holds(ws[later], pid, ws[snapshot].table[pid].gen)
       <==> pid in ws[later].table && SameGeneration(LinuxTable(ws[snapshot])[pid], LinuxTable(ws[later])[pid])
  {
    PathValid(ws, snapshot, later);
    var gen := ws[snapshot].table[pid].gen;
    assert ws[later].births[gen] == ws[snapshot].births[gen];
    assert |LinuxTable(ws[snapshot])[pid].startToken| > 0;
    if pid in ws[later].table && TokenAt(ws[later], pid) == TokenAt(ws[snapshot], pid) {
      TokenNamesGeneration(ws[later].births, ws[later].table[pid].gen, gen);
    }
  }

  /** The pidfd stays quiet exactly when the generation it should watch is alive to the end, provided
      that this generation holds the PID when the relative is read for the last time. */
  lemma QuietIffAlive(ws: seq<World>, snapshot: nat, m: Moments, q: int, gen: nat)
    requires Path(ws) && Ordered(m, snapshot, |ws|) && m.watch.Watched?
    requires ValidWorld(ws[snapshot]) && Holds(ws[snapshot], q, gen) && Holds(ws[m.after], q, gen)
    ensures StaysQuiet(ws, q, m.watch) <==> !Gone(ws[m.watch.second], gen)
  {
    PathValid(ws, snapshot, m.watch.open);
    HoldsBetween(ws, snapshot, m.watch.open, m.after, q, gen);
    PathValid(ws, snapshot, m.watch.first);
    if Gone(ws[m.watch.first], gen) {
      GoneForever(ws, m.watch.first, m.watch.second, gen);
    }
  }

  lemma AliveHolds(ws: seq<World>, snapshot: nat, m: nat, later: nat, q: int, gen: nat)
    requires Path(ws) && snapshot <= m <= later < |ws| && ValidWorld(ws[snapshot])
    requires Holds(ws[snapshot], q, gen) && !Gone(ws[later], gen)
    ensures Holds(ws[m], q, gen)
  {
    PathValid(ws, snapshot, later);
    assert ws[later].births[gen].pid == q;
    HoldsBetween(ws, snapshot, m, later, q, gen);
  }

  /** The relative survives the validation: it still holds its PID at the last read and, if watched, is
      alive at the last poll. */
  ghost predicate Survives(ws: seq<World>, m: Moments, q: int, gen: nat)
    requires Ordered(m, 0, |ws|)
  {
    if m.watch.Watched? then !Gone(ws[m.watch.second], gen) else Holds(ws[m.after], q, gen)
  }

  lemma SurvivorHolds(ws: seq<World>, snapshot: nat, m: Moments, q: int, gen: nat)
    requires Path(ws) && Ordered(m, snapshot, |ws|) && ValidWorld(ws[snapshot])
    requires Holds(ws[snapshot], q, gen) && Survives(ws, m, q, gen)
    ensures Holds(ws[m.before], q, gen) && Holds(ws[m.at], q, gen) && Holds(ws[m.after], q, gen)
  {
    if m.watch.Watched? {
      AliveHolds(ws, snapshot, m.after, m.watch.second, q, gen);
    }
    HoldsBetween(ws, snapshot, m.before, m.after, q, gen);
    HoldsBetween(ws, snapshot, m.at, m.after, q, gen);
  }

  lemma ConfirmedParentHolds(ws: seq<World>, snapshot: nat, m: Moments, p: int, q: int)
    requires Path(ws) && Ordered(m, snapshot, |ws|) && ValidWorld(ws[snapshot])
    requires p in ws[snapshot].table && q in ws[snapshot].table
    requires Confirms(ws, LinuxTable(ws[snapshot])[p], LinuxTable(ws[snapshot])[q], Parent, m)
    ensures Holds(ws[m.at], p, ws[snapshot].table[p].gen) && ws[m.at].table[p].ppid == q
    ensures Survives(ws, m, q, ws[snapshot].table[q].gen)
  {
    PathValid(ws, 0, m.at);
    PathValid(ws, 0, m.after);
    SameGenerationIff(ws, snapshot, m.at, p);
    SameGenerationIff(ws, snapshot, m.after, q);
    if m.watch.Watched? {
      QuietIffAlive(ws, snapshot, m, q, ws[snapshot].table[q].gen);
    }
  }

  lemma SurvivingParentIsConfirmed(ws: seq<World>, snapshot: nat, m: Moments, p: int, q: int)
    requires Path(ws) && Ordered(m, snapshot, |ws|) && ValidWorld(ws[snapshot])
    requires p in ws[snapshot].table && q in ws[snapshot].table
    requires Holds(ws[m.at], p, ws[snapshot].table[p].gen) && ws[m.at].table[p].ppid == q
    requires Survives(ws, m, q, ws[snapshot].table[q].gen)
    ensures Confirms(ws, LinuxTable(ws[snapshot])[p], LinuxTable(ws[snapshot])[q], Parent, m)
  {
    PathValid(ws, 0, m.before);
    PathValid(ws, 0, m.at);
    PathValid(ws, 0, m.after);
    SurvivorHolds(ws, snapshot, m, q, ws[snapshot].table[q].gen);
    if m.watch.Watched? {
      QuietIffAlive(ws, snapshot, m, q, ws[snapshot].table[q].gen);
    }
    SameGenerationIff(ws, snapshot, m.before, q);
    SameGenerationIff(ws, snapshot, m.after, q);
    SameGenerationIff(ws, snapshot, m.at, p);
  }

  /** A parent edge is confirmed exactly when the candidate is still the snapshot's generation at the moment
      it is read, the relative is its parent at that very moment, and the relative survives the
      validation; and then both PIDs are held by the snapshot's generations at that moment. */
  lemma ParentConfirmedIff(ws: seq<World>, snapshot: nat, m: Moments, p: int, q: int)
    requires Path(ws) && Ordered(m, snapshot, |ws|) && ValidWorld(ws[snapshot])
    requires p in ws[snapshot].table && q in ws[snapshot].table
    ensures var gp, gq := ws[snapshot].table[p].gen, ws[snapshot].table[q].gen;
      && (Confirms(ws, LinuxTable(ws[snapshot])[p], LinuxTable(ws[snapshot])[q], Parent, m)
          <==> Holds(ws[m.at], p, gp) && ws[m.at].table[p].ppid == q && Survives(ws, m, q, gq))
      && (Confirms(ws, LinuxTable(ws[snapshot])[p], LinuxTable(ws[snapshot])[q], Parent, m) ==> Holds(ws[m.at], q, gq))
  {
    var gp, gq := ws[snapshot].table[p].gen, ws[snapshot].table[q].gen;
    if Confirms(ws, LinuxTable(ws[snapshot])[p], LinuxTable(ws[snapshot])[q], Parent, m) {
      ConfirmedParentHolds(ws, snapshot, m, p, q);
      SurvivorHolds(ws, snapshot, m, q, gq);
    }
    if Holds(ws[m.at], p, gp) && ws[m.at].table[p].ppid == q && Survives(ws, m, q, gq) {
      SurvivingParentIsConfirmed(ws, snapshot, m, p, q);
    }
  }

  /** A group edge is confirmed exactly when the candidate is still the snapshot's generation and in the relative's
      group and session when it is read, the relative leads that group in that session at both of its
      reads, and the relative survives the validation. */
  lemma GroupConfirmedIff(ws: seq<World>, snapshot: nat, m: Moments, p: int, q: int)
    requires Path(ws) && Ordered(m, snapshot, |ws|) && ValidWorld(ws[snapshot])
    requires p in ws[snapshot].table && q in ws[snapshot].table
    ensures var gp, gq := ws[snapshot].table[p].gen, ws[snapshot].table[q].gen;
      Confirms(ws, LinuxTable(ws[snapshot])[p], LinuxTable(ws[snapshot])[q], Group, m)
      <==> && Holds(ws[m.at], p, gp) && ws[m.at].table[p].pgid == q && Survives(ws, m, q, gq)
           && LeadsIn(ws[m.before], q, ws[m.at].table[p].sid) && LeadsIn(ws[m.after], q, ws[m.at].table[p].sid)
  {
    PathValid(ws, 0, m.before);
    PathValid(ws, 0, m.at);
    PathValid(ws, 0, m.after);
    SameGenerationIff(ws, snapshot, m.at, p);
    RelativeIff(ws, snapshot, m, q);
  }

  /** Reads and polls of the relative together say exactly that it survives. */
  lemma RelativeIff(ws: seq<World>, snapshot: nat, m: Moments, q: int)
    requires Path(ws) && Ordered(m, snapshot, |ws|) && ValidWorld(ws[snapshot]) && q in ws[snapshot].table
    requires ValidWorld(ws[m.before]) && ValidWorld(ws[m.after])
    ensures Survives(ws, m, q, ws[snapshot].table[q].gen)
       <==> && StaysQuiet(ws, q, m.watch) && q in ws[m.before].table && q in ws[m.after].table
            && SameGeneration(LinuxTable(ws[snapshot])[q], LinuxTable(ws[m.before])[q])
            && SameGeneration(LinuxTable(ws[snapshot])[q], LinuxTable(ws[m.after])[q])
  {
    var gq := ws[snapshot].table[q].gen;
    SameGenerationIff(ws, snapshot, m.before, q);
    SameGenerationIff(ws, snapshot, m.after, q);
    if Survives(ws, m, q, gq) {
      SurvivorHolds(ws, snapshot, m, q, gq);
    }
    if m.watch.Watched? && Holds(ws[m.after], q, gq) {
      QuietIffAlive(ws, snapshot, m, q, gq);
    }
  }

  predicate LeadsIn(w: World, q: int, sid: int) {
    q in w.table && w.table[q].pgid == q && w.table[q].sid == sid
  }

  /** While nothing happens the validator, watching or not, confirms every edge to a live parent that the
      snapshot shows: this is what an atomic snapshot grants. */
  lemma AtomicSnapshotIsConfirmed(w: World, p: int, q: int, watch: Watch)
    requires ValidWorld(w) && p in w.table && Live(w, q) && w.table[p].ppid == q
    requires watch == Unwatched || watch == Watched(0, 0, 0)
    ensures Confirms([w], LinuxTable(w)[p], LinuxTable(w)[q], Parent, Moments(watch, 0, 0, 0))
  {
    ParentConfirmedIff([w], 0, Moments(watch, 0, 0, 0), p, q);
  }
}
