/** Completeness of containment on Linux: the guardian is a child subreaper, so every live process it
    ever gave rise to is found by discovery on an atomic snapshot of the process table. */
module Containment {
  import opened PyText
  import opened Processes
  import opened Ownership
  import opened Refresh

  /** The PID holds a process descended from generation `g`: the tree `g` has to account for. */
  ghost predicate InTree(w: World, g: nat, pid: int)
    requires ValidWorld(w)
  {
    pid in w.table && Descends(w.births, w.table[pid].gen, g)
  }

  ghost predicate TreeEmpty(w: World, g: nat)
    requires ValidWorld(w)
  {
    forall p | p in w.table :: !InTree(w, g, p)
  }

  /** The guardian generation runs under `pid` and is a subreaper. */
  ghost predicate Guards(w: World, g: nat, pid: int) {
    Live(w, pid) && w.table[pid].gen == g && g in w.reapers
  }

  /** The process has a live parent that is the guardian or an older tree member. */
  ghost predicate RootedAt(w: World, g: nat, p: int)
    requires ValidWorld(w) && p in w.table
  {
    var parent := w.table[p].ppid;
    && Live(w, parent)
    && (w.table[parent].gen == g || Descends(w.births, w.table[parent].gen, g))
    && w.table[parent].gen < w.table[p].gen
  }

  ghost predicate Rooted(w: World, g: nat)
    requires ValidWorld(w)
  {
    forall p | InTree(w, g, p) :: RootedAt(w, g, p)
  }

  // ----- Rootedness is kept -----

  lemma ForkKeepsRooted(w: World, e: Event, g: nat, p: int)
    requires ValidWorld(w) && Enabled(w, e) && e.Fork? && Rooted(w, g) && g < |w.births|
    requires ValidWorld(Apply(w, e)) && InTree(Apply(w, e), g, p)
    ensures RootedAt(Apply(w, e), g, p)
  {
    var w' := Apply(w, e);
    if p == e.child {
      DescendsPrefix(w.births, w'.births, w.table[e.parent].gen, g);
    } else {
      DescendsPrefix(w.births, w'.births, w.table[p].gen, g);
      assert InTree(w, g, p) && RootedAt(w, g, p);
      DescendsPrefix(w.births, w'.births, w.table[w.table[p].ppid].gen, g);
    }
  }

  /** The adopter of an orphan in the tree is the guardian or an older tree member. */
  lemma AdopterIsInTree(w: World, g: nat, guardian: int, pid: int, reaper: int)
    requires ValidWorld(w) && Guards(w, g, guardian)
    requires pid in w.table && Descends(w.births, w.table[pid].gen, g) && MayAdopt(w, pid, reaper)
    ensures w.table[reaper].gen == g || Descends(w.births, w.table[reaper].gen, g)
    ensures w.table[reaper].gen < w.table[pid].gen
  {
    assert w.table[guardian].gen in w.reapers;
    DescendsIncreases(w.births, w.table[pid].gen, w.table[reaper].gen);
  }

  /** A tree member whose parent exits is adopted within the tree. */
  lemma OrphanIsRooted(w: World, e: Event, g: nat, guardian: int, p: int)
    requires ValidWorld(w) && Enabled(w, e) && e.Exit? && Guards(w, g, guardian) && e.pid != guardian
    requires ValidWorld(Apply(w, e)) && InTree(w, g, p) && RootedAt(w, g, p) && w.table[p].ppid == e.pid
    ensures RootedAt(Apply(w, e), g, p)
  {
    var w' := Apply(w, e);
    assert w.table[e.pid].gen != g by {
      assert w.births[g].pid == guardian;
    }
    AdopterIsInTree(w, g, guardian, e.pid, e.reaper);
    assert p != e.pid && e.reaper != e.pid;
    assert w'.table[p].ppid == e.reaper && w'.table[p].gen == w.table[p].gen;
    assert w'.table[e.reaper].gen == w.table[e.reaper].gen && Live(w', e.reaper);
  }

  lemma ExitKeepsRooted(w: World, e: Event, g: nat, guardian: int, p: int)
    requires ValidWorld(w) && Enabled(w, e) && e.Exit? && Rooted(w, g) && Guards(w, g, guardian) && e.pid != guardian
    requires ValidWorld(Apply(w, e)) && InTree(Apply(w, e), g, p)
    ensures RootedAt(Apply(w, e), g, p)
  {
    var w' := Apply(w, e);
    assert w'.births == w.births && w'.table[p].gen == w.table[p].gen;
    assert InTree(w, g, p) && RootedAt(w, g, p);
    var parent := w.table[p].ppid;
    if parent == e.pid {
      OrphanIsRooted(w, e, g, guardian, p);
    } else {
      assert w'.table[p].ppid == parent && w'.table[parent].gen == w.table[parent].gen && Live(w', parent);
    }
  }

  /** Reaping, regrouping and becoming a reaper leave live parents where they are. */
  lemma OtherKeepsRooted(w: World, e: Event, g: nat, p: int)
    requires ValidWorld(w) && Enabled(w, e) && !e.Fork? && !e.Exit? && Rooted(w, g)
    requires ValidWorld(Apply(w, e)) && InTree(Apply(w, e), g, p)
    ensures RootedAt(Apply(w, e), g, p)
  {
    assert InTree(w, g, p) && RootedAt(w, g, p);
  }

  lemma EventKeepsGuards(w: World, e: Event, g: nat, guardian: int)
    requires ValidWorld(w) && Enabled(w, e) && Guards(w, g, guardian)
    requires !(e.Exit? && e.pid == guardian)
    ensures Guards(Apply(w, e), g, guardian)
  {
  }

  lemma EventKeepsRooted(w: World, e: Event, g: nat, guardian: int)
    requires ValidWorld(w) && Enabled(w, e) && Rooted(w, g) && Guards(w, g, guardian)
    requires !(e.Exit? && e.pid == guardian)
    ensures ValidWorld(Apply(w, e)) && Rooted(Apply(w, e), g) && Guards(Apply(w, e), g, guardian)
  {
    ApplyKeepsValid(w, e);
    EventKeepsGuards(w, e, g, guardian);
    forall p | InTree(Apply(w, e), g, p) ensures RootedAt(Apply(w, e), g, p) {
      if e.Fork? {
        ForkKeepsRooted(w, e, g, p);
      } else if e.Exit? {
        ExitKeepsRooted(w, e, g, guardian, p);
      } else {
        OtherKeepsRooted(w, e, g, p);
      }
    }
  }

  // ----- Discovery finds the whole tree -----

  ghost function LinuxTable(w: World): map<int, Row>
    requires ValidWorld(w)
  {
    map p | p in w.table :: Row(p, w.table[p].ppid, w.table[p].pgid, w.table[p].sid, TokenAt(w, p), 0, 0)
  }

  /** An atomic snapshot: the rows are one world, and the validator confirms the edges to live parents. */
  ghost predicate AtomicSnapshot(w: World, s: Snapshot)
    requires ValidWorld(w)
  {
    && s.table == LinuxTable(w)
    && forall p, q | p in s.table && q in s.table && s.table[p].ppid == q && Live(w, q) ::
         s.validates(s.table[p], s.table[q], Parent)
  }

  /** The guardian, a live subreaper over a rooted tree, takes an atomic snapshot. */
  ghost predicate Watches(w: World, g: nat, guardian: int, s: Snapshot) {
    ValidWorld(w) && Guards(w, g, guardian) && Rooted(w, g) && AtomicSnapshot(w, s)
  }

  /** The snapshot of a moment at which nothing happens: every lookup and probe sees that world. */
  ghost function SnapshotOf(w: World): Snapshot
    requires ValidWorld(w)
  {
    Snapshot(LinuxTable(w),
             (phase: Phase, pid: int) => if pid in w.table then Token(TokenAt(w, pid)) else NoProcess,
             (pid: int) => pid in w.table,
             (a: Row, b: Row, r: Relation) => true)
  }

  lemma LinuxTableRows(w: World, s: Snapshot)
    requires ValidWorld(w) && AtomicSnapshot(w, s)
    ensures LinuxRows(s)
  {
    forall p | p in s.table ensures s.table[p].startToken != "" {
      assert |s.table[p].startToken| > 0;
    }
  }

  lemma {:induction false} TreeIsDiscovered(w: World, s: Snapshot, h: Holdings, g: nat, guardian: int, p: int)
    requires ValidWorld(w) && AtomicSnapshot(w, s) && Rooted(w, g) && Guards(w, g, guardian) && InTree(w, g, p)
    ensures p in Discovered(s, h, Some(guardian))
    decreases w.table[p].gen
  {
    LinuxTableRows(w, s);
    SampledTable(s, h);
    var i := DiscoverySources(s, h, Some(guardian));
    var parent := w.table[p].ppid;
    if w.table[parent].gen == g {
      assert parent == guardian;
      assert GuardianChild(i, p);
      StartIsDerivable(i, p);
    } else {
      TreeIsDiscovered(w, s, h, g, guardian, parent);
      assert Edge(i, parent, p);
      EdgeIsDerivable(i, parent, p);
    }
  }

  // ----- When an empty refresh proves an empty tree -----

  ghost predicate EmptyProvesEmpty(w: World, g: nat, guardian: int, s: Snapshot, h: Holdings)
    requires Watches(w, g, guardian, s)
  {
    Refreshed(s, h, Some(guardian)) == map[] ==> TreeEmpty(w, g)
  }

  /** Nothing is tracked that could be the PID of a tree member. */
  predicate TracksNoMember(h: Holdings, guardian: int) {
    forall p | p in h.tracked :: p <= 0 || p == guardian
  }

  lemma UntrackedIsRefreshed(w: World, g: nat, guardian: int, s: Snapshot, h: Holdings, p: int)
    requires Watches(w, g, guardian, s) && InTree(w, g, p) && TracksNoMember(h, guardian)
    ensures p in Refreshed(s, h, Some(guardian))
  {
    DescendsIncreases(w.births, w.table[p].gen, g);
    LinuxTableRows(w, s);
    TreeIsDiscovered(w, s, h, g, guardian, p);
    SampledRefreshIff(s, h, Some(guardian), p);
  }

  /** The start time's token is not the one remembered for the PID, as a process or as a group. */
  predicate Forgotten(h: Holdings, p: int, ticks: nat) {
    (p in h.tracked ==> h.tracked[p] != StartToken(ticks)) && (p in h.groups ==> h.groups[p] != StartToken(ticks))
  }

  lemma FreshTicks(h: Holdings, p: int) returns (ticks: nat)
    ensures ticks > 0 && Forgotten(h, p, ticks)
  {
    if Forgotten(h, p, 1) {
      ticks := 1;
    } else if Forgotten(h, p, 2) {
      ticks := 2;
    } else {
      TokensDiffer(1, 2);
      TokensDiffer(1, 3);
      TokensDiffer(2, 3);
      ticks := 3;
    }
  }

  lemma TokensDiffer(a: nat, b: nat)
    requires a != b
    ensures StartToken(a) != StartToken(b)
  {
    if StartToken(a) == StartToken(b) {
      StartTokenInjective(a, b);
    }
  }

  /** A root process, the guardian below it as a subreaper, and one child of the guardian, each leading
      its own group. */
  function ChildWorld(root: int, guardian: int, p: int, ticks: (nat, nat, nat)): World {
    World(map[root := Proc(0, 0, root, root, 0, false), guardian := Proc(1, root, guardian, guardian, 1, false),
              p := Proc(2, guardian, p, p, 2, false)],
          [Birth(root, 0, ticks.0), Birth(guardian, 0, ticks.1), Birth(p, 1, ticks.2)], {1})
  }

  predicate DistinctPids(root: int, guardian: int, p: int) {
    root > 0 && guardian > 0 && p > 0 && root != guardian && root != p && guardian != p
  }

  lemma ChildWorldIsValid(root: int, guardian: int, p: int, ticks: (nat, nat, nat))
    requires DistinctPids(root, guardian, p)
    ensures ValidWorld(ChildWorld(root, guardian, p, ticks))
  {
  }

  lemma ChildWorldIsWatched(root: int, guardian: int, p: int, ticks: (nat, nat, nat))
    requires DistinctPids(root, guardian, p) && ValidWorld(ChildWorld(root, guardian, p, ticks))
    ensures var w := ChildWorld(root, guardian, p, ticks);
      Watches(w, 1, guardian, SnapshotOf(w)) && InTree(w, 1, p)
  {
    var w := ChildWorld(root, guardian, p, ticks);
    assert !Descends(w.births, 0, 1);
    assert !Descends(w.births, 1, 1);
    assert Descends(w.births, 2, 1);
    forall q | InTree(w, 1, q) ensures RootedAt(w, 1, q) {
      assert q == p;
    }
  }

  lemma ChildWorldRows(root: int, guardian: int, p: int, ticks: (nat, nat, nat), q: int)
    requires DistinctPids(root, guardian, p) && ValidWorld(ChildWorld(root, guardian, p, ticks))
    requires q in ChildWorld(root, guardian, p, ticks).table
    ensures var row := LinuxTable(ChildWorld(root, guardian, p, ticks))[q];
      row.pgid == q && row.ppid != p && (row.ppid == guardian ==> q == p)
  {
  }

  lemma ChildWorldTokens(root: int, guardian: int, p: int, ticks: (nat, nat, nat), h: Holdings, q: int)
    requires DistinctPids(root, guardian, p) && ValidWorld(ChildWorld(root, guardian, p, ticks))
    requires Forgotten(h, root, ticks.0) && Forgotten(h, guardian, ticks.1) && Forgotten(h, p, ticks.2)
    requires q in ChildWorld(root, guardian, p, ticks).table
    ensures var token := LinuxTable(ChildWorld(root, guardian, p, ticks))[q].startToken;
      (q in h.tracked ==> h.tracked[q] != token) && (q in h.groups ==> h.groups[q] != token)
  {
  }

  /** The child is all there is to discover, if no remembered token fits. */
  lemma ChildIsStranger(root: int, guardian: int, p: int, ticks: (nat, nat, nat), h: Holdings, w: World)
    requires w == ChildWorld(root, guardian, p, ticks) && DistinctPids(root, guardian, p) && ValidWorld(w)
    requires Forgotten(h, root, ticks.0) && Forgotten(h, guardian, ticks.1) && Forgotten(h, p, ticks.2)
    ensures OnlyStranger(SnapshotOf(w), h, guardian, p)
  {
    var s := SnapshotOf(w);
    LinuxTableRows(w, s);
    forall q | q in s.table
      ensures s.table[q].pgid == q && s.table[q].ppid != p && (s.table[q].ppid == guardian ==> q == p)
    {
      ChildWorldRows(root, guardian, p, ticks, q);
    }
    forall q | q in s.table
      ensures (q in h.tracked ==> h.tracked[q] != s.table[q].startToken)
           && (q in h.groups ==> h.groups[q] != s.table[q].startToken)
    {
      ChildWorldTokens(root, guardian, p, ticks, h, q);
    }
  }

  lemma StrangerWorld(h: Holdings, root: int, guardian: int, p: int) returns (w: World)
    requires DistinctPids(root, guardian, p)
    ensures ValidWorld(w) && Watches(w, 1, guardian, SnapshotOf(w)) && InTree(w, 1, p)
    ensures OnlyStranger(SnapshotOf(w), h, guardian, p)
  {
    var a := FreshTicks(h, root);
    var b := FreshTicks(h, guardian);
    var c := FreshTicks(h, p);
    ChildWorldIsValid(root, guardian, p, (a, b, c));
    ChildWorldIsWatched(root, guardian, p, (a, b, c));
    w := ChildWorld(root, guardian, p, (a, b, c));
    ChildIsStranger(root, guardian, p, (a, b, c), h, w);
  }

  /** The failing family: for every tracked PID that is not the guardian's, there is a world in which a child
      of the guardian has come to hold that PID. The refresh on a snapshot of it comes back empty,
      because the child's token is not the one still remembered for the PID. */
  lemma ReusedPidIsSkipped(h: Holdings, guardian: int, p: int) returns (w: World, g: nat)
    requires guardian > 0 && p > 0 && p != guardian && p in h.tracked
    ensures ValidWorld(w) && Watches(w, g, guardian, SnapshotOf(w)) && InTree(w, g, p)
    ensures Refreshed(SnapshotOf(w), h, Some(guardian)) == map[]
  {
    var root := if 1 !in {guardian, p} then 1 else if 2 !in {guardian, p} then 2 else 3;
    g := 1;
    w := StrangerWorld(h, root, guardian, p);
    StrangerIsSkipped(SnapshotOf(w), h, guardian, p);
  }

  /** An empty refresh proves an empty tree, in every world and on every atomic snapshot of it, exactly
      when nothing was tracked going in but possibly the guardian itself; this is why one empty refresh has
      to be confirmed by another. */
  lemma EmptyRefreshProvesEmptyIff(h: Holdings, guardian: int)
    requires guardian > 0
    ensures (forall w, g, s | Watches(w, g, guardian, s) :: EmptyProvesEmpty(w, g, guardian, s, h))
       <==> TracksNoMember(h, guardian)
  {
    if TracksNoMember(h, guardian) {
      forall w, g, s | Watches(w, g, guardian, s) ensures EmptyProvesEmpty(w, g, guardian, s, h) {
        NoMemberMissed(w, g, guardian, s, h);
      }
    } else {
      var p :| p in h.tracked && p > 0 && p != guardian;
      var w, g := ReusedPidIsSkipped(h, guardian, p);
      assert Watches(w, g, guardian, SnapshotOf(w)) && !EmptyProvesEmpty(w, g, guardian, SnapshotOf(w), h);
    }
  }

  lemma NoMemberMissed(w: World, g: nat, guardian: int, s: Snapshot, h: Holdings)
    requires Watches(w, g, guardian, s) && TracksNoMember(h, guardian)
    ensures EmptyProvesEmpty(w, g, guardian, s, h)
  {
    forall p | p in w.table && InTree(w, g, p) ensures p in Refreshed(s, h, Some(guardian)) {
      UntrackedIsRefreshed(w, g, guardian, s, h, p);
    }
  }

  /** A refresh that starts with nothing tracked and ends with nothing tracked has seen an empty tree. */
  lemma ConfirmedEmpty(w: World, s: Snapshot, h: Holdings, g: nat, guardian: int)
    requires Watches(w, g, guardian, s)
    requires h.tracked == map[] && Refreshed(s, h, Some(guardian)) == map[]
    ensures TreeEmpty(w, g)
  {
    EmptyRefreshProvesEmptyIff(h, guardian);
    assert EmptyProvesEmpty(w, g, guardian, s, h);
  }

  // ----- An empty tree stays empty -----

  ghost predicate Runs(ws: seq<World>, g: nat, guardian: int) {
    forall i | 0 <= i < |ws| :: Live(ws[i], guardian) && ws[i].table[guardian].gen == g
  }

  ghost predicate NoForkBy(w: World, w': World, g: nat) {
    forall k | |w.births| <= k < |w'.births| :: w'.births[k].parent != g
  }

  /** Along the path the guardian stays alive and forks nobody. */
  ghost predicate Quiet(ws: seq<World>, g: nat, guardian: int) {
    && Runs(ws, g, guardian)
    && (forall i | 0 <= i < |ws| - 1 :: NoForkBy(ws[i], ws[i + 1], g))
  }

  lemma EventKeepsEmpty(w: World, e: Event, g: nat)
    requires ValidWorld(w) && Enabled(w, e) && TreeEmpty(w, g) && g < |w.births|
    requires e.Fork? ==> w.table[e.parent].gen != g
    ensures ValidWorld(Apply(w, e)) && TreeEmpty(Apply(w, e), g)
  {
    ApplyKeepsValid(w, e);
    var w' := Apply(w, e);
    forall p | p in w'.table ensures !InTree(w', g, p) {
      if e.Fork? {
        if p == e.child {
          assert w'.births[w'.table[p].gen].parent == w.table[e.parent].gen;
          DescendsPrefix(w.births, w'.births, w.table[e.parent].gen, g);
          assert !InTree(w, g, e.parent);
        } else {
          DescendsPrefix(w.births, w'.births, w.table[p].gen, g);
          assert !InTree(w, g, p);
        }
      } else {
        assert !InTree(w, g, p);
      }
    }
  }

  lemma StepKeepsRooted(w: World, w': World, g: nat, guardian: int)
    requires Step(w, w') && Rooted(w, g) && Guards(w, g, guardian) && Live(w', guardian)
    ensures ValidWorld(w') && Rooted(w', g) && Guards(w', g, guardian)
    ensures TreeEmpty(w, g) && NoForkBy(w, w', g) ==> TreeEmpty(w', g)
  {
    var e :| Enabled(w, e) && w' == Apply(w, e);
    EventKeepsRooted(w, e, g, guardian);
    if TreeEmpty(w, g) && NoForkBy(w, w', g) {
      if e.Fork? {
        assert w'.births[|w.births|].parent == w.table[e.parent].gen;
      }
      EventKeepsEmpty(w, e, g);
    }
  }

  lemma {:induction false} RootedAlong(ws: seq<World>, g: nat, guardian: int, j: nat)
    requires Path(ws) && Runs(ws, g, guardian) && j < |ws|
    requires Rooted(ws[0], g) && Guards(ws[0], g, guardian)
    ensures ValidWorld(ws[j]) && Rooted(ws[j], g) && Guards(ws[j], g, guardian)
  {
    if j > 0 {
      RootedAlong(ws, g, guardian, j - 1);
      assert StepAt(ws, j - 1) && Live(ws[j], guardian);
      StepKeepsRooted(ws[j - 1], ws[j], g, guardian);
    }
  }

  /** In every run in which the guardian stays alive: every live process it gave rise to, through any
      chain of forks and orphanings, is in the set discovered from an atomic snapshot. */
  lemma ContainmentIsComplete(ws: seq<World>, g: nat, guardian: int, j: nat, s: Snapshot, h: Holdings, p: int)
    requires Path(ws) && Runs(ws, g, guardian) && Guards(ws[0], g, guardian) && TreeEmpty(ws[0], g)
    requires j < |ws| && ValidWorld(ws[j]) && AtomicSnapshot(ws[j], s) && InTree(ws[j], g, p)
    ensures p in Discovered(s, h, Some(guardian))
  {
    RootedAlong(ws, g, guardian, j);
    TreeIsDiscovered(ws[j], s, h, g, guardian, p);
  }

  /** Once the tree is empty it stays empty, as long as the guardian forks nobody. */
  lemma {:induction false} EmptyForever(ws: seq<World>, g: nat, guardian: int, j: nat)
    requires Path(ws) && Quiet(ws, g, guardian) && j < |ws|
    requires Rooted(ws[0], g) && Guards(ws[0], g, guardian) && TreeEmpty(ws[0], g)
    ensures ValidWorld(ws[j]) && TreeEmpty(ws[j], g)
  {
    if j > 0 {
      EmptyForever(ws, g, guardian, j - 1);
      RootedAlong(ws, g, guardian, j - 1);
      assert StepAt(ws, j - 1) && Live(ws[j], guardian) && NoForkBy(ws[j - 1], ws[j], g);
      StepKeepsRooted(ws[j - 1], ws[j], g, guardian);
    }
  }
}
