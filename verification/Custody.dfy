/** The dual of completeness: what the guardian tracks, and may therefore signal, belongs to it. */
module Custody {
  import opened PyText
  import opened Processes
  import opened Ownership
  import opened Refresh
  import opened Containment
  import opened Signal

  // ----- Parents are ancestors -----

  /** Every process has the root for a parent, or a live process it descends from. */
  ghost predicate Lineage(w: World)
    requires ValidWorld(w)
  {
    forall p | p in w.table :: LineageAt(w, p)
  }

  ghost predicate LineageAt(w: World, p: int)
    requires ValidWorld(w) && p in w.table
  {
    var parent := w.table[p].ppid;
    parent <= 0 || (Live(w, parent) && Descends(w.births, w.table[p].gen, w.table[parent].gen))
  }

  lemma ForkKeepsLineage(w: World, e: Event, p: int)
    requires ValidWorld(w) && Enabled(w, e) && e.Fork? && Lineage(w)
    requires ValidWorld(Apply(w, e)) && p in Apply(w, e).table
    ensures LineageAt(Apply(w, e), p)
  {
    var w' := Apply(w, e);
    if p != e.child {
      assert LineageAt(w, p);
      if w.table[p].ppid > 0 {
        DescendsPrefix(w.births, w'.births, w.table[p].gen, w.table[w.table[p].ppid].gen);
      }
    }
  }

  lemma OrphanKeepsLineage(w: World, e: Event, p: int)
    requires ValidWorld(w) && Enabled(w, e) && e.Exit? && ValidWorld(Apply(w, e))
    requires p in w.table && LineageAt(w, p) && w.table[p].ppid == e.pid && p != e.pid
    ensures LineageAt(Apply(w, e), p)
  {
    var w' := Apply(w, e);
    DescendsIncreases(w.births, w.table[e.pid].gen, w.table[e.reaper].gen);
    DescendsTransitive(w.births, w.table[p].gen, w.table[e.pid].gen, w.table[e.reaper].gen);
    assert w'.table[p].ppid == e.reaper && w'.table[p].gen == w.table[p].gen;
    assert w'.table[e.reaper].gen == w.table[e.reaper].gen && Live(w', e.reaper);
  }

  lemma ExitKeepsLineage(w: World, e: Event, p: int)
    requires ValidWorld(w) && Enabled(w, e) && e.Exit? && Lineage(w)
    requires ValidWorld(Apply(w, e)) && p in Apply(w, e).table
    ensures LineageAt(Apply(w, e), p)
  {
    var w', parent := Apply(w, e), w.table[p].ppid;
    assert LineageAt(w, p);
    if parent > 0 {
      SelfIsNoParent(w, p);
      if parent == e.pid {
        OrphanKeepsLineage(w, e, p);
      } else {
        assert w'.table[p].ppid == parent && w'.table[p].gen == w.table[p].gen;
        assert w'.table[parent].gen == w.table[parent].gen && Live(w', parent);
      }
    }
  }

  lemma SelfIsNoParent(w: World, p: int)
    requires ValidWorld(w) && p in w.table && w.table[p].ppid > 0 && LineageAt(w, p)
    ensures w.table[p].ppid != p
  {
    DescendsIncreases(w.births, w.table[p].gen, w.table[w.table[p].ppid].gen);
  }

  lemma OtherKeepsLineage(w: World, e: Event, p: int)
    requires ValidWorld(w) && Enabled(w, e) && !e.Fork? && !e.Exit? && Lineage(w)
    requires ValidWorld(Apply(w, e)) && p in Apply(w, e).table
    ensures LineageAt(Apply(w, e), p)
  {
    var w' := Apply(w, e);
    assert LineageAt(w, p);
    var parent := w.table[p].ppid;
    assert w'.births == w.births && w'.table[p].ppid == parent && w'.table[p].gen == w.table[p].gen;
    if parent > 0 {
      assert Live(w', parent) && w'.table[parent].gen == w.table[parent].gen;
    }
  }

  lemma StepKeepsLineage(w: World, w': World)
    requires Step(w, w') && Lineage(w)
    ensures ValidWorld(w') && Lineage(w')
  {
    var e :| Enabled(w, e) && w' == Apply(w, e);
    ApplyKeepsValid(w, e);
    forall p | p in w'.table ensures LineageAt(w', p) {
      if e.Fork? {
        ForkKeepsLineage(w, e, p);
      } else if e.Exit? {
        ExitKeepsLineage(w, e, p);
      } else {
        OtherKeepsLineage(w, e, p);
      }
    }
  }

  lemma {:induction false} LineageAlong(ws: seq<World>, j: nat)
    requires Path(ws) && Lineage(ws[0]) && j < |ws|
    ensures ValidWorld(ws[j]) && Lineage(ws[j])
  {
    if j > 0 {
      LineageAlong(ws, j - 1);
      assert StepAt(ws, j - 1);
      StepKeepsLineage(ws[j - 1], ws[j]);
    }
  }

  // ----- What the guardian holds -----

  /** The PID and the token name a generation that descends from the guardian, dead or alive. */
  ghost predicate NamesMember(w: World, g: nat, pid: int, token: string)
    requires ValidWorld(w)
  {
    exists gen: nat :: gen < |w.births| && Names(w, gen, pid, token) && Descends(w.births, gen, g)
  }

  predicate Names(w: World, gen: nat, pid: int, token: string)
    requires gen < |w.births|
  {
    w.births[gen].pid == pid && StartToken(w.births[gen].ticks) == token
  }

  ghost predicate HoldsMembers(w: World, g: nat, held: map<int, string>)
    requires ValidWorld(w)
  {
    forall p | p in held :: NamesMember(w, g, p, held[p])
  }

  /** Nobody from outside the tree is in a group that a tree member leads. */
  ghost predicate NoOutsider(w: World, g: nat)
    requires ValidWorld(w)
  {
    forall p | p in w.table && InTree(w, g, w.table[p].pgid) && w.table[w.table[p].pgid].pgid == w.table[p].pgid ::
      InTree(w, g, p)
  }

  /** A PID read under a token that names a member is held by a member. */
  lemma NamedIsMember(w: World, g: nat, p: int)
    requires ValidWorld(w) && p in w.table && NamesMember(w, g, p, TokenAt(w, p))
    ensures InTree(w, g, p)
  {
    var gen: nat :| gen < |w.births| && Names(w, gen, p, TokenAt(w, p)) && Descends(w.births, gen, g);
    TokenNamesGeneration(w.births, gen, w.table[p].gen);
  }

  lemma MemberIsNamed(w: World, g: nat, p: int)
    requires ValidWorld(w) && InTree(w, g, p)
    ensures NamesMember(w, g, p, TokenAt(w, p))
  {
    assert Names(w, w.table[p].gen, p, TokenAt(w, p));
  }

  lemma NamesMemberLater(w: World, w': World, g: nat, p: int, token: string)
    requires ValidWorld(w) && ValidWorld(w') && w.births <= w'.births && NamesMember(w, g, p, token)
    ensures NamesMember(w', g, p, token)
  {
    var gen: nat :| gen < |w.births| && Names(w, gen, p, token) && Descends(w.births, gen, g);
    DescendsPrefix(w.births, w'.births, gen, g);
    assert Names(w', gen, p, token);
  }

  // ----- Discovery finds nobody else -----

  /** What a refresh relies on: the guardian's world, and holdings that name members only. */
  ghost predicate Keeps(w: World, g: nat, guardian: int, s: Snapshot, h: Holdings) {
    && Watches(w, g, guardian, s) && Lineage(w) && NoOutsider(w, g)
    && HoldsMembers(w, g, h.tracked) && HoldsMembers(w, g, h.groups)
  }

  ghost function Members(w: World, g: nat): set<int>
    requires ValidWorld(w)
  {
    set p | p in w.table && InTree(w, g, p)
  }

  /** The three ways in which a process is owned from the start lead to members only. */
  lemma StartIsMember(w: World, g: nat, guardian: int, s: Snapshot, h: Holdings, p: int)
    requires Keeps(w, g, guardian, s, h) && p in w.table
    ensures p in h.tracked && h.tracked[p] == TokenAt(w, p) ==> InTree(w, g, p)
    ensures w.table[p].ppid == guardian ==> InTree(w, g, p)
    ensures var q := w.table[p].pgid;
      q in h.groups && q in w.table && w.table[q].pgid == q && h.groups[q] == TokenAt(w, q) ==> InTree(w, g, p)
  {
    var q := w.table[p].pgid;
    if p in h.tracked && h.tracked[p] == TokenAt(w, p) {
      NamedIsMember(w, g, p);
    }
    if w.table[p].ppid == guardian {
      assert LineageAt(w, p);
    }
    if q in h.groups && q in w.table && h.groups[q] == TokenAt(w, q) {
      NamedIsMember(w, g, q);
    }
  }

  /** Children of a member, and processes in the group it leads, are members. */
  lemma EdgeIsMember(w: World, g: nat, q: int, p: int)
    requires ValidWorld(w) && Lineage(w) && NoOutsider(w, g) && InTree(w, g, q) && p in w.table
    requires w.table[p].ppid == q || (w.table[p].pgid == q && w.table[q].pgid == q)
    ensures InTree(w, g, p)
  {
    if w.table[p].ppid == q {
      assert LineageAt(w, p);
      DescendsTransitive(w.births, w.table[p].gen, w.table[q].gen, g);
    }
  }

  lemma StartsAtMembers(w: World, g: nat, guardian: int, s: Snapshot, h: Holdings, p: int)
    requires Keeps(w, g, guardian, s, h)
    ensures Start(DiscoverySources(s, h, Some(guardian)), p) ==> p in Members(w, g)
  {
    if Start(DiscoverySources(s, h, Some(guardian)), p) {
      LinuxTableRows(w, s);
      LinuxStart(s, h, guardian, p);
      StartIsMember(w, g, guardian, s, h, p);
    }
  }

  lemma SpreadsToMembers(w: World, g: nat, guardian: int, s: Snapshot, h: Holdings, q: int, p: int)
    requires Keeps(w, g, guardian, s, h)
    ensures q in Members(w, g) && Edge(DiscoverySources(s, h, Some(guardian)), q, p) ==> p in Members(w, g)
  {
    if q in Members(w, g) && Edge(DiscoverySources(s, h, Some(guardian)), q, p) {
      LinuxTableRows(w, s);
      LinuxEdge(s, h, guardian, q, p);
      EdgeIsMember(w, g, q, p);
    }
  }

  lemma DiscoveredIsMember(w: World, g: nat, guardian: int, s: Snapshot, h: Holdings)
    requires Keeps(w, g, guardian, s, h)
    ensures Discovered(s, h, Some(guardian)) <= Members(w, g)
  {
    var i, members := DiscoverySources(s, h, Some(guardian)), Members(w, g);
    forall p | p in i.table && Start(i, p) ensures p in members {
      StartsAtMembers(w, g, guardian, s, h, p);
    }
    forall q, p | q in members && Edge(i, q, p) ensures p in members {
      SpreadsToMembers(w, g, guardian, s, h, q, p);
    }
    DerivableIsLeast(i, members);
  }

  /** Soundness and completeness in one: on an atomic snapshot, discovery finds exactly the tree. */
  lemma DiscoveredIsTree(w: World, g: nat, guardian: int, s: Snapshot, h: Holdings)
    requires Keeps(w, g, guardian, s, h)
    ensures Discovered(s, h, Some(guardian)) == Members(w, g)
  {
    DiscoveredIsMember(w, g, guardian, s, h);
    forall p | p in Members(w, g) ensures p in Discovered(s, h, Some(guardian)) {
      TreeIsDiscovered(w, s, h, g, guardian, p);
    }
  }

  /** The premises can be met, and by a tree that is not empty: a guardian with one child, before anything
      is tracked. Discovery finds that child. */
  lemma ChildIsDiscovered(root: int, guardian: int, p: int, ticks: (nat, nat, nat)) returns (w: World, h: Holdings)
    requires DistinctPids(root, guardian, p)
    ensures ValidWorld(w) && Keeps(w, 1, guardian, SnapshotOf(w), h)
    ensures p in Discovered(SnapshotOf(w), h, Some(guardian))
  {
    w, h := ChildWorld(root, guardian, p, ticks), Holdings(map[], map[], {});
    ChildWorldIsValid(root, guardian, p, ticks);
    ChildWorldIsWatched(root, guardian, p, ticks);
    ChildWorldLineage(root, guardian, p, ticks);
    TreeIsDiscovered(w, SnapshotOf(w), h, 1, guardian, p);
  }

  lemma ChildWorldLineage(root: int, guardian: int, p: int, ticks: (nat, nat, nat))
    requires DistinctPids(root, guardian, p) && ValidWorld(ChildWorld(root, guardian, p, ticks))
    ensures var w := ChildWorld(root, guardian, p, ticks);
      Lineage(w) && NoOutsider(w, 1)
  {
    var w := ChildWorld(root, guardian, p, ticks);
    assert Descends(w.births, 1, 0);
    assert Descends(w.births, 2, 1);
    forall q | q in w.table ensures LineageAt(w, q) && w.table[q].pgid == q {
      assert q == root || q == guardian || q == p;
    }
  }

  // ----- A refresh keeps the guardian's holdings its own -----

  lemma RefreshedIsMember(w: World, g: nat, guardian: int, s: Snapshot, h: Holdings, p: int)
    requires Keeps(w, g, guardian, s, h)
    ensures p in Refreshed(s, h, Some(guardian)) ==>
      NamesMember(w, g, p, Refreshed(s, h, Some(guardian))[p]) && (p in w.table ==> InTree(w, g, p))
  {
    LinuxTableRows(w, s);
    SampledRefreshIff(s, h, Some(guardian), p);
    if p !in Refreshed(s, h, Some(guardian)) {
      return;
    }
    if p in s.table {
      DiscoveredIsMember(w, g, guardian, s, h);
      if p !in Members(w, g) {
        assert h.tracked[p] == TokenAt(w, p);
        NamedIsMember(w, g, p);
      }
      MemberIsNamed(w, g, p);
    } else {
      MissingKeepsToken(s, h, Some(guardian), p);
    }
  }

  lemma RefreshedGroupIsMember(w: World, g: nat, guardian: int, s: Snapshot, h: Holdings, p: int)
    requires Keeps(w, g, guardian, s, h)
    ensures p in RefreshedGroups(s, h, Some(guardian)) ==>
      NamesMember(w, g, p, RefreshedGroups(s, h, Some(guardian))[p])
  {
    if p !in RefreshedGroups(s, h, Some(guardian)) {
      return;
    }
    LinuxTableRows(w, s);
    GroupTokenIsSampled(s, h, Some(guardian), p);
    if p in Discovered(s, h, Some(guardian)) {
      DiscoveredIsMember(w, g, guardian, s, h);
      MemberIsNamed(w, g, p);
    }
  }

  lemma RefreshKeepsHoldings(w: World, g: nat, guardian: int, s: Snapshot, h: Holdings)
    requires Keeps(w, g, guardian, s, h)
    ensures HoldsMembers(w, g, Refreshed(s, h, Some(guardian)))
    ensures HoldsMembers(w, g, RefreshedGroups(s, h, Some(guardian)))
  {
    forall p | p in Refreshed(s, h, Some(guardian)) ensures NamesMember(w, g, p, Refreshed(s, h, Some(guardian))[p]) {
      RefreshedIsMember(w, g, guardian, s, h, p);
    }
    forall p | p in RefreshedGroups(s, h, Some(guardian))
      ensures NamesMember(w, g, p, RefreshedGroups(s, h, Some(guardian))[p])
    {
      RefreshedGroupIsMember(w, g, guardian, s, h, p);
    }
  }

  // ----- Runs -----

  datatype State = State(world: World, held: Holdings)

  /** The processes move on, the guardian refreshes on an atomic snapshot, or it consumes a registration. */
  datatype Action =
    | Os(path: seq<World>)
    | RefreshOn(snapshot: Snapshot)
    | Register(pid: int, token: string)

  /** Groups led by members stay free of outsiders, and registrations name members: their sender is one. */
  ghost predicate Next(g: nat, guardian: int, s: State, a: Action, s': State)
  {
    match a
    case Os(path) =>
      && Path(path) && path[0] == s.world && path[|path| - 1] == s'.world
      && Runs(path, g, guardian) && s'.held == s.held
    case RefreshOn(snapshot) =>
      && s'.world == s.world && ValidWorld(s.world) && AtomicSnapshot(s.world, snapshot) && NoOutsider(s.world, g)
      && s'.held == Holdings(Refreshed(snapshot, s.held, Some(guardian)),
                             RefreshedGroups(snapshot, s.held, Some(guardian)),
                             GrownIds(snapshot, s.held, Some(guardian)))
    case Register(pid, token) =>
      && s'.world == s.world && ValidWorld(s.world) && NamesMember(s.world, g, pid, token)
      && s'.held == s.held.(tracked := s.held.tracked[pid := token])
  }

  ghost predicate Inv(g: nat, guardian: int, s: State) {
    && ValidWorld(s.world) && Guards(s.world, g, guardian) && Rooted(s.world, g) && Lineage(s.world)
    && HoldsMembers(s.world, g, s.held.tracked) && HoldsMembers(s.world, g, s.held.groups)
  }

  ghost predicate Run(g: nat, guardian: int, ss: seq<State>, acts: seq<Action>) {
    && |ss| == |acts| + 1 && Inv(g, guardian, ss[0])
    && forall i | 0 <= i < |acts| :: TakenAt(g, guardian, ss, acts, i)
  }

  ghost predicate TakenAt(g: nat, guardian: int, ss: seq<State>, acts: seq<Action>, i: int)
    requires 0 <= i < |acts| && |ss| == |acts| + 1
  {
    Next(g, guardian, ss[i], acts[i], ss[i + 1])
  }

  lemma HeldLater(ws: seq<World>, j: nat, g: nat, held: map<int, string>)
    requires Path(ws) && j < |ws| && HoldsMembers(ws[0], g, held)
    ensures ValidWorld(ws[j]) && HoldsMembers(ws[j], g, held)
  {
    PathValid(ws, 0, j);
    forall p | p in held ensures NamesMember(ws[j], g, p, held[p]) {
      NamesMemberLater(ws[0], ws[j], g, p, held[p]);
    }
  }

  lemma NextKeepsInv(g: nat, guardian: int, s: State, a: Action, s': State)
    requires Inv(g, guardian, s) && Next(g, guardian, s, a, s')
    ensures Inv(g, guardian, s')
  {
    match a
    case Os(path) =>
      var last := |path| - 1;
      LineageAlong(path, last);
      RootedAlong(path, g, guardian, last);
      HeldLater(path, last, g, s.held.tracked);
      HeldLater(path, last, g, s.held.groups);
    case RefreshOn(snapshot) => RefreshKeepsHoldings(s.world, g, guardian, snapshot, s.held);
    case Register(_, _) =>
  }

  lemma {:induction false} RunKeepsInv(g: nat, guardian: int, ss: seq<State>, acts: seq<Action>, i: nat)
    requires Run(g, guardian, ss, acts) && i < |ss|
    ensures Inv(g, guardian, ss[i])
  {
    if i > 0 {
      RunKeepsInv(g, guardian, ss, acts, i - 1);
      assert TakenAt(g, guardian, ss, acts, i - 1);
      NextKeepsInv(g, guardian, ss[i - 1], acts[i - 1], ss[i]);
    }
  }

  /** In every run, at every moment: a refresh discovers exactly the guardian's tree, and each tracked PID
      it leaves is held by a tree member or by nobody. */
  lemma OnlyMembersTracked(g: nat, guardian: int, ss: seq<State>, acts: seq<Action>, i: nat, p: int)
    requires Run(g, guardian, ss, acts) && i < |acts| && acts[i].RefreshOn?
    requires ValidWorld(ss[i].world)
    ensures Discovered(acts[i].snapshot, ss[i].held, Some(guardian)) == Members(ss[i].world, g)
    ensures p in ss[i + 1].held.tracked && p in ss[i].world.table ==> InTree(ss[i].world, g, p)
  {
    RunKeepsInv(g, guardian, ss, acts, i);
    assert TakenAt(g, guardian, ss, acts, i);
    DiscoveredIsTree(ss[i].world, g, guardian, acts[i].snapshot, ss[i].held);
    if p in ss[i + 1].held.tracked {
      RefreshedIsMember(ss[i].world, g, guardian, acts[i].snapshot, ss[i].held, p);
    }
  }

  /** Whoever a tracked PID and token let a signal reach is a member. */
  lemma SignalledIsMember(ws: seq<World>, g: nat, pid: int, token: string, open: nat, read: nat, send: nat)
    requires Path(ws) && open <= read <= send < |ws| && ValidWorld(ws[read]) && NamesMember(ws[0], g, pid, token)
    requires Signalled(ws, pid, token, open, read, send).Some?
    ensures ValidWorld(ws[send])
    ensures Descends(ws[send].births, Signalled(ws, pid, token, open, read, send).value, g)
  {
    var gen := Signalled(ws, pid, token, open, read, send).value;
    PathValid(ws, 0, open);
    PathValid(ws, 0, read);
    PathValid(ws, read, send);
    HoldsBetween(ws, open, read, send, pid, gen);
    NamesMemberLater(ws[0], ws[read], g, pid, token);
    NamedIsMember(ws[read], g, pid);
    DescendsPrefix(ws[read].births, ws[send].births, gen, g);
  }

  /** The guardian never kills a stranger: at any point of any run, a signal for any tracked process, sent
      while processes go on exiting and PIDs being reused, reaches a generation that descends from the
      guardian, or nobody. */
  lemma NeverKillsStranger(g: nat, guardian: int, ss: seq<State>, acts: seq<Action>, i: nat,
                           ws: seq<World>, pid: int, open: nat, read: nat, send: nat)
    requires Run(g, guardian, ss, acts) && i < |ss| && pid in ss[i].held.tracked
    requires Path(ws) && ws[0] == ss[i].world && open <= read <= send < |ws|
             && ValidWorld(ws[read]) && ValidWorld(ws[send])
    ensures var hit := Signalled(ws, pid, ss[i].held.tracked[pid], open, read, send);
      hit.Some? ==> Descends(ws[send].births, hit.value, g)
  {
    RunKeepsInv(g, guardian, ss, acts, i);
    if Signalled(ws, pid, ss[i].held.tracked[pid], open, read, send).Some? {
      SignalledIsMember(ws, g, pid, ss[i].held.tracked[pid], open, read, send);
    }
  }
}
