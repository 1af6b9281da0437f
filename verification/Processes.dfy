/** The operating system as the guardian meets it: numeric PIDs that are reused, held over time by
    distinct process generations, with forking, exit, orphan reparenting and reaping. */
module Processes {
  import opened PyText

  /** A generation is its index in `World.births`; births are never forgotten. */
  datatype Birth = Birth(pid: int, parent: nat, ticks: nat)

  /** `group` is the generation that created the process's group. */
  datatype Proc = Proc(gen: nat, ppid: int, pgid: int, sid: int, group: nat, zombie: bool)

  /** `reapers` holds the generations that asked to be child subreapers. */
  datatype World = World(table: map<int, Proc>, births: seq<Birth>, reapers: set<nat>)

  datatype Event =
    | Fork(parent: int, child: int, ticks: nat)
    | Exit(pid: int, reaper: int)
    | Reap(pid: int)
    | SetGroup(pid: int, pgid: int, sid: int, member: int)
    | BecomeReaper(pid: int)

  // ----- Lineage -----

  ghost predicate ValidBirths(births: seq<Birth>) {
    && (forall g | 0 < g < |births| :: births[g].parent < g)
    // Start tokens differ between generations of one PID.
    && (forall g, h | 0 <= g < h < |births| && births[g].pid == births[h].pid :: births[g].ticks != births[h].ticks)
  }

  /** Generation `g` was forked, directly or through others, by generation `a`. */
  ghost predicate Descends(births: seq<Birth>, g: nat, a: nat)
    requires ValidBirths(births)
    decreases g
  {
    0 < g < |births| && (births[g].parent == a || Descends(births, births[g].parent, a))
  }

  ghost predicate ValidWorld(w: World) {
    && ValidBirths(w.births)
    && (forall p | p in w.table :: p > 0 && w.table[p].gen < |w.births| && w.births[w.table[p].gen].pid == p)
  }

  predicate Live(w: World, pid: int) {
    pid in w.table && !w.table[pid].zombie
  }

  /** The generation holds no PID any more, or only as a zombie. */
  predicate Gone(w: World, gen: nat) {
    forall p | p in w.table :: w.table[p].gen == gen ==> w.table[p].zombie
  }

  function StartToken(ticks: nat): string {
    "linux-start-ticks:" + Decimal(ticks)
  }

  /** The start token of the generation now holding `pid`. */
  function TokenAt(w: World, pid: int): string
    requires pid in w.table && w.table[pid].gen < |w.births|
  {
    StartToken(w.births[w.table[pid].gen].ticks)
  }

  // ----- Steps -----

  /** The process that inherits the orphans of `pid`: an ancestor, and never above a live
      subreaper that `pid` descends from. */
  ghost predicate MayAdopt(w: World, pid: int, reaper: int)
    requires ValidWorld(w) && pid in w.table
  {
    && Live(w, reaper)
    && Descends(w.births, w.table[pid].gen, w.table[reaper].gen)
    && (forall q | q in w.table && w.table[q].gen in w.reapers && !w.table[q].zombie
          && Descends(w.births, w.table[pid].gen, w.table[q].gen) ::
          w.table[reaper].gen == w.table[q].gen || Descends(w.births, w.table[reaper].gen, w.table[q].gen))
  }

  ghost predicate Enabled(w: World, e: Event)
    requires ValidWorld(w)
  {
    match e
    case Fork(parent, child, ticks) =>
      // A PID is not reused while it is held or while it names a process group.
      && Live(w, parent) && child > 0 && child !in w.table && (forall q | q in w.table :: w.table[q].pgid != child)
      && (forall g | 0 <= g < |w.births| && w.births[g].pid == child :: w.births[g].ticks != ticks)
    case Exit(pid, reaper) => Live(w, pid) && MayAdopt(w, pid, reaper)
    case Reap(pid) => pid in w.table && w.table[pid].zombie
    // A process makes a group of its own or joins one that `member` is in.
    case SetGroup(pid, pgid, sid, member) =>
      Live(w, pid) && (pgid == pid || (member in w.table && w.table[member].pgid == pgid))
    case BecomeReaper(pid) => Live(w, pid)
  }

  function Orphaned(proc: Proc, self: int, pid: int, reaper: int): Proc {
    if self == pid then proc.(zombie := true)
    else if proc.ppid == pid then proc.(ppid := reaper)
    else proc
  }

  ghost function Apply(w: World, e: Event): World
    requires ValidWorld(w) && Enabled(w, e)
  {
    match e
    case Fork(parent, child, ticks) =>
      var p := w.table[parent];
      World(w.table[child := Proc(|w.births|, parent, p.pgid, p.sid, p.group, false)],
            w.births + [Birth(child, p.gen, ticks)], w.reapers)
    case Exit(pid, reaper) =>
      w.(table := map q | q in w.table :: Orphaned(w.table[q], q, pid, reaper))
    case Reap(pid) =>
      w.(table := map q | q in w.table && q != pid :: w.table[q])
    case SetGroup(pid, pgid, sid, member) =>
      var group := if pgid == pid then w.table[pid].gen else w.table[member].group;
      w.(table := w.table[pid := w.table[pid].(pgid := pgid, sid := sid, group := group)])
    case BecomeReaper(pid) =>
      w.(reapers := w.reapers + {w.table[pid].gen})
  }

  ghost predicate Step(w: World, w': World) {
    ValidWorld(w) && exists e :: Enabled(w, e) && w' == Apply(w, e)
  }

  lemma ForkKeepsValid(w: World, e: Event)
    requires ValidWorld(w) && Enabled(w, e) && e.Fork?
    ensures ValidWorld(Apply(w, e)) && w.births <= Apply(w, e).births
  {
    var w' := Apply(w, e);
    forall g, h | 0 <= g < h < |w'.births| && w'.births[g].pid == w'.births[h].pid
      ensures w'.births[g].ticks != w'.births[h].ticks
    {
      assert w'.births[g] == w.births[g];
    }
  }

  lemma ApplyKeepsValid(w: World, e: Event)
    requires ValidWorld(w) && Enabled(w, e)
    ensures ValidWorld(Apply(w, e))
    ensures w.births <= Apply(w, e).births
  {
    if e.Fork? {
      ForkKeepsValid(w, e);
    } else {
      assert Apply(w, e).births == w.births;
    }
  }

  /** A run of the operating system: consecutive worlds one event apart. */
  ghost predicate Path(ws: seq<World>) {
    && |ws| > 0 && ValidWorld(ws[0])
    && forall i | 0 <= i < |ws| - 1 :: StepAt(ws, i)
  }

  ghost predicate StepAt(ws: seq<World>, i: int)
    requires 0 <= i < |ws| - 1
  {
    Step(ws[i], ws[i + 1])
  }

  lemma {:induction false} PathValid(ws: seq<World>, i: nat, j: nat)
    requires Path(ws) && i <= j < |ws|
    ensures ValidWorld(ws[i]) && ValidWorld(ws[j]) && ws[i].births <= ws[j].births
    decreases j
  {
    if j > 0 {
      PathValid(ws, if i == j then i - 1 else i, j - 1);
      assert StepAt(ws, j - 1);
      StepKeepsValid(ws[j - 1], ws[j]);
    }
  }

  lemma StepKeepsValid(w: World, w': World)
    requires Step(w, w')
    ensures ValidWorld(w') && w.births <= w'.births
  {
    var e :| Enabled(w, e) && w' == Apply(w, e);
    ApplyKeepsValid(w, e);
  }

  /** The rest of a path is a path, and a path may go on where another one ends. */
  lemma JoinPaths(a: seq<World>, m: nat, b: seq<World>) returns (ws: seq<World>)
    requires Path(a) && m < |a| && Path(b) && a[|a| - 1] == b[0]
    ensures Path(ws) && ws[0] == a[m] && ws[|ws| - 1] == b[|b| - 1]
  {
    ws := a[m..] + b[1..];
    PathValid(a, 0, m);
    forall i | 0 <= i < |ws| - 1 ensures StepAt(ws, i) {
      if i < |a| - m - 1 {
        assert StepAt(a, m + i);
      } else {
        var k := i - (|a| - m - 1);
        assert StepAt(b, k);
        assert ws[i] == b[k] && ws[i + 1] == b[k + 1];
      }
    }
  }

  // ----- What PID reuse cannot undo -----

  lemma EventKeepsGone(w: World, e: Event, gen: nat)
    requires ValidWorld(w) && Enabled(w, e) && gen < |w.births| && Gone(w, gen)
    ensures Gone(Apply(w, e), gen)
  {
  }

  lemma EventKeepsHolder(w: World, e: Event, pid: int, gen: nat)
    requires ValidWorld(w) && Enabled(w, e) && gen < |w.births|
    requires pid in Apply(w, e).table && Apply(w, e).table[pid].gen == gen
    ensures pid in w.table && w.table[pid].gen == gen
  {
  }

  lemma StepKeepsGone(w: World, w': World, gen: nat)
    requires Step(w, w') && gen < |w.births| && Gone(w, gen)
    ensures Gone(w', gen) && gen < |w'.births|
  {
    var e :| Enabled(w, e) && w' == Apply(w, e);
    EventKeepsGone(w, e, gen);
    ApplyKeepsValid(w, e);
  }

  lemma StepKeepsHolder(w: World, w': World, pid: int, gen: nat)
    requires Step(w, w') && gen < |w.births| && pid in w'.table && w'.table[pid].gen == gen
    ensures pid in w.table && w.table[pid].gen == gen
  {
    var e :| Enabled(w, e) && w' == Apply(w, e);
    EventKeepsHolder(w, e, pid, gen);
  }

  /** A generation that is gone stays gone. */
  lemma {:induction false} GoneForever(ws: seq<World>, i: nat, j: nat, gen: nat)
    requires Path(ws) && i <= j < |ws| && gen < |ws[i].births| && Gone(ws[i], gen)
    ensures Gone(ws[j], gen)
    decreases j - i
  {
    if i < j {
      assert StepAt(ws, i);
      StepKeepsGone(ws[i], ws[i + 1], gen);
      GoneForever(ws, i + 1, j, gen);
    }
  }

  /** A generation that holds its PID at two moments held it throughout. */
  lemma {:induction false} HoldsBetween(ws: seq<World>, i: nat, m: nat, j: nat, pid: int, gen: nat)
    requires Path(ws) && i <= m <= j < |ws|
    requires gen < |ws[i].births| && pid in ws[j].table && ws[j].table[pid].gen == gen
    ensures pid in ws[m].table && ws[m].table[pid].gen == gen
    decreases j - m
  {
    if m < j {
      HoldsBetween(ws, i, m + 1, j, pid, gen);
      PathValid(ws, i, m);
      assert StepAt(ws, m);
      StepKeepsHolder(ws[m], ws[m + 1], pid, gen);
    }
  }

  // ----- Process groups -----

  /** Nobody is in the group that generation `gen` created, not even as a zombie. */
  predicate GroupGone(w: World, gen: nat) {
    forall p | p in w.table :: w.table[p].group != gen
  }

  /** A group bears the PID of the generation that created it, and nobody has been given that PID since; and a
      PID is held by the last generation that was given it. */
  ghost predicate Grouped(w: World) {
    forall p | p in w.table :: GroupedAt(w, p)
  }

  ghost predicate GroupedAt(w: World, p: int)
    requires p in w.table
  {
    var gen, group := w.table[p].gen, w.table[p].group;
    && group < |w.births| && w.births[group].pid == w.table[p].pgid
    && (forall h | group < h < |w.births| :: w.births[h].pid != w.table[p].pgid)
    && (forall h | gen < h < |w.births| :: w.births[h].pid != p)
  }

  lemma ForkKeepsGrouped(w: World, e: Event, p: int)
    requires ValidWorld(w) && Enabled(w, e) && e.Fork? && Grouped(w) && p in Apply(w, e).table
    ensures GroupedAt(Apply(w, e), p)
  {
    if p == e.child {
      assert GroupedAt(w, e.parent);
    } else {
      assert GroupedAt(w, p);
    }
  }

  lemma RegroupKeepsGrouped(w: World, e: Event, p: int)
    requires ValidWorld(w) && Enabled(w, e) && e.SetGroup? && Grouped(w) && p in Apply(w, e).table
    ensures GroupedAt(Apply(w, e), p)
  {
    assert GroupedAt(w, p);
    if p == e.pid && e.pgid != p {
      assert GroupedAt(w, e.member);
    }
  }

  lemma OtherLeavesGroups(w: World, e: Event, p: int)
    requires ValidWorld(w) && Enabled(w, e) && !e.Fork? && !e.SetGroup? && p in Apply(w, e).table
    ensures Apply(w, e).births == w.births && p in w.table
    ensures var now, before := Apply(w, e).table[p], w.table[p];
      now.gen == before.gen && now.pgid == before.pgid && now.group == before.group
  {
  }

  lemma SameGroupKeepsGrouped(w: World, w': World, p: int)
    requires p in w.table && p in w'.table && GroupedAt(w, p) && w'.births == w.births
    requires w'.table[p].gen == w.table[p].gen && w'.table[p].pgid == w.table[p].pgid
    requires w'.table[p].group == w.table[p].group
    ensures GroupedAt(w', p)
  {
  }

  lemma EventKeepsGrouped(w: World, e: Event)
    requires ValidWorld(w) && Enabled(w, e) && Grouped(w)
    ensures Grouped(Apply(w, e))
  {
    forall p | p in Apply(w, e).table ensures GroupedAt(Apply(w, e), p) {
      if e.Fork? {
        ForkKeepsGrouped(w, e, p);
      } else if e.SetGroup? {
        RegroupKeepsGrouped(w, e, p);
      } else {
        OtherLeavesGroups(w, e, p);
        assert GroupedAt(w, p);
        SameGroupKeepsGrouped(w, Apply(w, e), p);
      }
    }
  }

  lemma {:induction false} GroupedAlong(ws: seq<World>, j: nat)
    requires Path(ws) && Grouped(ws[0]) && j < |ws|
    ensures Grouped(ws[j])
  {
    if j > 0 {
      GroupedAlong(ws, j - 1);
      assert StepAt(ws, j - 1);
      var e :| Enabled(ws[j - 1], e) && ws[j] == Apply(ws[j - 1], e);
      EventKeepsGrouped(ws[j - 1], e);
    }
  }

  /** Once a generation is gone and its group empty, the group stays empty. */
  lemma EventKeepsGroupGone(w: World, e: Event, gen: nat)
    requires ValidWorld(w) && Enabled(w, e) && gen < |w.births| && Gone(w, gen) && GroupGone(w, gen)
    ensures GroupGone(Apply(w, e), gen)
  {
  }

  lemma {:induction false} GroupGoneForever(ws: seq<World>, i: nat, j: nat, gen: nat)
    requires Path(ws) && i <= j < |ws| && gen < |ws[i].births| && Gone(ws[i], gen) && GroupGone(ws[i], gen)
    ensures GroupGone(ws[j], gen)
    decreases j - i
  {
    if i < j {
      assert StepAt(ws, i);
      StepKeepsGone(ws[i], ws[i + 1], gen);
      var e :| Enabled(ws[i], e) && ws[i + 1] == Apply(ws[i], e);
      EventKeepsGroupGone(ws[i], e, gen);
      GroupGoneForever(ws, i + 1, j, gen);
    }
  }

  /** Somebody else under a generation's PID means that its group is no more. */
  lemma ReusedPidEndsGroup(w: World, gen: nat, pid: int)
    requires ValidWorld(w) && Grouped(w) && gen < |w.births| && w.births[gen].pid == pid
    requires pid in w.table && w.table[pid].gen != gen
    ensures GroupGone(w, gen)
  {
    forall p | p in w.table ensures w.table[p].group != gen {
      if w.table[p].group == gen {
        OneHolder(w, gen, pid, p);
      }
    }
  }

  lemma OneHolder(w: World, gen: nat, pid: int, p: int)
    requires ValidWorld(w) && Grouped(w) && gen < |w.births| && w.births[gen].pid == pid
    requires pid in w.table && p in w.table && w.table[p].group == gen
    ensures w.table[pid].gen == gen
  {
    var holder := w.table[pid].gen;
    assert GroupedAt(w, pid) && GroupedAt(w, p);
    assert w.births[holder].pid == pid;
  }

  lemma StartTokenInjective(a: nat, b: nat)
    requires StartToken(a) == StartToken(b)
    ensures a == b
  {
    var prefix := "linux-start-ticks:";
    assert StartToken(a)[|prefix|..] == Decimal(a) && StartToken(b)[|prefix|..] == Decimal(b);
    DecimalInjective(a, b);
  }

  /** Within one world's history a PID and a start token name at most one generation. */
  lemma TokenNamesGeneration(births: seq<Birth>, g: nat, h: nat)
    requires ValidBirths(births) && g < |births| && h < |births|
    requires births[g].pid == births[h].pid && StartToken(births[g].ticks) == StartToken(births[h].ticks)
    ensures g == h
  {
    StartTokenInjective(births[g].ticks, births[h].ticks);
  }

  // ----- Lineage is stable -----

  lemma {:induction false} DescendsPrefix(births: seq<Birth>, more: seq<Birth>, g: nat, a: nat)
    requires ValidBirths(births) && ValidBirths(more) && births <= more && g < |births|
    ensures Descends(births, g, a) <==> Descends(more, g, a)
    decreases g
  {
    if 0 < g {
      assert births[g] == more[g];
      DescendsPrefix(births, more, births[g].parent, a);
    }
  }

  lemma {:induction false} DescendsIncreases(births: seq<Birth>, g: nat, a: nat)
    requires ValidBirths(births) && Descends(births, g, a)
    ensures a < g
    decreases g
  {
    if births[g].parent != a {
      DescendsIncreases(births, births[g].parent, a);
    }
  }

  lemma {:induction false} DescendsTransitive(births: seq<Birth>, g: nat, b: nat, a: nat)
    requires ValidBirths(births) && Descends(births, g, b) && Descends(births, b, a)
    ensures Descends(births, g, a)
    decreases g
  {
    if births[g].parent != b {
      DescendsTransitive(births, births[g].parent, b, a);
    }
  }

  /** A process exits and the root adopts its orphans. */
  lemma RootAdopts(w: World, p: int)
    requires ValidWorld(w) && w.reapers == {} && Live(w, 1) && Live(w, p) && p != 1
    requires Descends(w.births, w.table[p].gen, w.table[1].gen)
    ensures Enabled(w, Exit(p, 1)) && ValidWorld(Apply(w, Exit(p, 1)))
    ensures Enabled(Apply(w, Exit(p, 1)), Reap(p))
  {
    ApplyKeepsValid(w, Exit(p, 1));
  }

  lemma AfterExit(w: World, p: int, reaper: int)
    requires ValidWorld(w) && Enabled(w, Exit(p, reaper))
    ensures var next := Apply(w, Exit(p, reaper));
      && next.births == w.births && next.reapers == w.reapers && next.table.Keys == w.table.Keys
      && forall q | q in next.table ::
           next.table[q].gen == w.table[q].gen && (q != p ==> next.table[q].zombie == w.table[q].zombie)
  {
  }

  lemma AfterReap(w: World, p: int)
    requires ValidWorld(w) && Enabled(w, Reap(p))
    ensures var next := Apply(w, Reap(p));
      && next.births == w.births && next.reapers == w.reapers && next.table.Keys == w.table.Keys - {p}
      && forall q | q in next.table :: next.table[q] == w.table[q]
  {
  }

  /** Exit and reaping together remove the process and leave everybody else as they were, but for whose
      children they are. */
  lemma ExitAndReap(w: World, p: int) returns (path: seq<World>)
    requires ValidWorld(w) && w.reapers == {} && Live(w, 1) && Live(w, p) && p != 1
    requires Descends(w.births, w.table[p].gen, w.table[1].gen)
    ensures Path(path) && path[0] == w && |path| == 3
    ensures ValidWorld(path[2]) && path[2].births == w.births && path[2].reapers == {}
    ensures path[2].table.Keys == w.table.Keys - {p}
    ensures forall q | q in path[2].table ::
      path[2].table[q].gen == w.table[q].gen && path[2].table[q].zombie == w.table[q].zombie
  {
    RootAdopts(w, p);
    AfterExit(w, p, 1);
    AfterReap(Apply(w, Exit(p, 1)), p);
    path := PathOfTwo(w, Exit(p, 1), Reap(p));
  }

  lemma PathOfTwo(w: World, e: Event, f: Event) returns (path: seq<World>)
    requires ValidWorld(w) && Enabled(w, e) && ValidWorld(Apply(w, e)) && Enabled(Apply(w, e), f)
    ensures path == [w, Apply(w, e), Apply(Apply(w, e), f)] && Path(path) && ValidWorld(path[2])
  {
    path := [w, Apply(w, e), Apply(Apply(w, e), f)];
    ApplyKeepsValid(Apply(w, e), f);
    assert Step(path[0], path[1]) && Step(path[1], path[2]);
    assert StepAt(path, 0) && StepAt(path, 1);
  }
}
