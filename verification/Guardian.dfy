/** The guardian's mutable ownership state and the loops that maintain it. */
module Guardian {
  import opened PyText
  import opened Maps
  import opened Ownership
  import opened Refresh
  import opened ControlPipe

  /** One `os.read` on the control pipe; an empty payload is end of file. */
  datatype ReadResult = Data(payload: string) | WouldBlock | Interrupted | ReadError

  predicate Stops(r: ReadResult) {
    r.WouldBlock? || r.ReadError? || (r.Data? && r.payload == "")
  }

  /** The payloads handed over before the first read that stops the drain. */
  function Payloads(input: seq<ReadResult>): seq<string> {
    if input == [] || Stops(input[0]) then []
    else if input[0].Interrupted? then Payloads(input[1..])
    else [input[0].payload] + Payloads(input[1..])
  }

  function FirstStop(input: seq<ReadResult>): (i: nat)
    ensures i <= |input|
    ensures i < |input| ==> Stops(input[i])
    ensures forall k | 0 <= k < i :: !Stops(input[k])
  {
    if input == [] || Stops(input[0]) then 0 else 1 + FirstStop(input[1..])
  }

  /** Some iteration order of a dictionary. */
  method IterationOrder<T>(m: map<int, T>) returns (order: seq<int>)
    ensures forall k | 0 <= k < |order| :: order[k] in m
    ensures forall p | p in m :: p in order
  {
    order := [];
    var left := m.Keys;
    while left != {}
      invariant left <= m.Keys
      invariant forall k | 0 <= k < |order| :: order[k] in m
      invariant forall p | p in m :: p in left || p in order
      decreases left
    {
      var p := Pick(left);
      left := left - {p};
      order := order + [p];
    }
  }

  class OwnershipState {
    var tracked: map<int, string>
    var groups: map<int, string>
    var uniqueIds: set<int>
    var buffer: string

    function State(): Holdings
      reads this
    {
      Holdings(tracked, groups, uniqueIds)
    }

    constructor (applicationPid: int, applicationStart: string)
      ensures State() == Holdings(map[applicationPid := applicationStart], map[], {}) && buffer == ""
    {
      tracked, groups, uniqueIds, buffer := map[applicationPid := applicationStart], map[], {}, "";
    }

    // ----- Refresh -----

    /** Splits the tracked processes into verified and retained ones and binds verified rows. */
    method VerifyTracked(s: Snapshot)
      returns (verified: map<int, string>, retained: map<int, string>, table: map<int, Row>)
      ensures verified == VerifiedTokens(s, State())
      ensures retained == RetainedTokens(s, State())
      ensures table == VerifiedTable(s, State())
    {
      verified, retained, table := map[], map[], s.table;
      var order := IterationOrder(tracked);
      for k := 0 to |order|
        invariant forall p :: p in verified <==> p in order[..k] && Verified(s, State(), p)
        invariant forall p | p in verified :: verified[p] == FirstRead(s, p).value
        invariant forall p :: p in retained <==> p in order[..k] && Retained(s, State(), p)
        invariant forall p | p in retained :: retained[p] == tracked[p]
        invariant table.Keys == s.table.Keys
        invariant forall p | p in table ::
          table[p] ==
          if p in verified then s.table[p].(startToken := FirstRead(s, p).value) else s.table[p]
      {
        var p := order[k];
        if p !in s.table {
          if s.alive(p) {
            retained := retained[p := tracked[p]];
          }
        } else {
          var current := Bound(table[p], s.read(Verify, p));
          if current.Failed? {
            retained := retained[p := tracked[p]];
          } else if current.Token? && (current.value == tracked[p] || OwnedIdentity(table[p], uniqueIds)) {
            table := table[p := table[p].(startToken := current.value)];
            verified := verified[p := current.value];
          }
        }
        assert order[..k + 1] == order[..k] + [p];
      }
      assert order[..|order|] == order;
      SameMap(verified, VerifiedTokens(s, State()));
      SameMap(retained, RetainedTokens(s, State()));
      SameMap(table, VerifiedTable(s, State()));
    }

    /** Forgets groups whose leader vanished or changed generation, and binds verified leaders. */
    method VerifyGroups(s: Snapshot, verifiedTable: map<int, Row>) returns (table: map<int, Row>)
      requires verifiedTable == VerifiedTable(s, State())
      modifies this`groups
      ensures groups == KeptGroups(s, old(State()))
      ensures table == BoundTable(s, old(State()))
    {
      ghost var h := State();
      table := verifiedTable;
      var left := groups.Keys;
      ghost var done: set<int> := {};
      SameMap(groups, GroupsAfter(s, h, verifiedTable, done));
      SameMap(table, TableAfter(s, h, verifiedTable, done));
      while left != {}
        invariant done !! left && done + left == h.groups.Keys
        invariant groups == GroupsAfter(s, h, verifiedTable, done)
        invariant table == TableAfter(s, h, verifiedTable, done)
        decreases left
      {
        var g := Pick(left);
        LookAtGroup(s, h, verifiedTable, done, g);
        table := VerifyGroup(s, h, verifiedTable, table, g);
        left := left - {g};
        done := done + {g};
      }
      assert done == h.groups.Keys;
    }

    method VerifyGroup(s: Snapshot, ghost h: Holdings, ghost verifiedTable: map<int, Row>, table: map<int, Row>, g: int)
      returns (bound: map<int, Row>)
      requires g in groups && g in h.groups && groups[g] == h.groups[g] && uniqueIds == h.ids
      requires g in table <==> g in verifiedTable
      requires g in table ==> table[g] == verifiedTable[g]
      modifies this`groups
      ensures KeepsGroup(s, h, verifiedTable, g) ==> groups == old(groups)[g := KeptGroupToken(s, h, verifiedTable, g)]
      ensures !KeepsGroup(s, h, verifiedTable, g) ==> groups == old(groups) - {g}
      ensures bound == if g in table then table[g := BoundRow(s, h, verifiedTable, g)] else table
    {
      bound := table;
      if g !in table || table[g].pid != table[g].pgid {
        groups := groups - {g};
      } else {
        var current := Bound(table[g], s.read(Leaders, g));
        if current.Failed? {
          // An unreadable leader keeps its group.
        } else if current.NoProcess? || (current.value != groups[g] && !OwnedIdentity(table[g], uniqueIds)) {
          groups := groups - {g};
        } else {
          groups := groups[g := current.value];
          bound := table[g := table[g].(startToken := current.value)];
        }
      }
    }

    /** Binds every discovered process to its token; stops on a new one that cannot be read. */
    method BindDiscovered(s: Snapshot, ghost h: Holdings, ghost guardian: Option<int>, discovered: set<int>,
                          verified: map<int, string>, retained: map<int, string>, table: map<int, Row>)
      returns (ok: bool, refreshed: map<int, string>)
      requires Keyed(s.table) && tracked == h.tracked
      requires discovered == Discovered(s, h, guardian) && uniqueIds == GrownIds(s, h, guardian)
      requires verified == VerifiedTokens(s, h) && retained == RetainedTokens(s, h) && table == BoundTable(s, h)
      requires groups == KeptGroups(s, h)
      modifies this`groups
      ensures ok <==> !Fails(s, h, guardian)
      ensures ok ==> refreshed == Refreshed(s, h, guardian) && groups == RefreshedGroups(s, h, guardian)
      ensures !ok ==> exists done :: done <= discovered && groups == RefreshedGroupsAfter(s, h, uniqueIds, done)
    {
      refreshed := retained;
      var left := discovered;
      ghost var done: set<int> := {};
      BoundTableIsKeyed(s, h);
      BindNone(s, h, uniqueIds);
      while left != {}
        invariant done !! left && done + left == discovered
        invariant refreshed == RefreshedAfter(s, h, uniqueIds, done)
        invariant groups == RefreshedGroupsAfter(s, h, uniqueIds, done)
        invariant forall p | p in done :: !(LastRead(s, h, p).Failed? && Expected(s, h, p).None?)
        decreases left
      {
        var p := Pick(left);
        BindNext(s, h, uniqueIds, done, p);
        var bound;
        bound, refreshed := BindProcess(s, h, p, verified, table[p], refreshed);
        left := left - {p};
        done := done + {p};
        if !bound {
          return false, map[];
        }
      }
      assert done == discovered;
      ok := true;
    }

    method BindProcess(s: Snapshot, ghost h: Holdings, p: int, verified: map<int, string>,
                       row: Row, before: map<int, string>)
      returns (ok: bool, refreshed: map<int, string>)
      requires tracked == h.tracked && verified == VerifiedTokens(s, h)
      requires p in BoundTable(s, h) && row == BoundTable(s, h)[p] && row.pid == p
      modifies this`groups
      ensures ok <==> !(LastRead(s, h, p).Failed? && Expected(s, h, p).None?)
      ensures refreshed ==
        if FinalToken(s, h, uniqueIds, p).Some? then before[p := FinalToken(s, h, uniqueIds, p).value]
        else before
      ensures groups ==
        if LeadsNewGroup(s, h, uniqueIds, p) then old(groups)[p := FinalToken(s, h, uniqueIds, p).value]
        else old(groups)
    {
      ok, refreshed := true, before;
      var expected := if p in verified then Some(verified[p]) else if p in tracked then Some(tracked[p]) else None;
      var token := Bound(row, s.read(Final, p));
      if token.Failed? {
        if expected.None? {
          return false, before;
        }
        refreshed := before[p := expected.value];
      } else if token.Token? && !(expected.Some? && expected.value != token.value && !OwnedIdentity(row, uniqueIds)) {
        refreshed := before[p := token.value];
        if row.pid == row.pgid {
          groups := groups[row.pgid := token.value];
        }
      }
    }

    /** One refresh. A failed one leaves the tracked processes exactly as they were. */
    method RefreshOwned(s: Snapshot, guardian: Option<int>) returns (ok: bool)
      requires Keyed(s.table)
      modifies this`tracked, this`groups, this`uniqueIds
      ensures ok <==> !Fails(s, old(State()), guardian)
      ensures uniqueIds == GrownIds(s, old(State()), guardian)
      ensures tracked == if ok then Refreshed(s, old(State()), guardian) else old(tracked)
      ensures ok ==> groups == RefreshedGroups(s, old(State()), guardian)
      ensures !ok ==> exists done ::
        done <= Discovered(s, old(State()), guardian)
        && groups == RefreshedGroupsAfter(s, old(State()), uniqueIds, done)
    {
      ghost var h := State();
      var verified, retained, table := VerifyTracked(s);
      table := VerifyGroups(s, table);
      var sources := Sources(table, verified, guardian, groups, uniqueIds, s.validates);
      var trackedOrder := IterationOrder(verified);
      var tableOrder := IterationOrder(table);
      var owned;
      owned, uniqueIds := Discover(sources, trackedOrder, tableOrder);
      var refreshed;
      ok, refreshed := BindDiscovered(s, h, guardian, owned.Keys, verified, retained, table);
      if ok {
        tracked := refreshed;
      }
    }

    // ----- Control pipe -----

    ghost function Commands(force: bool, registered: bool): Control
      reads this
    {
      Control(tracked, uniqueIds, force, registered)
    }

    /** Applies every complete command of one payload. */
    method ConsumeCommands(payload: string, lookup: int -> TokenRead) returns (force: bool, registered: bool)
      modifies this`tracked, this`uniqueIds, this`buffer
      ensures (buffer, Commands(force, registered))
           == Consume(old(buffer) + payload, old(Commands(false, false)), lookup)
    {
      buffer := buffer + payload;
      force, registered := false, false;
      while '\n' in buffer
        invariant Consume(buffer, Commands(force, registered), lookup)
               == Consume(old(buffer) + payload, old(Commands(false, false)), lookup)
        decreases |buffer|
      {
        var i := Find(buffer, '\n');
        var line := buffer[..i];
        var next := ApplyLine(Control(tracked, uniqueIds, force, registered), line, lookup);
        buffer := buffer[i + 1..];
        tracked, uniqueIds, force, registered := next.tracked, next.ids, next.force, next.registered;
      }
      NoLineNoEffect(buffer, Commands(force, registered), lookup);
    }

    /** Drains what is queued, telling an empty pipe from end of file and from a read error. */
    method DrainControl(input: seq<ReadResult>, lookup: int -> TokenRead)
      returns (force: bool, eof: bool, registered: bool, failed: bool)
      requires exists k :: 0 <= k < |input| && Stops(input[k])
      modifies this`tracked, this`uniqueIds, this`buffer
      ensures (buffer, Commands(force, registered))
           == ConsumeAll(old(buffer), old(Commands(false, false)), Payloads(input), lookup)
      ensures eof <==> input[FirstStop(input)] == Data("")
      ensures failed <==> input[FirstStop(input)].ReadError?
    {
      force, eof, registered, failed := false, false, false, false;
      var k := 0;
      ghost var start := old(Commands(false, false));
      while true
        invariant k <= FirstStop(input) && FirstStop(input) < |input|
        invariant !eof && !failed
        invariant ConsumeAll(buffer, Commands(force, registered), Payloads(input[k..]), lookup)
               == ConsumeAll(old(buffer), start, Payloads(input), lookup)
        decreases |input| - k
      {
        var r := input[k];
        assert input[k..][1..] == input[k + 1..];
        assert k < FirstStop(input) <==> !Stops(r);
        if r.WouldBlock? {
          break;
        } else if r.ReadError? {
          failed := true;
          break;
        } else if r.Data? {
          if r.payload == "" {
            eof := true;
            break;
          }
          label before:
          var payloadForce, payloadRegistered := ConsumeCommands(r.payload, lookup);
          ConsumeFlags(old@before(buffer) + r.payload, old@before(Commands(force, registered)), lookup);
          force := force || payloadForce;
          registered := registered || payloadRegistered;
        }
        k := k + 1;
      }
    }
  }

  function Cleared(c: Control): Control {
    c.(force := false, registered := false)
  }

  function Raised(c: Control, later: Control): Control {
    later.(force := c.force || later.force, registered := c.registered || later.registered)
  }

  lemma ApplyFlags(c: Control, line: string, lookup: int -> TokenRead)
    ensures ApplyLine(c, line, lookup) == Raised(c, ApplyLine(Cleared(c), line, lookup))
  {
  }

  /** Commands only ever raise the two flags, so per-payload flags can be joined afterwards. */
  lemma {:induction false} ConsumeFlags(buffer: string, c: Control, lookup: int -> TokenRead)
    ensures Consume(buffer, c, lookup).0 == Consume(buffer, Cleared(c), lookup).0
    ensures Consume(buffer, c, lookup).1 == Raised(c, Consume(buffer, Cleared(c), lookup).1)
    decreases |buffer|
  {
    var i := Find(buffer, '\n');
    if i < |buffer| {
      var line, rest := buffer[..i], buffer[i + 1..];
      ApplyFlags(c, line, lookup);
      ConsumeFlags(rest, ApplyLine(c, line, lookup), lookup);
      ConsumeFlags(rest, ApplyLine(Cleared(c), line, lookup), lookup);
    }
  }
}
