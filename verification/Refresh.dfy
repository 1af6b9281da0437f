/** One refresh of the guardian's ownership state against a process-table snapshot: which tracked
    processes are verified, retained or dropped, and what discovery adds. */
module Refresh {
  import opened PyText
  import opened Maps
  import opened Ownership

  /** A start-token lookup: the token, no such process, or an unreadable one. */
  datatype TokenRead = Token(value: string) | NoProcess | Failed

  /** The three moments at which a refresh may look a token up. */
  datatype Phase = Verify | Leaders | Final

  datatype Snapshot = Snapshot(
    table: map<int, Row>,
    read: (Phase, int) -> TokenRead,
    alive: int -> bool,
    validates: (Row, Row, Relation) -> bool)

  datatype Holdings = Holdings(tracked: map<int, string>, groups: map<int, string>, ids: set<int>)

  /** Both native table readers key every row by its own PID. */
  ghost predicate Keyed(table: map<int, Row>) {
    forall p | p in table :: table[p].pid == p
  }

  predicate OwnedIdentity(row: Row, ids: set<int>) {
    row.uniqueId != 0 && row.uniqueId in ids
  }

  /** The token bound to a row: sampled with it, or looked up where that cannot mix generations. */
  function Bound(row: Row, read: TokenRead): TokenRead {
    if row.startToken != "" then Token(row.startToken)
    else if row.uniqueId != 0 then Failed
    else read
  }

  // ----- Tracked processes -----

  function FirstRead(s: Snapshot, p: int): TokenRead
    requires p in s.table
  {
    Bound(s.table[p], s.read(Verify, p))
  }

  predicate Verified(s: Snapshot, h: Holdings, p: int) {
    && p in h.tracked && p in s.table && FirstRead(s, p).Token?
    && (FirstRead(s, p).value == h.tracked[p] || OwnedIdentity(s.table[p], h.ids))
  }

  predicate Retained(s: Snapshot, h: Holdings, p: int) {
    p in h.tracked && if p in s.table then FirstRead(s, p).Failed? else s.alive(p)
  }

  function VerifiedTokens(s: Snapshot, h: Holdings): map<int, string> {
    map p | p in h.tracked && Verified(s, h, p) :: FirstRead(s, p).value
  }

  function RetainedTokens(s: Snapshot, h: Holdings): map<int, string> {
    map p | p in h.tracked && Retained(s, h, p) :: h.tracked[p]
  }

  function VerifiedTable(s: Snapshot, h: Holdings): map<int, Row> {
    map p | p in s.table :: if Verified(s, h, p) then s.table[p].(startToken := FirstRead(s, p).value) else s.table[p]
  }

  // ----- Tracked groups -----

  function LeaderRead(s: Snapshot, table: map<int, Row>, g: int): TokenRead
    requires g in table
  {
    Bound(table[g], s.read(Leaders, g))
  }

  predicate LeaderVerified(s: Snapshot, h: Holdings, table: map<int, Row>, g: int) {
    && g in h.groups && g in table && table[g].pid == table[g].pgid && LeaderRead(s, table, g).Token?
    && (LeaderRead(s, table, g).value == h.groups[g] || OwnedIdentity(table[g], h.ids))
  }

  predicate LeaderUnreadable(s: Snapshot, h: Holdings, table: map<int, Row>, g: int) {
    g in h.groups && g in table && table[g].pid == table[g].pgid && LeaderRead(s, table, g).Failed?
  }

  predicate KeepsGroup(s: Snapshot, h: Holdings, table: map<int, Row>, g: int) {
    LeaderVerified(s, h, table, g) || LeaderUnreadable(s, h, table, g)
  }

  function KeptGroupToken(s: Snapshot, h: Holdings, table: map<int, Row>, g: int): string
    requires g in h.groups
  {
    if LeaderVerified(s, h, table, g) then LeaderRead(s, table, g).value else h.groups[g]
  }

  function BoundRow(s: Snapshot, h: Holdings, table: map<int, Row>, p: int): Row
    requires p in table
  {
    if LeaderVerified(s, h, table, p) then table[p].(startToken := LeaderRead(s, table, p).value) else table[p]
  }

  /** The groups once those in `done` were looked at. */
  function GroupsAfter(s: Snapshot, h: Holdings, table: map<int, Row>, done: set<int>): map<int, string> {
    map g | g in h.groups && (g in done ==> KeepsGroup(s, h, table, g)) ::
      if g in done then KeptGroupToken(s, h, table, g) else h.groups[g]
  }

  /** The table once the leaders in `done` were bound. */
  function TableAfter(s: Snapshot, h: Holdings, table: map<int, Row>, done: set<int>): map<int, Row> {
    map p | p in table :: if p in done then BoundRow(s, h, table, p) else table[p]
  }

  lemma LookAtGroup(s: Snapshot, h: Holdings, table: map<int, Row>, done: set<int>, g: int)
    requires g in h.groups && g !in done
    ensures KeepsGroup(s, h, table, g) ==>
      GroupsAfter(s, h, table, done + {g}) == GroupsAfter(s, h, table, done)[g := KeptGroupToken(s, h, table, g)]
    ensures !KeepsGroup(s, h, table, g) ==>
      GroupsAfter(s, h, table, done + {g}) == GroupsAfter(s, h, table, done) - {g}
    ensures g in table ==>
      TableAfter(s, h, table, done + {g}) == TableAfter(s, h, table, done)[g := BoundRow(s, h, table, g)]
    ensures g !in table ==> TableAfter(s, h, table, done + {g}) == TableAfter(s, h, table, done)
  {
  }

  function KeptGroups(s: Snapshot, h: Holdings): map<int, string> {
    GroupsAfter(s, h, VerifiedTable(s, h), h.groups.Keys)
  }

  function BoundTable(s: Snapshot, h: Holdings): map<int, Row> {
    TableAfter(s, h, VerifiedTable(s, h), h.groups.Keys)
  }

  lemma BoundTableIsKeyed(s: Snapshot, h: Holdings)
    requires Keyed(s.table)
    ensures Keyed(BoundTable(s, h))
  {
  }

  // ----- Discovery and the final binding -----

  function DiscoverySources(s: Snapshot, h: Holdings, guardian: Option<int>): Sources {
    Sources(BoundTable(s, h), VerifiedTokens(s, h), guardian, KeptGroups(s, h), h.ids, s.validates)
  }

  ghost function Discovered(s: Snapshot, h: Holdings, guardian: Option<int>): set<int> {
    OwnedSet(DiscoverySources(s, h, guardian))
  }

  ghost function GrownIds(s: Snapshot, h: Holdings, guardian: Option<int>): set<int> {
    h.ids + UniqueIds(DiscoverySources(s, h, guardian), Discovered(s, h, guardian))
  }

  function Expected(s: Snapshot, h: Holdings, p: int): Option<string> {
    if Verified(s, h, p) then Some(FirstRead(s, p).value)
    else if p in h.tracked then Some(h.tracked[p])
    else None
  }

  function LastRead(s: Snapshot, h: Holdings, p: int): TokenRead
    requires p in BoundTable(s, h)
  {
    Bound(BoundTable(s, h)[p], s.read(Final, p))
  }

  /** A newly discovered process whose token cannot be read fails the whole refresh. */
  ghost predicate Fails(s: Snapshot, h: Holdings, guardian: Option<int>) {
    exists p :: p in Discovered(s, h, guardian) && LastRead(s, h, p).Failed? && Expected(s, h, p).None?
  }

  /** The token a discovered process is tracked under from now on, or `None` when it is skipped. */
  function FinalToken(s: Snapshot, h: Holdings, ids: set<int>, p: int): Option<string>
    requires p in BoundTable(s, h)
  {
    match LastRead(s, h, p)
    case Failed => Expected(s, h, p)
    case NoProcess => None
    case Token(t) =>
      if Expected(s, h, p).Some? && Expected(s, h, p).value != t && !OwnedIdentity(BoundTable(s, h)[p], ids) then None
      else Some(t)
  }

  predicate LeadsNewGroup(s: Snapshot, h: Holdings, ids: set<int>, p: int)
    requires p in BoundTable(s, h)
  {
    && LastRead(s, h, p).Token? && FinalToken(s, h, ids, p).Some?
    && BoundTable(s, h)[p].pid == BoundTable(s, h)[p].pgid
  }

  /** The bindings contributed by the processes in `done`. */
  function Bindings(s: Snapshot, h: Holdings, ids: set<int>, done: set<int>): map<int, string> {
    map p | p in done && p in BoundTable(s, h) && FinalToken(s, h, ids, p).Some? :: FinalToken(s, h, ids, p).value
  }

  function LeaderBindings(s: Snapshot, h: Holdings, ids: set<int>, done: set<int>): map<int, string> {
    map p | p in done && p in BoundTable(s, h) && LeadsNewGroup(s, h, ids, p) :: FinalToken(s, h, ids, p).value
  }

  ghost function Kept(s: Snapshot, h: Holdings, guardian: Option<int>): set<int> {
    Bindings(s, h, GrownIds(s, h, guardian), Discovered(s, h, guardian)).Keys
  }

  /** What is tracked after a refresh that did not fail. */
  ghost function Refreshed(s: Snapshot, h: Holdings, guardian: Option<int>): map<int, string> {
    RefreshedAfter(s, h, GrownIds(s, h, guardian), Discovered(s, h, guardian))
  }

  ghost function RefreshedGroups(s: Snapshot, h: Holdings, guardian: Option<int>): map<int, string> {
    RefreshedGroupsAfter(s, h, GrownIds(s, h, guardian), Discovered(s, h, guardian))
  }

  /** Tracked processes and groups once the processes in `done` are bound. */
  function RefreshedAfter(s: Snapshot, h: Holdings, ids: set<int>, done: set<int>): map<int, string> {
    RetainedTokens(s, h) + Bindings(s, h, ids, done)
  }

  function RefreshedGroupsAfter(s: Snapshot, h: Holdings, ids: set<int>, done: set<int>): map<int, string> {
    KeptGroups(s, h) + LeaderBindings(s, h, ids, done)
  }

  lemma BindNone(s: Snapshot, h: Holdings, ids: set<int>)
    ensures RefreshedAfter(s, h, ids, {}) == RetainedTokens(s, h)
    ensures RefreshedGroupsAfter(s, h, ids, {}) == KeptGroups(s, h)
  {
    SameMap(RefreshedAfter(s, h, ids, {}), RetainedTokens(s, h));
    SameMap(RefreshedGroupsAfter(s, h, ids, {}), KeptGroups(s, h));
  }

  lemma BindNext(s: Snapshot, h: Holdings, ids: set<int>, done: set<int>, p: int)
    requires p in BoundTable(s, h)
    ensures RefreshedAfter(s, h, ids, done + {p}) == if FinalToken(s, h, ids, p).Some?
      then RefreshedAfter(s, h, ids, done)[p := FinalToken(s, h, ids, p).value] else RefreshedAfter(s, h, ids, done)
    ensures RefreshedGroupsAfter(s, h, ids, done + {p}) == if LeadsNewGroup(s, h, ids, p)
      then RefreshedGroupsAfter(s, h, ids, done)[p := FinalToken(s, h, ids, p).value]
      else RefreshedGroupsAfter(s, h, ids, done)
  {
    BindOne(s, h, ids, done, p);
    if FinalToken(s, h, ids, p).Some? {
      UpdateOverlay(RetainedTokens(s, h), Bindings(s, h, ids, done), p, FinalToken(s, h, ids, p).value);
      UpdateOverlay(KeptGroups(s, h), LeaderBindings(s, h, ids, done), p, FinalToken(s, h, ids, p).value);
    }
  }

  /** Binding one more process extends the bindings by its final token, if it has one. */
  lemma BindOne(s: Snapshot, h: Holdings, ids: set<int>, done: set<int>, p: int)
    requires p in BoundTable(s, h)
    ensures Bindings(s, h, ids, done + {p}) == if FinalToken(s, h, ids, p).Some?
      then Bindings(s, h, ids, done)[p := FinalToken(s, h, ids, p).value] else Bindings(s, h, ids, done)
    ensures LeaderBindings(s, h, ids, done + {p}) == if LeadsNewGroup(s, h, ids, p)
      then LeaderBindings(s, h, ids, done)[p := FinalToken(s, h, ids, p).value] else LeaderBindings(s, h, ids, done)
  {
  }

  // ----- What a refresh promises -----

  lemma VerifiedIsKept(s: Snapshot, h: Holdings, guardian: Option<int>, p: int)
    requires Verified(s, h, p) && FirstRead(s, p).value != ""
    ensures p in Kept(s, h, guardian)
    ensures Refreshed(s, h, guardian)[p] == FirstRead(s, p).value
  {
    var i := DiscoverySources(s, h, guardian);
    assert TrackedMatch(i, p);
    StartIsDerivable(i, p);
    assert !Retained(s, h, p);
  }

  /** A tracked process is never lost while it may still be the same generation: alive but missing from
      the table, sampled or read under its own token, or unreadable; a row with a unique identity but no
      sampled token counts as unreadable. */
  lemma NeverDropsSameGeneration(s: Snapshot, h: Holdings, guardian: Option<int>, p: int)
    requires p in h.tracked && h.tracked[p] != ""
    requires || (p !in s.table && s.alive(p))
             || (p in s.table && s.table[p].startToken == h.tracked[p])
             || (p in s.table && s.table[p].startToken == "" && s.table[p].uniqueId != 0)
             || (p in s.table && s.table[p].startToken == "" && s.read(Verify, p) in {Failed, Token(h.tracked[p])})
    ensures p in Refreshed(s, h, guardian)
    ensures p !in s.table || s.table[p].startToken == h.tracked[p] ==> Refreshed(s, h, guardian)[p] == h.tracked[p]
  {
    if p in s.table && FirstRead(s, p) == Token(h.tracked[p]) {
      VerifiedIsKept(s, h, guardian, p);
    }
  }

  /** Every row was sampled together with its start token, as both native table readers do. */
  ghost predicate Sampled(s: Snapshot) {
    forall p | p in s.table :: s.table[p].startToken != ""
  }

  lemma SampledTable(s: Snapshot, h: Holdings)
    requires Sampled(s)
    ensures BoundTable(s, h) == s.table
  {
  }

  /** On sampled rows every discovered process can be read, so a refresh cannot fail. */
  lemma SampledNeverFails(s: Snapshot, h: Holdings, guardian: Option<int>)
    requires Sampled(s)
    ensures !Fails(s, h, guardian)
  {
    SampledTable(s, h);
  }

  lemma MissingRefreshIff(s: Snapshot, h: Holdings, guardian: Option<int>, p: int)
    requires p !in s.table
    ensures p in Refreshed(s, h, guardian) <==> p in h.tracked && s.alive(p)
  {
  }

  lemma UnverifiedRefreshIff(s: Snapshot, h: Holdings, guardian: Option<int>, p: int)
    requires Sampled(s) && p in s.table && !Verified(s, h, p)
    ensures p in Refreshed(s, h, guardian)
         <==> p in Discovered(s, h, guardian) && (p !in h.tracked || s.table[p].uniqueId != 0)
    ensures p in Refreshed(s, h, guardian) ==> Refreshed(s, h, guardian)[p] == s.table[p].startToken
  {
    SampledTable(s, h);
    var i := DiscoverySources(s, h, guardian);
    assert !Retained(s, h, p);
    if p in Discovered(s, h, guardian) && s.table[p].uniqueId != 0 {
      assert s.table[p].uniqueId in UniqueIds(i, Discovered(s, h, guardian));
    }
  }

  /** On sampled rows a refresh tracks exactly: a tracked PID seen under the same token or an owned
      unique identity, a discovered PID not tracked before, a discovered PID with a unique identity,
      and a tracked PID that is alive but missing from the table. In particular a reused PID without
      unique identity is dropped, even when discovery has derived it afresh. */
  lemma SampledRefreshIff(s: Snapshot, h: Holdings, guardian: Option<int>, p: int)
    requires Sampled(s)
    ensures p in Refreshed(s, h, guardian) <==>
      if p !in s.table then p in h.tracked && s.alive(p)
      else if p !in h.tracked then p in Discovered(s, h, guardian)
      else || s.table[p].startToken == h.tracked[p]
           || (s.table[p].uniqueId != 0 && s.table[p].uniqueId in h.ids)
           || (p in Discovered(s, h, guardian) && s.table[p].uniqueId != 0)
    ensures p in s.table && p in Refreshed(s, h, guardian) ==> Refreshed(s, h, guardian)[p] == s.table[p].startToken
  {
    if p !in s.table {
      MissingRefreshIff(s, h, guardian, p);
    } else if Verified(s, h, p) {
      VerifiedIsKept(s, h, guardian, p);
    } else {
      UnverifiedRefreshIff(s, h, guardian, p);
    }
  }

  /** Binding changes nothing but start tokens. */
  lemma BoundRowShape(s: Snapshot, h: Holdings, p: int)
    ensures p in BoundTable(s, h) <==> p in s.table
    ensures p in s.table ==> BoundTable(s, h)[p].(startToken := s.table[p].startToken) == s.table[p]
  {
  }

  /** After a refresh every tracked group was kept on its verified or unreadable leader, or is led by
      a process that is now tracked. */
  lemma GroupsAreLed(s: Snapshot, h: Holdings, guardian: Option<int>, g: int)
    requires Keyed(s.table) && g in RefreshedGroups(s, h, guardian)
    ensures g in s.table && s.table[g].pgid == g
    ensures g in h.groups || (g in Refreshed(s, h, guardian) && g in Discovered(s, h, guardian))
  {
    BoundRowShape(s, h, g);
    if g !in KeptGroups(s, h) {
      assert g in LeaderBindings(s, h, GrownIds(s, h, guardian), Discovered(s, h, guardian));
    }
  }

  /** On sampled rows the tracked groups after a refresh are exactly those whose leader is in the table and is
      either the one they were tracked under, by token or unique identity, or discovered and now tracked. */
  lemma SampledGroupsIff(s: Snapshot, h: Holdings, guardian: Option<int>, q: int)
    requires Sampled(s) && Keyed(s.table)
    ensures q in RefreshedGroups(s, h, guardian)
       <==> && q in s.table && s.table[q].pgid == q
            && (|| (q in h.groups && (|| h.groups[q] == s.table[q].startToken
                                      || (s.table[q].uniqueId != 0 && s.table[q].uniqueId in h.ids)))
                || (q in Discovered(s, h, guardian) && q in Refreshed(s, h, guardian)))
    ensures q in RefreshedGroups(s, h, guardian) ==> RefreshedGroups(s, h, guardian)[q] == s.table[q].startToken
  {
    KeptGroupsIff(s, h, q);
    LedGroupsIff(s, h, guardian, q);
  }

  lemma KeptGroupsIff(s: Snapshot, h: Holdings, q: int)
    requires Sampled(s) && Keyed(s.table)
    ensures q in KeptGroups(s, h)
       <==> && q in s.table && s.table[q].pgid == q && q in h.groups
            && (|| h.groups[q] == s.table[q].startToken
                || (s.table[q].uniqueId != 0 && s.table[q].uniqueId in h.ids))
    ensures q in KeptGroups(s, h) ==> KeptGroups(s, h)[q] == s.table[q].startToken
  {
  }

  lemma LedGroupsIff(s: Snapshot, h: Holdings, guardian: Option<int>, q: int)
    requires Sampled(s) && Keyed(s.table)
    ensures var led := LeaderBindings(s, h, GrownIds(s, h, guardian), Discovered(s, h, guardian));
      && (q in led <==> && q in Discovered(s, h, guardian) && q in s.table && s.table[q].pgid == q
                        && q in Refreshed(s, h, guardian))
      && (q in led ==> led[q] == s.table[q].startToken)
  {
    SampledTable(s, h);
    if q in s.table {
      assert !Retained(s, h, q);
    }
  }

  /** A tracked process that is missing from the table keeps its token. */
  lemma MissingKeepsToken(s: Snapshot, h: Holdings, guardian: Option<int>, p: int)
    requires p !in s.table && p in Refreshed(s, h, guardian)
    ensures p in h.tracked && Refreshed(s, h, guardian)[p] == h.tracked[p]
  {
  }

  /** A Linux table: sampled rows without unique identities. */
  ghost predicate LinuxRows(s: Snapshot) {
    Sampled(s) && Keyed(s.table)
    && forall p | p in s.table :: s.table[p].uniqueId == 0 && s.table[p].parentUniqueId == 0
  }

  lemma KeptGroupIsSampled(s: Snapshot, h: Holdings, q: int)
    requires LinuxRows(s) && q in KeptGroups(s, h)
    ensures q in h.groups && q in s.table && KeptGroups(s, h)[q] == h.groups[q] == s.table[q].startToken
  {
  }

  lemma LedGroupToken(s: Snapshot, h: Holdings, ids: set<int>, done: set<int>, q: int)
    requires LinuxRows(s) && q in LeaderBindings(s, h, ids, done)
    ensures q in done && q in s.table && LeaderBindings(s, h, ids, done)[q] == s.table[q].startToken
  {
    SampledTable(s, h);
  }

  /** On a Linux table every group is tracked under its leader's token, and was tracked under that token
      before unless its leader is discovered. */
  lemma GroupTokenIsSampled(s: Snapshot, h: Holdings, guardian: Option<int>, q: int)
    requires LinuxRows(s) && q in RefreshedGroups(s, h, guardian)
    ensures q in s.table && RefreshedGroups(s, h, guardian)[q] == s.table[q].startToken
    ensures q !in Discovered(s, h, guardian) ==> q in h.groups && h.groups[q] == s.table[q].startToken
  {
    GroupsAreLed(s, h, guardian, q);
    if q in LeaderBindings(s, h, GrownIds(s, h, guardian), Discovered(s, h, guardian)) {
      LedGroupToken(s, h, GrownIds(s, h, guardian), Discovered(s, h, guardian), q);
    } else {
      KeptGroupIsSampled(s, h, q);
    }
  }

  /** On a Linux table a process is owned from the start exactly by its own token, as a confirmed child of
      the guardian, or as a confirmed member of a tracked group whose leader still has its token. */
  lemma LinuxStart(s: Snapshot, h: Holdings, guardian: int, p: int)
    requires LinuxRows(s)
    ensures Start(DiscoverySources(s, h, Some(guardian)), p)
       <==> && p in s.table
            && (|| (p in h.tracked && h.tracked[p] == s.table[p].startToken)
                || (s.table[p].ppid == guardian
                    && (guardian !in s.table || s.validates(s.table[p], s.table[guardian], Parent)))
                || (var q := s.table[p].pgid;
                    && q in h.groups && q in s.table && s.table[q].pgid == q && h.groups[q] == s.table[q].startToken
                    && s.validates(s.table[p], s.table[q], Group)))
  {
    SampledTable(s, h);
    var i := DiscoverySources(s, h, Some(guardian));
    if p in s.table {
      LinuxLeader(s, h, guardian, s.table[p].pgid);
      assert p in i.tracked <==> p in h.tracked && h.tracked[p] == s.table[p].startToken;
    }
  }

  lemma LinuxLeader(s: Snapshot, h: Holdings, guardian: int, q: int)
    requires LinuxRows(s)
    ensures TrackedLeader(DiscoverySources(s, h, Some(guardian)), q)
       <==> q in h.groups && q in s.table && s.table[q].pgid == q && h.groups[q] == s.table[q].startToken
  {
    SampledTable(s, h);
    if q in KeptGroups(s, h) {
      KeptGroupIsSampled(s, h, q);
    }
  }

  /** On a Linux table ownership spreads exactly to confirmed children, and to confirmed members of the group
      that its holder leads. */
  lemma LinuxEdge(s: Snapshot, h: Holdings, guardian: int, q: int, p: int)
    requires LinuxRows(s)
    ensures Edge(DiscoverySources(s, h, Some(guardian)), q, p)
       <==> && q in s.table && p in s.table
            && (|| (s.table[p].ppid == q && s.validates(s.table[p], s.table[q], Parent))
                || (s.table[p].pgid == q && s.table[q].pgid == q && s.validates(s.table[p], s.table[q], Group)))
  {
    SampledTable(s, h);
  }

  /** Every row leads its own group, nobody but `p` is a child of the guardian, nobody is a child of
      `p`, and no token still remembered for a PID is its token now. */
  ghost predicate OnlyStranger(s: Snapshot, h: Holdings, guardian: int, p: int) {
    && LinuxRows(s)
    && (forall q | q in s.table ::
          s.table[q].pgid == q && s.table[q].ppid != p && (s.table[q].ppid == guardian ==> q == p))
    && (forall q | q in s.table && q in h.tracked :: h.tracked[q] != s.table[q].startToken)
    && (forall q | q in s.table && q in h.groups :: h.groups[q] != s.table[q].startToken)
  }

  lemma StrangerStarts(s: Snapshot, h: Holdings, guardian: int, p: int, q: int)
    requires OnlyStranger(s, h, guardian, p) && q in s.table && Start(DiscoverySources(s, h, Some(guardian)), q)
    ensures q == p
  {
    LinuxStart(s, h, guardian, q);
  }

  lemma StrangerIsDiscovered(s: Snapshot, h: Holdings, guardian: int, p: int)
    requires OnlyStranger(s, h, guardian, p)
    ensures Discovered(s, h, Some(guardian)) <= {p}
  {
    SampledTable(s, h);
    var i := DiscoverySources(s, h, Some(guardian));
    forall q | q in i.table && Start(i, q) ensures q in {p} {
      StrangerStarts(s, h, guardian, p, q);
    }
    DerivableIsLeast(i, {p});
  }

  /** A process under a PID that is still tracked with another token is skipped, even when discovered. */
  lemma StrangerIsSkipped(s: Snapshot, h: Holdings, guardian: int, p: int)
    requires OnlyStranger(s, h, guardian, p) && p in h.tracked
    requires forall q | s.alive(q) :: q in s.table
    ensures Refreshed(s, h, Some(guardian)) == map[]
  {
    StrangerIsDiscovered(s, h, guardian, p);
    forall q ensures q !in Refreshed(s, h, Some(guardian)) {
      SampledRefreshIff(s, h, Some(guardian), q);
    }
    SameMap(Refreshed(s, h, Some(guardian)), map[]);
  }

  /** With nothing held and no child of the guardian in the table, a refresh finds nothing. */
  lemma NothingToDiscover(s: Snapshot, guardian: int)
    requires LinuxRows(s) && forall p | p in s.table :: s.table[p].ppid != guardian
    ensures Discovered(s, Holdings(map[], map[], {}), Some(guardian)) == {}
  {
    var h := Holdings(map[], map[], {});
    SampledTable(s, h);
    var i := DiscoverySources(s, h, Some(guardian));
    forall p | p in i.table ensures !Start(i, p) {
      assert i.table[p] == s.table[p];
    }
    DerivableIsLeast(i, {});
  }

  lemma NothingRefreshed(s: Snapshot, guardian: int)
    requires Discovered(s, Holdings(map[], map[], {}), Some(guardian)) == {}
    ensures Refreshed(s, Holdings(map[], map[], {}), Some(guardian)) == map[]
    ensures RefreshedGroups(s, Holdings(map[], map[], {}), Some(guardian)) == map[]
    ensures GrownIds(s, Holdings(map[], map[], {}), Some(guardian)) == {}
  {
    var h := Holdings(map[], map[], {});
    BindNone(s, h, GrownIds(s, h, Some(guardian)));
    SameMap(RetainedTokens(s, h), map[]);
    SameMap(KeptGroups(s, h), map[]);
    EmptySet(UniqueIds(DiscoverySources(s, h, Some(guardian)), {}));
  }
}
