/** Which processes belong to the backend: the loop-until-no-change expansion over parent, group and
    unique-id edges, and the reachability it computes. */
module Ownership {
  import opened PyText

  /** One process-table row. Linux rows carry no unique ids (0); an empty token was not sampled. */
  datatype Row = Row(pid: int, ppid: int, pgid: int, sid: int, startToken: string, uniqueId: int, parentUniqueId: int)

  datatype Relation = Parent | Group

  /** What one expansion starts from. `validates` is the relationship validator held fixed for the
      snapshot; it accepts everything when the caller supplies none. */
  datatype Sources = Sources(
    table: map<int, Row>,
    tracked: map<int, string>,
    guardian: Option<int>,
    groups: map<int, string>,
    ids: set<int>,
    validates: (Row, Row, Relation) -> bool)

  // ----- Seeds -----

  predicate Matches(row: Row, token: string) {
    row.startToken == "" || row.startToken == token
  }

  predicate TrackedMatch(i: Sources, p: int) {
    p in i.tracked && p in i.table && Matches(i.table[p], i.tracked[p])
  }

  predicate GuardianChild(i: Sources, p: int) {
    && i.guardian.Some? && p in i.table && i.table[p].ppid == i.guardian.value
    && var g := i.guardian.value;
    && (i.table[p].parentUniqueId != 0 ==> g in i.table && i.table[g].uniqueId == i.table[p].parentUniqueId)
    && (g in i.table ==> i.validates(i.table[p], i.table[g], Parent))
  }

  predicate TrackedLeader(i: Sources, pgid: int) {
    && pgid in i.groups && pgid in i.table
    && i.table[pgid].pid == i.table[pgid].pgid
    && Matches(i.table[pgid], i.groups[pgid])
  }

  // ----- The rules, against a set already owned -----

  predicate KnownUniqueParent(i: Sources, ids: set<int>, p: int)
    requires p in i.table
  {
    i.table[p].parentUniqueId != 0 && i.table[p].parentUniqueId in ids
  }

  predicate OwnedParent(i: Sources, owned: set<int>, p: int)
    requires p in i.table
  {
    && i.table[p].uniqueId == 0
    && i.table[p].ppid in i.table && i.table[p].ppid in owned
    && i.validates(i.table[p], i.table[i.table[p].ppid], Parent)
  }

  predicate OwnedGroup(i: Sources, groups: set<int>, p: int)
    requires p in i.table
  {
    && i.table[p].uniqueId == 0
    && i.table[p].pgid in i.table && i.table[p].pgid in groups
    && i.validates(i.table[p], i.table[i.table[p].pgid], Group)
  }

  predicate LeadsGroup(i: Sources, q: int, pgid: int) {
    q in i.table && i.table[q].pid == i.table[q].pgid && i.table[q].pgid == pgid
  }

  // ----- Derivations -----

  /** Owned without looking at any other owned process. */
  predicate Start(i: Sources, p: int) {
    && p in i.table
    && (|| TrackedMatch(i, p)
        || GuardianChild(i, p)
        || KnownUniqueParent(i, i.ids, p)
        || (TrackedLeader(i, i.table[p].pgid) && OwnedGroup(i, {i.table[p].pgid}, p)))
  }

  /** Owning `q` makes `p` owned. */
  predicate Edge(i: Sources, q: int, p: int) {
    && q in i.table && p in i.table
    && (|| (i.table[q].uniqueId != 0 && i.table[p].parentUniqueId == i.table[q].uniqueId)
        || (i.table[p].ppid == q && OwnedParent(i, {q}, p))
        || (LeadsGroup(i, q, i.table[p].pgid) && OwnedGroup(i, {i.table[p].pgid}, p)))
  }

  /** A derivation: it begins at a start and every further process follows from the one before. */
  ghost predicate Chain(i: Sources, c: seq<int>) {
    && |c| > 0 && Start(i, c[0])
    && forall k | 0 < k < |c| :: Edge(i, c[k - 1], c[k])
  }

  ghost predicate Derivable(i: Sources, p: int) {
    exists c :: Chain(i, c) && c[|c| - 1] == p
  }

  ghost function OwnedSet(i: Sources): set<int> {
    set p | p in i.table && Derivable(i, p)
  }

  function UniqueIds(i: Sources, owned: set<int>): set<int> {
    set p | p in owned && p in i.table && i.table[p].uniqueId != 0 :: i.table[p].uniqueId
  }

  function OwnedToken(i: Sources, p: int): string
    requires p in i.table
  {
    if TrackedMatch(i, p) then i.tracked[p] else i.table[p].startToken
  }

  lemma StartIsDerivable(i: Sources, p: int)
    requires Start(i, p)
    ensures Derivable(i, p)
  {
    assert Chain(i, [p]);
  }

  lemma EdgeIsDerivable(i: Sources, q: int, p: int)
    requires Derivable(i, q) && Edge(i, q, p)
    ensures Derivable(i, p)
  {
    var c :| Chain(i, c) && c[|c| - 1] == q;
    var d := c + [p];
    assert Chain(i, d) && d[|d| - 1] == p;
  }

  // ----- Least closed set -----

  ghost predicate Closed(i: Sources, owned: set<int>) {
    && (forall p | p in i.table && Start(i, p) :: p in owned)
    && (forall q, p | q in owned && Edge(i, q, p) :: p in owned)
  }

  lemma {:induction false} ClosedHoldsChain(i: Sources, owned: set<int>, c: seq<int>, k: nat)
    requires Closed(i, owned) && Chain(i, c) && k < |c|
    ensures c[k] in owned
  {
    if k > 0 {
      ClosedHoldsChain(i, owned, c, k - 1);
      assert Edge(i, c[k - 1], c[k]);
    }
  }

  /** The ownership rules, read off the rows. */
  ghost predicate RowClosed(i: Sources, owned: set<int>) {
    // A tracked process whose token is the sampled one, or was not sampled.
    && (forall p | p in i.table && p in i.tracked && i.table[p].startToken in {"", i.tracked[p]} :: p in owned)
    // A child of the guardian, by unique parent where there is one, confirmed if the guardian has a row.
    && (forall p | p in i.table && i.guardian == Some(i.table[p].ppid) ::
          var g := i.table[p].ppid;
          (&& (i.table[p].parentUniqueId == 0 || (g in i.table && i.table[g].uniqueId == i.table[p].parentUniqueId))
           && (g !in i.table || i.validates(i.table[p], i.table[g], Parent))) ==> p in owned)
    // A child of a unique process owned at some time.
    && (forall p | p in i.table && i.table[p].parentUniqueId != 0 && i.table[p].parentUniqueId in i.ids :: p in owned)
    && (forall p, q | p in i.table && q in i.table && q in owned ::
          i.table[q].uniqueId != 0 && i.table[p].parentUniqueId == i.table[q].uniqueId ==> p in owned)
    // Without a unique identity: a confirmed child of an owned process.
    && (forall p | p in i.table && i.table[p].uniqueId == 0 && i.table[p].ppid in i.table ::
          i.table[p].ppid in owned && i.validates(i.table[p], i.table[i.table[p].ppid], Parent) ==> p in owned)
    // Likewise a confirmed member of a group that an owned process leads.
    && (forall p, q | p in i.table && q in i.table && q in owned ::
          (&& i.table[p].uniqueId == 0 && i.table[q].pid == i.table[q].pgid == i.table[p].pgid
           && i.table[p].pgid in i.table && i.validates(i.table[p], i.table[i.table[p].pgid], Group)) ==> p in owned)
    // Likewise a confirmed member of a tracked group whose leader's token is the sampled one, or was not sampled.
    && (forall p | p in i.table && i.table[p].uniqueId == 0 && i.table[p].pgid in i.table ::
          var leader := i.table[i.table[p].pgid];
          (&& i.table[p].pgid in i.groups && leader.pid == leader.pgid
           && leader.startToken in {"", i.groups[i.table[p].pgid]}
           && i.validates(i.table[p], leader, Group)) ==> p in owned)
  }

  lemma ClosedIsRowClosed(i: Sources, owned: set<int>)
    requires Closed(i, owned)
    ensures RowClosed(i, owned)
  {
    forall p | p in i.table && i.table[p].uniqueId == 0 && i.table[p].ppid in i.table && i.table[p].ppid in owned
               && i.validates(i.table[p], i.table[i.table[p].ppid], Parent)
      ensures p in owned
    {
      assert Edge(i, i.table[p].ppid, p);
    }
  }

  lemma RowClosedIsClosed(i: Sources, owned: set<int>)
    requires RowClosed(i, owned)
    ensures Closed(i, owned)
  {
    forall p | p in i.table && Start(i, p) ensures p in owned {
      if TrackedMatch(i, p) {
        assert i.table[p].startToken in {"", i.tracked[p]};
      } else if GuardianChild(i, p) {
        assert i.guardian == Some(i.table[p].ppid);
      }
    }
  }

  /** The owned set is closed under the ownership rules and is contained in every set that is. */
  lemma OwnedSetIsLeast(i: Sources, other: set<int>)
    ensures RowClosed(i, OwnedSet(i))
    ensures RowClosed(i, other) ==> OwnedSet(i) <= other
  {
    DerivableIsLeast(i, other);
    ClosedIsRowClosed(i, OwnedSet(i));
    if RowClosed(i, other) {
      RowClosedIsClosed(i, other);
    }
  }

  lemma DerivableIsLeast(i: Sources, other: set<int>)
    ensures Closed(i, OwnedSet(i))
    ensures Closed(i, other) ==> OwnedSet(i) <= other
  {
    forall p | p in i.table && Start(i, p) ensures p in OwnedSet(i) {
      StartIsDerivable(i, p);
    }
    forall q, p | q in OwnedSet(i) && Edge(i, q, p) ensures p in OwnedSet(i) {
      EdgeIsDerivable(i, q, p);
    }
    if Closed(i, other) {
      forall p | p in OwnedSet(i) ensures p in other {
        var c :| Chain(i, c) && c[|c| - 1] == p;
        ClosedHoldsChain(i, other, c, |c| - 1);
      }
    }
  }

  // ----- The expansion -----

  /** Every row once, in the order the table is iterated. */
  ghost predicate Enumerates<T(!new)>(order: seq<int>, m: map<int, T>) {
    (forall k | 0 <= k < |order| :: order[k] in m) && (forall p | p in m :: p in order)
  }

  predicate Follows(i: Sources, owned: set<int>, groups: set<int>, ids: set<int>, p: int)
    requires p in i.table
  {
    KnownUniqueParent(i, ids, p) || OwnedParent(i, owned, p) || OwnedGroup(i, groups, p)
  }

  /** Progress of the expansion: everything owned so far is derivable, and the ids keep pace. */
  ghost predicate Sound(i: Sources, owned: map<int, string>, ids: set<int>) {
    && owned.Keys <= i.table.Keys
    && (forall p | p in owned :: Derivable(i, p) && owned[p] == OwnedToken(i, p))
    && ids == i.ids + UniqueIds(i, owned.Keys)
  }

  function CurrentGroups(i: Sources, owned: set<int>): set<int> {
    (set g | g in i.groups && TrackedLeader(i, g))
    + (set q | q in owned && q in i.table && i.table[q].pid == i.table[q].pgid :: i.table[q].pgid)
  }

  lemma FollowsIsDerivable(i: Sources, owned: map<int, string>, ids: set<int>, groups: set<int>, p: int)
    requires Sound(i, owned, ids) && groups <= CurrentGroups(i, owned.Keys)
    requires p in i.table && Follows(i, owned.Keys, groups, ids, p)
    ensures Derivable(i, p)
  {
    if KnownUniqueParent(i, i.ids, p) {
      StartIsDerivable(i, p);
    } else if KnownUniqueParent(i, ids, p) {
      var q :| q in owned && i.table[q].uniqueId != 0 && i.table[q].uniqueId == i.table[p].parentUniqueId;
      EdgeIsDerivable(i, q, p);
    } else if OwnedParent(i, owned.Keys, p) {
      EdgeIsDerivable(i, i.table[p].ppid, p);
    } else {
      var g := i.table[p].pgid;
      if TrackedLeader(i, g) {
        StartIsDerivable(i, p);
      } else {
        var q :| q in owned && LeadsGroup(i, q, g);
        EdgeIsDerivable(i, q, p);
      }
    }
  }

  lemma OwnedEdgeFollows(i: Sources, owned: map<int, string>, ids: set<int>, q: int, p: int)
    requires Sound(i, owned, ids) && q in owned && Edge(i, q, p)
    ensures Follows(i, owned.Keys, CurrentGroups(i, owned.Keys), ids, p)
  {
    if i.table[q].uniqueId != 0 && i.table[p].parentUniqueId == i.table[q].uniqueId {
      assert i.table[q].uniqueId in UniqueIds(i, owned.Keys);
    }
  }

  lemma UnseededStartFollows(i: Sources, owned: map<int, string>, ids: set<int>, p: int)
    requires Sound(i, owned, ids) && Start(i, p) && !TrackedMatch(i, p) && !GuardianChild(i, p)
    ensures Follows(i, owned.Keys, CurrentGroups(i, owned.Keys), ids, p)
  {
  }

  /** When no unowned row follows any more, the owned set is closed. */
  lemma QuietIsClosed(i: Sources, owned: map<int, string>, ids: set<int>)
    requires Sound(i, owned, ids)
    requires forall p | p in i.table && (TrackedMatch(i, p) || GuardianChild(i, p)) :: p in owned
    requires forall p | p in i.table && Follows(i, owned.Keys, CurrentGroups(i, owned.Keys), ids, p) :: p in owned
    ensures Closed(i, owned.Keys)
  {
    forall p | p in i.table && Start(i, p) ensures p in owned {
      if !TrackedMatch(i, p) && !GuardianChild(i, p) {
        UnseededStartFollows(i, owned, ids, p);
      }
    }
    forall q, p | q in owned && Edge(i, q, p) ensures p in owned {
      OwnedEdgeFollows(i, owned, ids, q, p);
    }
  }

  /** So it is then exactly the set of derivable processes. */
  lemma QuietIsOwned(i: Sources, owned: map<int, string>, ids: set<int>)
    requires Sound(i, owned, ids)
    requires forall p | p in i.table && (TrackedMatch(i, p) || GuardianChild(i, p)) :: p in owned
    requires forall p | p in i.table && Follows(i, owned.Keys, CurrentGroups(i, owned.Keys), ids, p) :: p in owned
    ensures owned.Keys == OwnedSet(i)
  {
    QuietIsClosed(i, owned, ids);
    DerivableIsLeast(i, owned.Keys);
  }

  lemma AddedIds(i: Sources, owned: set<int>, p: int)
    requires p in i.table
    ensures UniqueIds(i, owned + {p})
         == UniqueIds(i, owned) + if i.table[p].uniqueId != 0 then {i.table[p].uniqueId} else {}
  {
  }

  /** Adding one derivable row keeps the progress invariant. */
  lemma Added(i: Sources, owned: map<int, string>, ids: set<int>, p: int)
    requires Sound(i, owned, ids) && p in i.table && Derivable(i, p)
    ensures Sound(i, owned[p := OwnedToken(i, p)],
                  if i.table[p].uniqueId != 0 then ids + {i.table[p].uniqueId} else ids)
  {
    assert owned[p := OwnedToken(i, p)].Keys == owned.Keys + {p};
    AddedIds(i, owned.Keys, p);
  }

  lemma PrefixGrows(order: seq<int>, k: nat)
    requires k < |order|
    ensures forall p :: p in order[..k + 1] <==> p in order[..k] || p == order[k]
  {
    assert order[..k + 1] == order[..k] + [order[k]];
  }

  method SeedTracked(i: Sources, order: seq<int>) returns (owned: map<int, string>, ids: set<int>)
    requires Enumerates(order, i.tracked)
    ensures Sound(i, owned, ids)
    ensures forall p :: p in owned <==> TrackedMatch(i, p)
  {
    owned, ids := map[], i.ids;
    assert UniqueIds(i, owned.Keys) == {};
    for k := 0 to |order|
      invariant Sound(i, owned, ids)
      invariant forall p :: p in owned <==> TrackedMatch(i, p) && p in order[..k]
    {
      var p := order[k];
      PrefixGrows(order, k);
      if p in i.table && Matches(i.table[p], i.tracked[p]) {
        StartIsDerivable(i, p);
        Added(i, owned, ids, p);
        owned := owned[p := i.tracked[p]];
        if i.table[p].uniqueId != 0 {
          ids := ids + {i.table[p].uniqueId};
        }
      }
    }
    assert order[..|order|] == order;
  }

  method SeedChildren(i: Sources, order: seq<int>, seeded: map<int, string>, seededIds: set<int>)
    returns (owned: map<int, string>, ids: set<int>)
    requires Enumerates(order, i.table) && Sound(i, seeded, seededIds)
    requires forall p | p in i.table && TrackedMatch(i, p) :: p in seeded
    ensures Sound(i, owned, ids)
    ensures forall p | p in i.table && (TrackedMatch(i, p) || GuardianChild(i, p)) :: p in owned
  {
    owned, ids := seeded, seededIds;
    for k := 0 to |order|
      invariant Sound(i, owned, ids)
      invariant seeded.Keys <= owned.Keys
      invariant forall p | p in order[..k] && GuardianChild(i, p) :: p in owned
    {
      var p := order[k];
      if GuardianChild(i, p) {
        StartIsDerivable(i, p);
        Added(i, owned, ids, p);
        assert p in owned ==> owned[p := OwnedToken(i, p)] == owned;
        if p !in owned {
          owned := owned[p := i.table[p].startToken];
        }
        if i.table[p].uniqueId != 0 {
          ids := ids + {i.table[p].uniqueId};
        }
      }
      assert order[..k + 1] == order[..k] + [p];
    }
    assert order[..|order|] == order;
  }

  /** One pass over the table. Rows found during the pass count at once as parents and unique
      parents; group leaders found during it count from the next pass on. */
  method Sweep(i: Sources, order: seq<int>, owned0: map<int, string>, ids0: set<int>)
    returns (owned: map<int, string>, ids: set<int>, changed: bool)
    requires Enumerates(order, i.table) && Sound(i, owned0, ids0)
    requires forall p | p in i.table && TrackedMatch(i, p) :: p in owned0
    ensures Sound(i, owned, ids) && owned0.Keys <= owned.Keys
    ensures !changed ==> owned == owned0 && ids == ids0
    ensures !changed ==>
      forall p | p in i.table && Follows(i, owned.Keys, CurrentGroups(i, owned.Keys), ids, p) :: p in owned
    ensures changed ==> owned0.Keys < owned.Keys
  {
    owned, ids, changed := owned0, ids0, false;
    var groups := CurrentGroups(i, owned.Keys);
    for k := 0 to |order|
      invariant Sound(i, owned, ids) && owned0.Keys <= owned.Keys
      invariant changed ==> owned0.Keys < owned.Keys
      invariant !changed ==> owned == owned0 && ids == ids0
      invariant !changed ==> forall p | p in order[..k] && Follows(i, owned.Keys, groups, ids, p) :: p in owned
    {
      var p := order[k];
      if p !in owned && Follows(i, owned.Keys, groups, ids, p) {
        FollowsIsDerivable(i, owned, ids, groups, p);
        Added(i, owned, ids, p);
        owned := owned[p := i.table[p].startToken];
        if i.table[p].uniqueId != 0 {
          ids := ids + {i.table[p].uniqueId};
        }
        changed := true;
      }
      assert order[..k + 1] == order[..k] + [p];
    }
    assert order[..|order|] == order;
  }

  /** Discovery terminates and, in whatever order the dictionaries are iterated, owns exactly the derivable
      processes: the least set closed under the ownership rules. The historical ids grow by exactly theirs. */
  method Discover(i: Sources, trackedOrder: seq<int>, tableOrder: seq<int>)
    returns (owned: map<int, string>, ids: set<int>)
    requires Enumerates(trackedOrder, i.tracked) && Enumerates(tableOrder, i.table)
    ensures owned.Keys == OwnedSet(i)
    ensures forall p | p in owned ::
      owned[p] == if p in i.tracked && i.table[p].startToken in {"", i.tracked[p]} then i.tracked[p]
                  else i.table[p].startToken
    ensures ids == i.ids + UniqueIds(i, OwnedSet(i))
  {
    owned, ids := SeedTracked(i, trackedOrder);
    owned, ids := SeedChildren(i, tableOrder, owned, ids);
    var changed := true;
    while changed
      invariant Sound(i, owned, ids)
      invariant forall p | p in i.table && (TrackedMatch(i, p) || GuardianChild(i, p)) :: p in owned
      invariant !changed ==>
        forall p | p in i.table && Follows(i, owned.Keys, CurrentGroups(i, owned.Keys), ids, p) :: p in owned
      decreases changed, i.table.Keys - owned.Keys
    {
      owned, ids, changed := Sweep(i, tableOrder, owned, ids);
    }
    QuietIsOwned(i, owned, ids);
  }
}
