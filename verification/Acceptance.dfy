/** The default browser acceptance run: collection, the split into three roles, and what the executed
    role reports together prove. */
module Acceptance {
  import opened PyText
  import opened BrowserReport

  const CSP_FILE := "schema-csp.spec.ts"

  /** The literal inventories; whether a report was launched from the trusted fixture directory; and
      whether a negative control failed for its exact intended cause (error text, code frame, annotation
      and attachment). */
  datatype Contract = Contract(
    infraCases: seq<Row>, cspCases: seq<Row>, controls: set<Row>,
    fixtureRoot: Report -> bool, intendedCause: (Row, Test) -> bool)

  datatype Role = Application | Infra

  predicate InInfraFiles(c: Contract, file: string) {
    exists i :: 0 <= i < |c.infraCases| && c.infraCases[i].file == file
  }

  // ----- One test -----

  /** The test ran once, without retry. */
  predicate RanOnce(t: Test) {
    |t.results| == 1 && t.results[0].retry == Some(0)
  }

  predicate Passed(t: Test) {
    && t.expectedStatus == "passed" && t.status == "expected"
    && RanOnce(t) && t.results[0].status == "passed"
    && t.results[0].errors == 0 && !t.results[0].hasError
    && forall i | 0 <= i < |t.annotations| :: t.annotations[i] !in {"fail", "skip", "fixme"}
  }

  predicate FailedAsIntended(c: Contract, row: Row, t: Test) {
    && row in c.controls
    && RanOnce(t) && t.expectedStatus == "failed" && t.status == "expected" && t.results[0].status == "failed"
    && t.results[0].errors == 1 && c.intendedCause(row, t)
  }

  predicate Admitted(c: Contract, role: Role, row: Row, t: Test) {
    if role == Infra && row in c.controls then FailedAsIntended(c, row, t) else Passed(t)
  }

  // ----- One report -----

  /** A report with exactly the expected identities; an executed one also has every test admitted, and an
      executed infrastructure report comes from the trusted fixture directory. */
  predicate ReportValid(c: Contract, report: Report, expected: seq<Row>, role: Role, collection: bool) {
    var pairs := ReportRows(report);
    && pairs != [] && report.errors == 0
    && multiset(RowsOf(pairs)) == multiset(expected)
    && (!collection && role == Infra ==> c.fixtureRoot(report))
    && (!collection ==> forall i | 0 <= i < |pairs| :: Admitted(c, role, pairs[i].0, pairs[i].1))
  }

  // ----- Partition -----

  function Select(rows: seq<Row>, keep: Row -> bool): seq<Row> {
    if rows == [] then []
    else
      var before := Select(rows[..|rows| - 1], keep);
      if keep(rows[|rows| - 1]) then before + [rows[|rows| - 1]] else before
  }

  lemma {:induction false} SelectCounts(rows: seq<Row>, keep: Row -> bool, row: Row)
    ensures multiset(Select(rows, keep))[row] == if keep(row) then multiset(rows)[row] else 0
  {
    if rows != [] {
      SelectCounts(rows[..|rows| - 1], keep, row);
      assert rows == rows[..|rows| - 1] + [rows[|rows| - 1]];
    }
  }

  predicate IsInfra(c: Contract, row: Row) { InInfraFiles(c, row.file) }

  predicate IsCsp(row: Row) { row.file == CSP_FILE }

  datatype Roles = Roles(infra: seq<Row>, vite: seq<Row>, csp: seq<Row>)

  function Split(c: Contract, rows: seq<Row>): Roles {
    Roles(Select(rows, row => IsInfra(c, row)),
          Select(rows, row => !IsInfra(c, row) && !IsCsp(row)),
          Select(rows, row => IsCsp(row)))
  }

  predicate AllDistinct(rows: seq<Row>) {
    forall i, j | 0 <= i < j < |rows| :: rows[i] != rows[j]
  }

  /** The admission checks of `partition`. */
  predicate PartitionValid(c: Contract, rows: seq<Row>) {
    var r := Split(c, rows);
    && multiset(r.csp) == multiset(c.cspCases)
    && multiset(r.infra) == multiset(c.infraCases)
    && r.vite != [] && AllDistinct(rows)
    && multiset(r.infra + r.vite + r.csp) == multiset(rows)
  }

  /** How many of the three roles own the row. */
  function Owners(r: Roles, row: Row): nat {
    (if row in r.infra then 1 else 0) + (if row in r.vite then 1 else 0) + (if row in r.csp then 1 else 0)
  }

  lemma {:induction false} DistinctCounts(rows: seq<Row>, row: Row)
    requires AllDistinct(rows)
    ensures multiset(rows)[row] == if row in rows then 1 else 0
  {
    if rows != [] {
      var before, last := rows[..|rows| - 1], rows[|rows| - 1];
      DistinctCounts(before, row);
      assert rows == before + [last];
      assert row in before ==> row != last;
    }
  }

  /** The three roles partition the collection: every collected identity belongs to exactly one role. */
  lemma RolesPartition(c: Contract, rows: seq<Row>, row: Row)
    requires PartitionValid(c, rows)
    ensures Owners(Split(c, rows), row) == if row in rows then 1 else 0
    ensures multiset(Split(c, rows).infra)
         + multiset(Split(c, rows).vite) + multiset(Split(c, rows).csp) == multiset(rows)
  {
    var r := Split(c, rows);
    assert multiset(r.infra + r.vite + r.csp) == multiset(r.infra) + multiset(r.vite) + multiset(r.csp);
    DistinctCounts(rows, row);
    SelectCounts(rows, row => IsInfra(c, row), row);
    SelectCounts(rows, row => !IsInfra(c, row) && !IsCsp(row), row);
    SelectCounts(rows, row => IsCsp(row), row);
    assert multiset(r.infra)[row] + multiset(r.vite)[row] + multiset(r.csp)[row] == multiset(rows)[row];
  }

  // ----- The run -----

  /** What one child process left behind: its exit status and the report it wrote. */
  datatype Child = Child(code: int, report: Report)

  /** One CSP factory: its process, its workspace, and whether its shutdown was complete. */
  datatype Factory = Factory(pid: int, workspace: string, drained: bool)

  /** The host: `clock(0)` is read when the body budget starts and `clock(k + 1)` before the k-th role;
      `portFree(2 * k)` and `portFree(2 * k + 1)` are the listener-port probes around the k-th role, and
      `portFree(4)` the one before the production build. */
  datatype Host = Host(clock: nat -> real, portFree: nat -> bool)

  /** Everything the run reads from outside: four listings, the three role executions, the host, the
      factories of the CSP role, and whether the production build and its companion were in order. */
  datatype Surroundings = Surroundings(
    listing: Child, infraListing: Child, viteListing: Child, cspListing: Child,
    infraRun: Child, viteRun: Child, cspRun: Child,
    host: Host, factories: seq<Factory>, buildSound: bool)

  /** The default listing splits into three admitted roles, each confirmed by its own listing. */
  predicate CollectionValid(c: Contract, s: Surroundings) {
    var rows := RowsOf(ReportRows(s.listing.report));
    var r := Split(c, rows);
    && s.listing.code == 0 && s.listing.report.errors == 0 && PartitionValid(c, rows)
    && Listed(c, s.infraListing, r.infra) && Listed(c, s.viteListing, r.vite) && Listed(c, s.cspListing, r.csp)
  }

  /** Success gives three roles that partition the default listing: every listed identity is in exactly
      one of them, two are the literal inventories, and each role's own listing shows exactly its cases. */
  method Collect(c: Contract, s: Surroundings) returns (roles: Option<Roles>)
    ensures roles.Some? <==> CollectionValid(c, s)
    ensures roles.Some? ==> roles.value == Split(c, RowsOf(ReportRows(s.listing.report)))
    ensures roles.Some? ==> forall row ::
      Owners(roles.value, row) == if row in RowsOf(ReportRows(s.listing.report)) then 1 else 0
    ensures roles.Some? ==>
      && multiset(roles.value.infra) == multiset(c.infraCases) == multiset(RowsOf(ReportRows(s.infraListing.report)))
      && multiset(roles.value.csp) == multiset(c.cspCases) == multiset(RowsOf(ReportRows(s.cspListing.report)))
      && multiset(roles.value.vite) == multiset(RowsOf(ReportRows(s.viteListing.report))) && roles.value.vite != []
      && (forall child | child in {s.listing, s.infraListing, s.viteListing, s.cspListing} ::
            child.code == 0 && child.report.errors == 0)
  {
    if s.listing.code != 0 || s.listing.report.errors != 0 {
      return None;
    }
    var rows := RowsOf(ReportRows(s.listing.report));
    if !PartitionValid(c, rows) {
      return None;
    }
    var r := Split(c, rows);
    if !Listed(c, s.infraListing, r.infra) || !Listed(c, s.viteListing, r.vite) || !Listed(c, s.cspListing, r.csp) {
      return None;
    }
    forall row ensures Owners(r, row) == if row in rows then 1 else 0 {
      RolesPartition(c, rows, row);
    }
    roles := Some(r);
  }

  /** A role listing that succeeded and shows exactly the role's identities. */
  predicate Listed(c: Contract, child: Child, cases: seq<Row>) {
    child.code == 0 && ReportValid(c, child.report, cases, Application, true)
  }

  predicate Executed(c: Contract, child: Child, cases: seq<Row>, role: Role) {
    child.code == 0 && ReportValid(c, child.report, cases, role, false)
  }

  // ----- Roles within one budget -----

  const BODY_SECONDS: real := 1200.0

  /** One role to execute, with what its child process leaves behind. */
  datatype Job = Job(cases: seq<Row>, role: Role, child: Child)

  /** A child process was started at this clock reading with this much time. */
  datatype Dispatch = Dispatch(at: real, timeout: real)

  function Deadline(h: Host): real {
    h.clock(0) + BODY_SECONDS
  }

  /** The role came back with a free port and an admitted report. */
  predicate Admits(c: Contract, h: Host, jobs: seq<Job>, k: nat)
    requires k < |jobs|
  {
    h.portFree(2 * k + 1) && Executed(c, jobs[k].child, jobs[k].cases, jobs[k].role)
  }

  /** The role may be started: its port is free and there is time left. */
  predicate Startable(h: Host, k: nat) {
    h.portFree(2 * k) && h.clock(k + 1) < Deadline(h)
  }

  /** The roles in order within one body budget. Every role is started on a free port, with positive
      time and never more than is left until the one deadline; and only after the report of every
      earlier role was admitted. Success means that every role was started and admitted. */
  method RunBrowserRoles(c: Contract, h: Host, jobs: seq<Job>) returns (ok: bool, dispatched: seq<Dispatch>)
    ensures |dispatched| <= |jobs|
    ensures forall k | 0 <= k < |dispatched| ::
      h.portFree(2 * k) && dispatched[k].timeout > 0.0
      && dispatched[k].at == h.clock(k + 1) && dispatched[k].at + dispatched[k].timeout == Deadline(h)
    ensures forall k | 0 <= k < |dispatched| - 1 :: Admits(c, h, jobs, k)
    ensures ok <==> forall k | 0 <= k < |jobs| :: Startable(h, k) && Admits(c, h, jobs, k)
    ensures ok ==> |dispatched| == |jobs|
  {
    var deadline := h.clock(0) + BODY_SECONDS;
    ok, dispatched := false, [];
    for k := 0 to |jobs|
      invariant |dispatched| == k
      invariant forall j | 0 <= j < k ::
        h.portFree(2 * j) && dispatched[j].timeout > 0.0
        && dispatched[j].at == h.clock(j + 1) && dispatched[j].at + dispatched[j].timeout == deadline
      invariant forall j | 0 <= j < k :: Startable(h, j) && Admits(c, h, jobs, j)
    {
      assert Startable(h, k) <==> h.portFree(2 * k) && h.clock(k + 1) < deadline;
      if !h.portFree(2 * k) {
        return;
      }
      var remaining := deadline - h.clock(k + 1);
      if remaining <= 0.0 {
        return;
      }
      dispatched := dispatched + [Dispatch(h.clock(k + 1), remaining)];
      if !h.portFree(2 * k + 1) || jobs[k].child.code != 0
         || !ReportValid(c, jobs[k].child.report, jobs[k].cases, jobs[k].role, false) {
        return;
      }
    }
    ok := true;
  }

  /** Children that end within the time they were given, one after the other. */
  ghost predicate Honoured(h: Host, dispatched: seq<Dispatch>, ends: seq<real>) {
    && |ends| == |dispatched|
    && (forall k | 0 <= k < |ends| ::
          dispatched[k].at <= ends[k] <= dispatched[k].at + dispatched[k].timeout)
    && (forall k | 0 <= k < |ends| :: (if k == 0 then h.clock(0) else ends[k - 1]) <= dispatched[k].at)
  }

  /** How long the first `n` children ran in all. */
  function BodyTime(dispatched: seq<Dispatch>, ends: seq<real>, n: nat): real
    requires n <= |dispatched| == |ends|
  {
    if n == 0 then 0.0 else BodyTime(dispatched, ends, n - 1) + (ends[n - 1] - dispatched[n - 1].at)
  }

  lemma {:induction false} BodyTimeIsElapsed(h: Host, dispatched: seq<Dispatch>, ends: seq<real>, n: nat)
    requires Honoured(h, dispatched, ends) && n <= |ends|
    ensures BodyTime(dispatched, ends, n) <= (if n == 0 then 0.0 else ends[n - 1] - h.clock(0))
  {
    if n > 0 {
      BodyTimeIsElapsed(h, dispatched, ends, n - 1);
    }
  }

  /** The roles share one budget: with an executor that keeps to the timeouts, all of them together run
      for at most 1,200 seconds, and the last one ends by the deadline. */
  lemma RolesShareOneBudget(h: Host, dispatched: seq<Dispatch>, ends: seq<real>)
    requires Honoured(h, dispatched, ends)
    requires forall k | 0 <= k < |dispatched| :: dispatched[k].at + dispatched[k].timeout == Deadline(h)
    ensures BodyTime(dispatched, ends, |ends|) <= 1200.0
    ensures forall k | 0 <= k < |ends| :: ends[k] <= Deadline(h)
  {
    BodyTimeIsElapsed(h, dispatched, ends, |ends|);
  }

  // ----- Factories -----

  function Elements<T>(xs: seq<T>): set<T> {
    set x | x in xs
  }

  lemma {:induction false} ElementsBound<T>(xs: seq<T>)
    ensures |Elements(xs)| <= |xs|
  {
    if xs != [] {
      var before, last := xs[..|xs| - 1], xs[|xs| - 1];
      ElementsBound(before);
      assert Elements(xs) == Elements(before) + {last};
    }
  }

  /** A sequence has as many distinct elements as positions exactly when no element occurs twice. */
  lemma {:induction false} DistinctBySize<T>(xs: seq<T>)
    ensures |Elements(xs)| == |xs| <==> forall i, j | 0 <= i < j < |xs| :: xs[i] != xs[j]
  {
    if xs != [] {
      var before, last := xs[..|xs| - 1], xs[|xs| - 1];
      DistinctBySize(before);
      ElementsBound(before);
      assert Elements(xs) == Elements(before) + {last};
      if last in before {
        var i :| 0 <= i < |before| && before[i] == last;
        assert xs[i] == xs[|xs| - 1];
      } else {
        assert forall i | 0 <= i < |before| :: xs[i] == before[i] && xs[i] != last;
      }
    }
  }

  function Pids(fs: seq<Factory>): seq<int> {
    seq(|fs|, i requires 0 <= i < |fs| => fs[i].pid)
  }

  function Workspaces(fs: seq<Factory>): seq<string> {
    seq(|fs|, i requires 0 <= i < |fs| => fs[i].workspace)
  }

  /** One factory for each CSP case, counted as the run counts them. */
  predicate FactoriesSound(fs: seq<Factory>, cases: nat) {
    && |fs| == cases && |Elements(Pids(fs))| == cases && |Elements(Workspaces(fs))| == cases
    && forall i | 0 <= i < |fs| :: fs[i].drained
  }

  /** No two CSP cases shared a process or a workspace, and every factory drained. */
  ghost predicate FactoriesSeparate(fs: seq<Factory>) {
    && (forall i, j | 0 <= i < j < |fs| :: fs[i].pid != fs[j].pid && fs[i].workspace != fs[j].workspace)
    && (forall i | 0 <= i < |fs| :: fs[i].drained)
  }

  lemma FactoriesSoundIff(fs: seq<Factory>, cases: nat)
    ensures FactoriesSound(fs, cases) <==> |fs| == cases && FactoriesSeparate(fs)
  {
    DistinctBySize(Pids(fs));
    DistinctBySize(Workspaces(fs));
    assert forall i | 0 <= i < |fs| :: Pids(fs)[i] == fs[i].pid && Workspaces(fs)[i] == fs[i].workspace;
    if FactoriesSeparate(fs) {
      assert forall i, j | 0 <= i < j < |fs| :: Pids(fs)[i] != Pids(fs)[j] && Workspaces(fs)[i] != Workspaces(fs)[j];
    }
    if forall i, j | 0 <= i < j < |fs| :: Pids(fs)[i] != Pids(fs)[j] {
      if forall i, j | 0 <= i < j < |fs| :: Workspaces(fs)[i] != Workspaces(fs)[j] {
        forall i, j | 0 <= i < j < |fs| ensures fs[i].pid != fs[j].pid && fs[i].workspace != fs[j].workspace {
          assert Pids(fs)[i] != Pids(fs)[j] && Workspaces(fs)[i] != Workspaces(fs)[j];
        }
      }
    }
  }

  // ----- The default run -----

  /** The test was expected to pass and has one result, of the first try: passed, without any error, and
      without an annotation that would excuse it. */
  predicate CleanPass(t: Test) {
    && t.expectedStatus == "passed" && t.status == "expected" && |t.results| == 1
    && t.results[0] == Result("passed", Some(0), 0, false)
    && "fail" !in t.annotations && "skip" !in t.annotations && "fixme" !in t.annotations
  }

  /** The test was expected to fail and has one result, of the first try: failed, with one error, for the
      intended cause. */
  predicate IntendedFailure(c: Contract, row: Row, t: Test) {
    && t.expectedStatus == "failed" && t.status == "expected" && |t.results| == 1
    && t.results[0].status == "failed" && t.results[0].retry == Some(0) && t.results[0].errors == 1
    && c.intendedCause(row, t)
  }

  /** Every test of the role is a clean pass, except that the infrastructure role's controls failed as intended. */
  predicate AllSound(c: Contract, pairs: seq<(Row, Test)>, role: Role) {
    forall i | 0 <= i < |pairs| ::
      if role == Infra && pairs[i].0 in c.controls then IntendedFailure(c, pairs[i].0, pairs[i].1)
      else CleanPass(pairs[i].1)
  }

  lemma AdmittedIff(c: Contract, role: Role, row: Row, t: Test)
    ensures Admitted(c, role, row, t)
       <==> if role == Infra && row in c.controls then IntendedFailure(c, row, t) else CleanPass(t)
  {
    if "fail" in t.annotations || "skip" in t.annotations || "fixme" in t.annotations {
      var i :| 0 <= i < |t.annotations| && t.annotations[i] in {"fail", "skip", "fixme"};
    }
  }

  /** What an executed role report proves, exactly: status 0, no errors, exactly the role's identities and some,
      for the infrastructure role the trusted fixture directory, and every test sound. */
  lemma ExecutedIff(c: Contract, child: Child, cases: seq<Row>, role: Role)
    ensures Executed(c, child, cases, role)
       <==> && child.code == 0 && child.report.errors == 0 && ReportRows(child.report) != []
            && multiset(RowsOf(ReportRows(child.report))) == multiset(cases)
            && (role == Infra ==> c.fixtureRoot(child.report)) && AllSound(c, ReportRows(child.report), role)
  {
    var pairs := ReportRows(child.report);
    forall i | 0 <= i < |pairs|
      ensures Admitted(c, role, pairs[i].0, pairs[i].1)
         <==> if role == Infra && pairs[i].0 in c.controls then IntendedFailure(c, pairs[i].0, pairs[i].1)
              else CleanPass(pairs[i].1)
    {
      AdmittedIff(c, role, pairs[i].0, pairs[i].1);
    }
  }

  /** The pairs of the three executed role reports. */
  function ExecutedPairs(s: Surroundings): seq<(Row, Test)> {
    ReportRows(s.infraRun.report) + ReportRows(s.viteRun.report) + ReportRows(s.cspRun.report)
  }

  function BrowserJobs(s: Surroundings, r: Roles): seq<Job> {
    [Job(r.infra, Infra, s.infraRun), Job(r.vite, Application, s.viteRun)]
  }

  /** The default run without a case filter. Status 0 means that the executed identities are exactly the
      default collection, each one executed once by exactly one role with no retry, each one passed
      unless it is a negative control that failed for its intended cause, and every CSP case had a
      factory of its own. */
  method RunDefault(c: Contract, s: Surroundings) returns (code: int)
    ensures var r := Split(c, RowsOf(ReportRows(s.listing.report)));
      code == 0 <==>
        && CollectionValid(c, s) && s.buildSound && s.host.portFree(4)
        && (forall k | 0 <= k < 2 :: Startable(s.host, k) && Admits(c, s.host, BrowserJobs(s, r), k))
        && Executed(c, s.cspRun, r.csp, Application) && |s.factories| == |r.csp| && FactoriesSeparate(s.factories)
    ensures code == 0 ==>
      var rows := RowsOf(ReportRows(s.listing.report));
      && multiset(RowsOf(ExecutedPairs(s))) == multiset(rows)
      && AllDistinct(rows)
      && (forall row :: Owners(Split(c, rows), row) == if row in rows then 1 else 0)
      && AllSound(c, ReportRows(s.infraRun.report), Infra) && c.fixtureRoot(s.infraRun.report)
      && AllSound(c, ReportRows(s.viteRun.report), Application) && AllSound(c, ReportRows(s.cspRun.report), Application)
      && s.infraRun.report.errors == 0 && s.viteRun.report.errors == 0 && s.cspRun.report.errors == 0
  {
    code := 1;
    var roles := Collect(c, s);
    if roles.None? {
      return;
    }
    var jobs := BrowserJobs(s, roles.value);
    var ran, _ := RunBrowserRoles(c, s.host, jobs);
    FactoriesSoundIff(s.factories, |roles.value.csp|);
    if !ran || !s.host.portFree(4) || !s.buildSound || !Executed(c, s.cspRun, roles.value.csp, Application)
       || !FactoriesSound(s.factories, |roles.value.csp|) {
      return;
    }
    assert Admits(c, s.host, jobs, 0) && Admits(c, s.host, jobs, 1);
    ExecutedIsCollection(c, s, RowsOf(ReportRows(s.listing.report)), roles.value);
    code := 0;
  }

  lemma RowsOfConcat(a: seq<(Row, Test)>, b: seq<(Row, Test)>)
    ensures RowsOf(a + b) == RowsOf(a) + RowsOf(b)
  {
  }

  lemma ExecutedIsCollection(c: Contract, s: Surroundings, rows: seq<Row>, r: Roles)
    requires PartitionValid(c, rows) && r == Split(c, rows)
    requires Executed(c, s.infraRun, r.infra, Infra) && Executed(c, s.viteRun, r.vite, Application)
    requires Executed(c, s.cspRun, r.csp, Application)
    ensures multiset(RowsOf(ExecutedPairs(s))) == multiset(rows)
    ensures AllSound(c, ReportRows(s.infraRun.report), Infra) && c.fixtureRoot(s.infraRun.report)
    ensures AllSound(c, ReportRows(s.viteRun.report), Application)
    ensures AllSound(c, ReportRows(s.cspRun.report), Application)
    ensures s.infraRun.report.errors == 0 && s.viteRun.report.errors == 0 && s.cspRun.report.errors == 0
  {
    var a, b, d := ReportRows(s.infraRun.report), ReportRows(s.viteRun.report), ReportRows(s.cspRun.report);
    ExecutedIff(c, s.infraRun, r.infra, Infra);
    ExecutedIff(c, s.viteRun, r.vite, Application);
    ExecutedIff(c, s.cspRun, r.csp, Application);
    RowsOfConcat(a + b, d);
    RowsOfConcat(a, b);
    RolesPartition(c, rows, Row("", "", ""));
  }

  // ----- What the split is -----

  /** A row lives in a file of the infrastructure inventory. */
  predicate SharesFile(cases: seq<Row>, row: Row) {
    exists i :: 0 <= i < |cases| && cases[i].file == row.file
  }

  /** The split is admitted exactly when the listing repeats nothing, holds precisely the infrastructure inventory
      in its files and precisely the CSP inventory in the CSP file, no file is both, and something is left. */
  lemma PartitionIff(c: Contract, rows: seq<Row>)
    ensures PartitionValid(c, rows)
       <==> && AllDistinct(rows)
            && (forall row ::
                  multiset(c.infraCases)[row] == if SharesFile(c.infraCases, row) then multiset(rows)[row] else 0)
            && (forall row ::
                  multiset(c.cspCases)[row] == if row.file == "schema-csp.spec.ts" then multiset(rows)[row] else 0)
            && (forall row | row in rows :: !(SharesFile(c.infraCases, row) && row.file == "schema-csp.spec.ts"))
            && (exists row :: row in rows && !SharesFile(c.infraCases, row) && row.file != "schema-csp.spec.ts")
  {
    var r := Split(c, rows);
    forall row
      ensures multiset(r.infra)[row] == if SharesFile(c.infraCases, row) then multiset(rows)[row] else 0
      ensures multiset(r.csp)[row] == if row.file == "schema-csp.spec.ts" then multiset(rows)[row] else 0
      ensures multiset(r.vite)[row]
           == if SharesFile(c.infraCases, row) || row.file == "schema-csp.spec.ts" then 0 else multiset(rows)[row]
    {
      SelectCounts(rows, row => IsInfra(c, row), row);
      SelectCounts(rows, row => IsCsp(row), row);
      SelectCounts(rows, row => !IsInfra(c, row) && !IsCsp(row), row);
    }
    SameMultiset(r.infra, c.infraCases);
    SameMultiset(r.csp, c.cspCases);
    UnionIff(c, rows);
    SomethingLeft(c, rows);
  }

  lemma SameMultiset(a: seq<Row>, b: seq<Row>)
    ensures multiset(a) == multiset(b) <==> forall row :: multiset(a)[row] == multiset(b)[row]
  {
  }

  lemma UnionIff(c: Contract, rows: seq<Row>)
    ensures var r := Split(c, rows);
      multiset(r.infra + r.vite + r.csp) == multiset(rows)
      <==> forall row | row in rows :: !(IsInfra(c, row) && IsCsp(row))
  {
    var r := Split(c, rows);
    var all := r.infra + r.vite + r.csp;
    assert multiset(all) == multiset(r.infra) + multiset(r.vite) + multiset(r.csp);
    forall row
      ensures multiset(all)[row]
           == multiset(rows)[row] + (if IsInfra(c, row) && IsCsp(row) then multiset(rows)[row] else 0)
    {
      SelectCounts(rows, row => IsInfra(c, row), row);
      SelectCounts(rows, row => IsCsp(row), row);
      SelectCounts(rows, row => !IsInfra(c, row) && !IsCsp(row), row);
    }
    SameMultiset(all, rows);
  }

  lemma SomethingLeft(c: Contract, rows: seq<Row>)
    ensures Split(c, rows).vite != [] <==> exists row :: row in rows && !IsInfra(c, row) && !IsCsp(row)
  {
    var vite := Split(c, rows).vite;
    if vite != [] {
      SelectCounts(rows, row => !IsInfra(c, row) && !IsCsp(row), vite[0]);
      assert vite[0] in multiset(vite);
    }
    if exists row :: row in rows && !IsInfra(c, row) && !IsCsp(row) {
      var row :| row in rows && !IsInfra(c, row) && !IsCsp(row);
      SelectCounts(rows, row => !IsInfra(c, row) && !IsCsp(row), row);
      assert row in multiset(vite);
    }
  }
}
