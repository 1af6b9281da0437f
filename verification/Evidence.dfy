/** Projection of test evidence to numbers: what an accepted JUnit tree, an accepted browser report and
    a valid projection say about the evidence they were counted from. */
module Evidence {
  import opened PyText
  import opened BrowserReport
  import Acceptance

  /** `expectedFailed` is 0 for JUnit reports, which have no negative controls. */
  datatype Counts = Counts(tests: nat, passed: int, failed: nat, expectedFailed: nat, errors: nat, skipped: nat)

  function CountIf<T>(xs: seq<T>, p: T -> bool): (n: nat)
    ensures n <= |xs|
  {
    if xs == [] then 0
    else CountIf(xs[..|xs| - 1], p) + if p(xs[|xs| - 1]) then 1 else 0
  }

  lemma {:induction false} CountIfExclusive<T>(xs: seq<T>, p: T -> bool, q: T -> bool, r: T -> bool)
    requires forall i | 0 <= i < |xs| ::
      (if p(xs[i]) then 1 else 0) + (if q(xs[i]) then 1 else 0) + (if r(xs[i]) then 1 else 0) <= 1
    ensures CountIf(xs, p) + CountIf(xs, q) + CountIf(xs, r) <= |xs|
  {
    if xs != [] {
      CountIfExclusive(xs[..|xs| - 1], p, q, r);
    }
  }

  // ----- JUnit trees -----

  datatype Node = Node(tag: string, attributes: map<string, string>, children: seq<Node>)

  const OUTCOMES := ["failure", "error", "skipped"]

  /** How many elements with this tag the tree holds, itself included. */
  function CountTag(n: Node, tag: string): nat
    decreases n
  {
    (if n.tag == tag then 1 else 0) + CountTags(n.children, tag)
  }

  function CountTags(nodes: seq<Node>, tag: string): nat
    decreases nodes
  {
    if nodes == [] then 0 else CountTag(nodes[0], tag) + CountTags(nodes[1..], tag)
  }

  /** Every element of the tree with this tag, in document order, itself included. */
  function Collected(n: Node, tag: string): seq<Node>
    decreases n
  {
    (if n.tag == tag then [n] else []) + CollectedIn(n.children, tag)
  }

  function CollectedIn(nodes: seq<Node>, tag: string): seq<Node>
    decreases nodes
  {
    if nodes == [] then [] else Collected(nodes[0], tag) + CollectedIn(nodes[1..], tag)
  }

  /** Direct children with this tag. */
  function Direct(n: Node, tag: string): nat {
    CountIf(n.children, (child: Node) => child.tag == tag)
  }

  function SumDirect(cases: seq<Node>, tag: string): nat {
    if cases == [] then 0 else SumDirect(cases[..|cases| - 1], tag) + Direct(cases[|cases| - 1], tag)
  }

  predicate OneOutcome(testcase: Node) {
    Direct(testcase, "failure") + Direct(testcase, "error") + Direct(testcase, "skipped") <= 1
  }

  predicate IsDigits(s: string) {
    s != "" && forall i | 0 <= i < |s| :: IsDigit(s[i])
  }

  function ActualCount(cases: seq<Node>, key: string, tag: string): nat {
    if key == "tests" then |cases| else SumDirect(cases, tag)
  }

  /** One declared total, if present, is the actual one, and no such element hides outside the cases. */
  predicate TotalHolds(n: Node, key: string, tag: string) {
    var count := ActualCount(Collected(n, "testcase"), key, tag);
    && (key in n.attributes ==> IsDigits(n.attributes[key]) && NumeralValue(n.attributes[key]) == count)
    && CountTag(n, tag) == count
  }

  predicate SuiteHolds(n: Node, isRoot: bool) {
    && ("tests" in n.attributes || (isRoot && n.tag == "testsuites" && Direct(n, "testsuite") > 0))
    && TotalHolds(n, "tests", "testcase") && TotalHolds(n, "failures", "failure")
    && TotalHolds(n, "errors", "error") && TotalHolds(n, "skipped", "skipped")
  }

  predicate JunitAccepted(root: Node) {
    && root.tag in {"testsuites", "testsuite"}
    && Collected(root, "testcase") != []
    && (forall i | 0 <= i < |Collected(root, "testcase")| :: OneOutcome(Collected(root, "testcase")[i]))
    && SuiteHolds(root, true)
    && (forall i | 0 <= i < |CollectedIn(root.children, "testsuite")| ::
          SuiteHolds(CollectedIn(root.children, "testsuite")[i], false))
  }

  function WithOutcome(cases: seq<Node>, tag: string): nat {
    CountIf(cases, (testcase: Node) => Direct(testcase, tag) > 0)
  }

  /** `junit_counts`, on a parsed tree; `None` is the refusal. */
  function JunitCounts(root: Node): Option<Counts> {
    if !JunitAccepted(root) then None
    else
      var cases := Collected(root, "testcase");
      var failed, errors, skipped :=
        WithOutcome(cases, "failure"), WithOutcome(cases, "error"), WithOutcome(cases, "skipped");
      Some(Counts(|cases|, |cases| - failed - errors - skipped, failed, 0, errors, skipped))
  }

  /** Where no case has two outcomes, counting elements and counting cases is the same. */
  lemma {:induction false} SumIsCases(cases: seq<Node>, tag: string)
    requires tag in OUTCOMES && forall i | 0 <= i < |cases| :: OneOutcome(cases[i])
    ensures SumDirect(cases, tag) == WithOutcome(cases, tag)
  {
    if cases != [] {
      SumIsCases(cases[..|cases| - 1], tag);
    }
  }

  /** An accepted tree conserves outcomes: the counts add up with a non-negative number of passes, and
      every failure, error or skip element anywhere in the tree is one of the counted ones. */
  lemma JunitConserves(root: Node)
    requires JunitCounts(root).Some?
    ensures var c := JunitCounts(root).value;
      && c.tests == c.passed + c.failed + c.errors + c.skipped && c.passed >= 0
      && c.tests == CountTag(root, "testcase") && c.failed == CountTag(root, "failure")
      && c.errors == CountTag(root, "error") && c.skipped == CountTag(root, "skipped")
  {
    var cases := Collected(root, "testcase");
    SumIsCases(cases, "failure");
    SumIsCases(cases, "error");
    SumIsCases(cases, "skipped");
    CountIfExclusive(cases, (n: Node) => Direct(n, "failure") > 0, (n: Node) => Direct(n, "error") > 0,
                     (n: Node) => Direct(n, "skipped") > 0);
  }

  /** Counting elements and collecting them is the same. */
  lemma {:induction false} CountIsCollected(n: Node, tag: string)
    ensures CountTag(n, tag) == |Collected(n, tag)|
    decreases n
  {
    CountsAreCollected(n.children, tag);
  }

  lemma {:induction false} CountsAreCollected(nodes: seq<Node>, tag: string)
    ensures CountTags(nodes, tag) == |CollectedIn(nodes, tag)|
    decreases nodes
  {
    if nodes != [] {
      CountIsCollected(nodes[0], tag);
      CountsAreCollected(nodes[1..], tag);
    }
  }

  /** The element occurs in the tree at some depth. */
  ghost predicate Occurs(n: Node, element: Node)
    decreases n
  {
    n == element || exists k :: 0 <= k < |n.children| && Occurs(n.children[k], element)
  }

  /** Collecting finds exactly the elements with the tag, at any depth. */
  lemma {:induction false} CollectedOccurs(n: Node, tag: string, element: Node)
    ensures element in Collected(n, tag) <==> Occurs(n, element) && element.tag == tag
    decreases n
  {
    CollectedInOccurs(n.children, tag, element);
  }

  lemma {:induction false} CollectedInOccurs(nodes: seq<Node>, tag: string, element: Node)
    ensures element in CollectedIn(nodes, tag)
       <==> element.tag == tag && exists k :: 0 <= k < |nodes| && Occurs(nodes[k], element)
    decreases nodes
  {
    if nodes != [] {
      CollectedOccurs(nodes[0], tag, element);
      CollectedInOccurs(nodes[1..], tag, element);
      if exists k :: 0 < k < |nodes| && Occurs(nodes[k], element) {
        var k :| 0 < k < |nodes| && Occurs(nodes[k], element);
        assert nodes[1..][k - 1] == nodes[k];
      }
      if exists k :: 0 <= k < |nodes[1..]| && Occurs(nodes[1..][k], element) {
        var k :| 0 <= k < |nodes[1..]| && Occurs(nodes[1..][k], element);
        assert nodes[k + 1] == nodes[1..][k];
      }
    }
  }

  /** How many failures, errors and skips a case has. */
  function Outcomes(testcase: Node): nat {
    CountIf(testcase.children, (n: Node) => n.tag == "failure" || n.tag == "error" || n.tag == "skipped")
  }

  lemma {:induction false} OutcomesAre(children: seq<Node>)
    ensures CountIf(children, (n: Node) => n.tag == "failure" || n.tag == "error" || n.tag == "skipped")
         == CountIf(children, (n: Node) => n.tag == "failure") + CountIf(children, (n: Node) => n.tag == "error")
            + CountIf(children, (n: Node) => n.tag == "skipped")
  {
    if children != [] {
      OutcomesAre(children[..|children| - 1]);
    }
  }

  lemma OutcomesAreDirect(testcase: Node)
    ensures Outcomes(testcase) == Direct(testcase, "failure") + Direct(testcase, "error") + Direct(testcase, "skipped")
  {
    OutcomesAre(testcase.children);
    SameCount(testcase.children, (n: Node) => n.tag == "failure", (n: Node) => n.tag == "failure");
    DirectTag(testcase, "failure", (n: Node) => n.tag == "failure");
    DirectTag(testcase, "error", (n: Node) => n.tag == "error");
    DirectTag(testcase, "skipped", (n: Node) => n.tag == "skipped");
    SameCount(testcase.children, (n: Node) => n.tag == "failure" || n.tag == "error" || n.tag == "skipped",
              (n: Node) => n.tag == "failure" || n.tag == "error" || n.tag == "skipped");
  }

  lemma DirectTag(testcase: Node, tag: string, p: Node -> bool)
    requires forall n: Node :: p(n) <==> n.tag == tag
    ensures Direct(testcase, tag) == CountIf(testcase.children, p)
  {
    SameCount(testcase.children, (child: Node) => child.tag == tag, p);
  }

  /** A total of the suite holds: declared in digits, it is the number of cases below with that outcome; and
      nothing with that tag is anywhere below but those outcomes. */
  predicate TotalIs(suite: Node, key: string, tag: string, count: nat) {
    && (key in suite.attributes ==> IsDigits(suite.attributes[key]) && NumeralValue(suite.attributes[key]) == count)
    && CountTag(suite, tag) == count
  }

  predicate SuiteIs(suite: Node) {
    var cases := Collected(suite, "testcase");
    && TotalIs(suite, "tests", "testcase", |cases|)
    && TotalIs(suite, "failures", "failure", WithOutcome(cases, "failure"))
    && TotalIs(suite, "errors", "error", WithOutcome(cases, "error"))
    && TotalIs(suite, "skipped", "skipped", WithOutcome(cases, "skipped"))
  }

  /** A tree is accepted exactly when it is rooted in a suite, holds a case, gives no case two outcomes, and
      every total of the root and of every suite in it is right and, but for a root that only groups
      suites, says how many cases there are. */
  lemma JunitAcceptedIff(root: Node)
    ensures JunitAccepted(root)
       <==> && (root.tag == "testsuites" || root.tag == "testsuite") && CountTag(root, "testcase") > 0
            && (forall testcase | testcase in Collected(root, "testcase") :: Outcomes(testcase) <= 1)
            && (forall i | 0 <= i < |Suites(root)| ::
                  && SuiteIs(Suites(root)[i])
                  && ("tests" in Suites(root)[i].attributes
                      || (i == 0 && root.tag == "testsuites" && Direct(root, "testsuite") > 0)))
  {
    CountIsCollected(root, "testcase");
    forall testcase ensures Outcomes(testcase) <= 1 <==> OneOutcome(testcase) {
      OutcomesAreDirect(testcase);
    }
    CasesIff(root);
    AllSuitesHold(root);
    if forall testcase | testcase in Collected(root, "testcase") :: OneOutcome(testcase) {
      forall i | 0 <= i < |Suites(root)|
        ensures SuiteHolds(Suites(root)[i], i == 0)
           <==> && SuiteIs(Suites(root)[i])
                && ("tests" in Suites(root)[i].attributes
                    || (i == 0 && root.tag == "testsuites" && Direct(root, "testsuite") > 0))
      {
        SuiteHoldsIff(root, i);
      }
    }
  }

  lemma CasesIff(root: Node)
    ensures (forall i | 0 <= i < |Collected(root, "testcase")| :: OneOutcome(Collected(root, "testcase")[i]))
       <==> forall testcase | testcase in Collected(root, "testcase") :: OneOutcome(testcase)
  {
  }

  lemma AllSuitesHold(root: Node)
    ensures JunitAccepted(root)
       <==> && root.tag in {"testsuites", "testsuite"} && Collected(root, "testcase") != []
            && (forall i | 0 <= i < |Collected(root, "testcase")| :: OneOutcome(Collected(root, "testcase")[i]))
            && (forall i | 0 <= i < |Suites(root)| :: SuiteHolds(Suites(root)[i], i == 0))
  {
    var below := CollectedIn(root.children, "testsuite");
    assert forall i | 0 <= i < |below| :: Suites(root)[i + 1] == below[i];
    assert forall i | 0 < i < |Suites(root)| :: Suites(root)[i] == below[i - 1];
    assert Suites(root)[0] == root;
  }

  lemma SuiteHoldsIff(root: Node, i: nat)
    requires i < |Suites(root)| && forall testcase | testcase in Collected(root, "testcase") :: OneOutcome(testcase)
    ensures var suite := Suites(root)[i];
      SuiteHolds(suite, i == 0)
      <==> SuiteIs(suite)
           && ("tests" in suite.attributes || (i == 0 && root.tag == "testsuites" && Direct(root, "testsuite") > 0))
  {
    var suite := Suites(root)[i];
    var cases := Collected(suite, "testcase");
    forall k | 0 <= k < |cases| ensures OneOutcome(cases[k]) {
      if i > 0 {
        SuiteCasesIn(root.children, "testcase", suite, cases[k]);
      }
      assert cases[k] in Collected(root, "testcase");
    }
    SumIsCases(cases, "failure");
    SumIsCases(cases, "error");
    SumIsCases(cases, "skipped");
  }

  /** The root and every suite below it. */
  function Suites(root: Node): seq<Node> {
    [root] + CollectedIn(root.children, "testsuite")
  }

  /** Every case below a suite is a case of the whole tree. */
  lemma {:induction false} SuiteCasesAreCases(n: Node, tag: string, suite: Node, testcase: Node)
    requires suite in Collected(n, "testsuite") && testcase in Collected(suite, tag)
    ensures testcase in Collected(n, tag)
    decreases n
  {
    if suite != n {
      SuiteCasesIn(n.children, tag, suite, testcase);
    }
  }

  lemma {:induction false} SuiteCasesIn(nodes: seq<Node>, tag: string, suite: Node, testcase: Node)
    requires suite in CollectedIn(nodes, "testsuite") && testcase in Collected(suite, tag)
    ensures testcase in CollectedIn(nodes, tag)
    decreases nodes
  {
    if suite in Collected(nodes[0], "testsuite") {
      SuiteCasesAreCases(nodes[0], tag, suite, testcase);
    } else {
      SuiteCasesIn(nodes[1..], tag, suite, testcase);
    }
  }

  /** In an accepted tree every total declared by the root or by any suite is the number of cases below it
      that have that outcome; only a root that merely groups suites may leave its total out. */
  lemma DeclaredTotalsAreActual(root: Node, i: nat)
    requires JunitAccepted(root) && i < |Suites(root)|
    ensures var suite := Suites(root)[i];
      var cases := Collected(suite, "testcase");
      && ("tests" in suite.attributes || (i == 0 && root.tag == "testsuites" && Direct(root, "testsuite") > 0))
      && ("tests" in suite.attributes ==> NumeralValue(suite.attributes["tests"]) == |cases|)
      && ("failures" in suite.attributes ==>
            NumeralValue(suite.attributes["failures"]) == WithOutcome(cases, "failure"))
      && ("errors" in suite.attributes ==> NumeralValue(suite.attributes["errors"]) == WithOutcome(cases, "error"))
      && ("skipped" in suite.attributes ==> NumeralValue(suite.attributes["skipped"]) == WithOutcome(cases, "skipped"))
  {
    var suite := Suites(root)[i];
    var cases := Collected(suite, "testcase");
    assert SuiteHolds(suite, i == 0);
    forall k | 0 <= k < |cases| ensures OneOutcome(cases[k]) {
      if i > 0 {
        SuiteCasesIn(root.children, "testcase", suite, cases[k]);
      }
      assert cases[k] in Collected(root, "testcase");
    }
    SumIsCases(cases, "failure");
    SumIsCases(cases, "error");
    SumIsCases(cases, "skipped");
  }

  // ----- Browser reports -----

  const FAILED: set<string> := {"failed", "timedOut", "interrupted"}

  predicate TestConsistent(t: Test) {
    && Acceptance.RanOnce(t)
    && (t.results[0].status in {"passed", "skipped"} || t.results[0].status in FAILED)
    && (t.results[0].status == "passed" ==> !t.results[0].hasError && t.results[0].errors == 0)
    && t.status in {"expected", "unexpected", "flaky", "skipped"}
  }

  function StatusCount(tests: seq<Test>, statuses: set<string>): nat {
    CountIf(tests, (t: Test) => |t.results| == 1 && t.results[0].status in statuses)
  }

  function CategoryCount(tests: seq<Test>, category: string): nat {
    CountIf(tests, (t: Test) => t.status == category)
  }

  predicate StatsHold(report: Report, tests: seq<Test>) {
    forall key | key in {"expected", "unexpected", "flaky", "skipped"} ::
      key in report.stats && 0 <= report.stats[key] <= 1_000_000 && report.stats[key] == CategoryCount(tests, key)
  }

  /** Infrastructure reports come from the trusted fixture directory and hold exactly the literal inventory,
      with every control failing as intended
      and everything else expected to pass; other reports expect no failure at all. */
  predicate ExpectationsHold(c: Acceptance.Contract, report: Report, infrastructure: bool) {
    var pairs := ReportRows(report);
    if infrastructure then
      && c.fixtureRoot(report)
      && multiset(RowsOf(pairs)) == multiset(c.infraCases)
      && (forall i | 0 <= i < |pairs| ::
            if pairs[i].0 in c.controls then Acceptance.FailedAsIntended(c, pairs[i].0, pairs[i].1)
            else pairs[i].1.expectedStatus == "passed")
      && ExpectedFailed(c, report, true) == |c.controls|
    else
      forall i | 0 <= i < |SuitesTests(report.suites)| :: SuitesTests(report.suites)[i].expectedStatus != "failed"
  }

  function ExpectedFailed(c: Acceptance.Contract, report: Report, infrastructure: bool): nat {
    if infrastructure then CountIf(ReportRows(report), (pair: (Row, Test)) => pair.0 in c.controls) else 0
  }

  predicate BrowserAccepted(c: Acceptance.Contract, report: Report, infrastructure: bool) {
    var tests := SuitesTests(report.suites);
    && tests != []
    && ExpectationsHold(c, report, infrastructure)
    && (forall i | 0 <= i < |tests| :: TestConsistent(tests[i]))
    && StatsHold(report, tests)
  }

  function StatusCounts(report: Report, tests: seq<Test>, expectedFailed: nat): Counts {
    Counts(|tests|, StatusCount(tests, {"passed"}), StatusCount(tests, FAILED), expectedFailed, report.errors,
           StatusCount(tests, {"skipped"}))
  }

  function BrowserCounts(c: Acceptance.Contract, report: Report, infrastructure: bool): Option<Counts> {
    if !BrowserAccepted(c, report, infrastructure) then None
    else Some(StatusCounts(report, SuitesTests(report.suites), ExpectedFailed(c, report, infrastructure)))
  }

  /** Both counters are exact for every key. */
  ghost predicate Tallied(tests: seq<Test>, outcomes: multiset<string>, categories: multiset<string>) {
    forall s :: outcomes[s] == StatusCount(tests, {s}) && categories[s] == CategoryCount(tests, s)
  }

  lemma TallyNext(tests: seq<Test>, t: Test, outcomes: multiset<string>, categories: multiset<string>)
    requires |t.results| == 1 && Tallied(tests, outcomes, categories)
    ensures Tallied(tests + [t], outcomes + multiset{t.results[0].status}, categories + multiset{t.status})
  {
    var more := tests + [t];
    assert more[..|more| - 1] == tests;
    forall s
      ensures StatusCount(more, {s}) == StatusCount(tests, {s}) + (if t.results[0].status == s then 1 else 0)
      ensures CategoryCount(more, s) == CategoryCount(tests, s) + (if t.status == s then 1 else 0)
    {
    }
  }

  /** The counting loop: every test is consistent, and the two counters hold its status and category. */
  method TallyTests(tests: seq<Test>) returns (ok: bool, outcomes: multiset<string>, categories: multiset<string>)
    ensures ok <==> forall i | 0 <= i < |tests| :: TestConsistent(tests[i])
    ensures ok ==> Tallied(tests, outcomes, categories)
  {
    outcomes, categories := multiset{}, multiset{};
    for k := 0 to |tests|
      invariant forall i | 0 <= i < k :: TestConsistent(tests[i])
      invariant Tallied(tests[..k], outcomes, categories)
    {
      if !TestConsistent(tests[k]) {
        return false, outcomes, categories;
      }
      TallyNext(tests[..k], tests[k], outcomes, categories);
      assert tests[..k + 1] == tests[..k] + [tests[k]];
      categories := categories + multiset{tests[k].status};
      outcomes := outcomes + multiset{tests[k].results[0].status};
    }
    assert tests[..|tests|] == tests;
    ok := true;
  }

  lemma {:induction false} FailedStatuses(tests: seq<Test>)
    ensures StatusCount(tests, FAILED)
         == StatusCount(tests, {"failed"}) + StatusCount(tests, {"timedOut"}) + StatusCount(tests, {"interrupted"})
  {
    if tests != [] {
      FailedStatuses(tests[..|tests| - 1]);
    }
  }

  /** The counts of a browser report, or the refusal, by the projector's own steps. */
  method CountBrowser(c: Acceptance.Contract, report: Report, infrastructure: bool) returns (counts: Option<Counts>)
    ensures counts == BrowserCounts(c, report, infrastructure)
  {
    var tests := CollectTests(report);
    if tests == [] || !ExpectationsHold(c, report, infrastructure) {
      return None;
    }
    counts := CountTests(report, tests, ExpectedFailed(c, report, infrastructure));
  }

  method CountTests(report: Report, tests: seq<Test>, expectedFailed: nat) returns (counts: Option<Counts>)
    ensures counts.Some? <==> (forall i | 0 <= i < |tests| :: TestConsistent(tests[i])) && StatsHold(report, tests)
    ensures counts.Some? ==> counts.value == StatusCounts(report, tests, expectedFailed)
  {
    var ok, outcomes, categories := TallyTests(tests);
    if !ok || !StatsMatch(report, categories) {
      return None;
    }
    FailedStatuses(tests);
    counts := Some(Counts(|tests|, outcomes["passed"],
                          outcomes["failed"] + outcomes["timedOut"] + outcomes["interrupted"],
                          expectedFailed, report.errors, outcomes["skipped"]));
  }

  predicate StatsMatch(report: Report, categories: multiset<string>) {
    forall key | key in {"expected", "unexpected", "flaky", "skipped"} ::
      key in report.stats && 0 <= report.stats[key] <= 1_000_000 && report.stats[key] == categories[key]
  }

  lemma {:induction false} StatusesCover(tests: seq<Test>)
    requires forall i | 0 <= i < |tests| :: TestConsistent(tests[i])
    ensures StatusCount(tests, {"passed"}) + StatusCount(tests, FAILED)
          + StatusCount(tests, {"skipped"}) == |tests|
  {
    if tests != [] {
      StatusesCover(tests[..|tests| - 1]);
    }
  }

  /** One result of the first try, with a known outcome and no error behind a pass, in a known category. */
  predicate CountedOnce(t: Test) {
    && |t.results| == 1 && t.results[0].retry == Some(0)
    && t.results[0].status in {"passed", "failed", "timedOut", "interrupted", "skipped"}
    && (t.results[0].status == "passed" ==> t.results[0].errors == 0 && !t.results[0].hasError)
    && t.status in {"expected", "unexpected", "flaky", "skipped"}
  }

  /** A browser report is accepted exactly when it lists some test, each one counted once, its declared
      category totals are right, and its expectations are: no expected failure, or, for the infrastructure
      report, the trusted fixture directory, the literal inventory, as many controls as there are,
      each failed as intended, and everything else expected to pass. */
  lemma BrowserAcceptedIff(c: Acceptance.Contract, report: Report, infrastructure: bool)
    ensures BrowserAccepted(c, report, infrastructure)
       <==> && SuitesTests(report.suites) != []
            && (forall t | t in SuitesTests(report.suites) :: CountedOnce(t))
            && (forall key | key in {"expected", "unexpected", "flaky", "skipped"} ::
                  key in report.stats && report.stats[key] <= 1_000_000
                  && report.stats[key] == CategoryCount(SuitesTests(report.suites), key))
            && (if infrastructure then InfrastructureIs(c, report)
                else forall t | t in SuitesTests(report.suites) :: t.expectedStatus != "failed")
  {
    forall t ensures TestConsistent(t) <==> CountedOnce(t) {
    }
    if infrastructure {
      InfrastructureIff(c, report);
    }
  }

  lemma InfrastructureIff(c: Acceptance.Contract, report: Report)
    ensures ExpectationsHold(c, report, true) <==> InfrastructureIs(c, report)
  {
    var pairs := ReportRows(report);
    forall i | 0 <= i < |pairs| && pairs[i].0 in c.controls
      ensures Acceptance.FailedAsIntended(c, pairs[i].0, pairs[i].1)
         <==> Acceptance.IntendedFailure(c, pairs[i].0, pairs[i].1)
    {
      Acceptance.AdmittedIff(c, Acceptance.Infra, pairs[i].0, pairs[i].1);
    }
    SameCount(pairs, (pair: (Row, Test)) => pair.0 in c.controls, (pair: (Row, Test)) => pair.0 in c.controls);
  }

  predicate InfrastructureIs(c: Acceptance.Contract, report: Report) {
    var pairs := ReportRows(report);
    && c.fixtureRoot(report) && multiset(RowsOf(pairs)) == multiset(c.infraCases)
    && CountIf(pairs, (pair: (Row, Test)) => pair.0 in c.controls) == |c.controls|
    && forall i | 0 <= i < |pairs| ::
         if pairs[i].0 in c.controls then Acceptance.IntendedFailure(c, pairs[i].0, pairs[i].1)
         else pairs[i].1.expectedStatus == "passed"
  }

  /** An accepted browser report conserves outcomes: every test passed, failed or was skipped. */
  lemma BrowserConserves(c: Acceptance.Contract, report: Report, infrastructure: bool)
    requires BrowserCounts(c, report, infrastructure).Some?
    ensures var n := BrowserCounts(c, report, infrastructure).value;
      n.tests == n.passed + n.failed + n.skipped && n.tests > 0
  {
    StatusesCover(SuitesTests(report.suites));
  }

  predicate FailedPair(pair: (Row, Test)) {
    |pair.1.results| == 1 && pair.1.results[0].status in FAILED
  }

  lemma {:induction false} FailuresOfPairs(pairs: seq<(Row, Test)>)
    ensures StatusCount(TestsOf(pairs), FAILED) == CountIf(pairs, (pair: (Row, Test)) => FailedPair(pair))
  {
    if pairs != [] {
      FailuresOfPairs(pairs[..|pairs| - 1]);
      assert TestsOf(pairs)[..|pairs| - 1] == TestsOf(pairs[..|pairs| - 1]);
    }
  }

  /** If every p is a q and they are equally many, every q is a p. */
  lemma {:induction false} EquallyMany<T>(xs: seq<T>, p: T -> bool, q: T -> bool)
    requires forall i | 0 <= i < |xs| :: p(xs[i]) ==> q(xs[i])
    ensures CountIf(xs, p) <= CountIf(xs, q)
    ensures CountIf(xs, p) == CountIf(xs, q) ==> forall i | 0 <= i < |xs| :: q(xs[i]) ==> p(xs[i])
  {
    if xs != [] {
      EquallyMany(xs[..|xs| - 1], p, q);
    }
  }

  /** When the counts show only the expected failures, exactly the negative controls failed. */
  lemma OnlyControlsFailed(c: Acceptance.Contract, report: Report, i: nat)
    requires BrowserCounts(c, report, true).Some? && i < |ReportRows(report)|
    ensures BrowserCounts(c, report, true).value.expectedFailed <= BrowserCounts(c, report, true).value.failed
    ensures BrowserCounts(c, report, true).value.failed == BrowserCounts(c, report, true).value.expectedFailed ==>
      (FailedPair(ReportRows(report)[i]) <==> ReportRows(report)[i].0 in c.controls)
  {
    var pairs := ReportRows(report);
    TraversalsAgree(report.suites);
    FailuresOfPairs(pairs);
    EquallyMany(pairs, (pair: (Row, Test)) => pair.0 in c.controls, (pair: (Row, Test)) => FailedPair(pair));
  }

  // ----- What clean counts say about a report -----

  /** One expected report file: missing, unreadable, or parsed. */
  datatype Evidence = Absent | Unreadable | Junit(root: Node) | Browser(report: Report, infrastructure: bool)

  /** The counts projected from the file; `None` when it is missing, unreadable or refused. */
  function CountsOf(c: Acceptance.Contract, e: Evidence): Option<Counts> {
    match e
    case Absent => None
    case Unreadable => None
    case Junit(root) => JunitCounts(root)
    case Browser(report, infrastructure) => BrowserCounts(c, report, infrastructure)
  }

  predicate Clean(counts: Counts) {
    counts.failed == counts.expectedFailed && counts.errors == 0 && counts.skipped == 0
  }

  predicate PassedOnce(t: Test) {
    Acceptance.RanOnce(t) && t.results[0].status == "passed"
  }

  /** Nothing went wrong anywhere in the evidence: no failure, error or skip element in a tree; no test of
      a browser report that did not pass, except that the negative controls failed. */
  predicate NothingWrong(c: Acceptance.Contract, e: Evidence) {
    match e
    case Absent => false
    case Unreadable => false
    case Junit(root) => CountTag(root, "failure") == 0 && CountTag(root, "error") == 0 && CountTag(root, "skipped") == 0
    case Browser(report, infrastructure) =>
      var pairs := ReportRows(report);
      && report.errors == 0
      && forall i | 0 <= i < |pairs| ::
           if infrastructure && pairs[i].0 in c.controls then FailedPair(pairs[i]) else PassedOnce(pairs[i].1)
  }

  lemma {:induction false} CountNone<T>(xs: seq<T>, p: T -> bool)
    ensures CountIf(xs, p) == 0 <==> forall i | 0 <= i < |xs| :: !p(xs[i])
  {
    if xs != [] {
      CountNone(xs[..|xs| - 1], p);
    }
  }

  lemma {:induction false} SameCount<T>(xs: seq<T>, p: T -> bool, q: T -> bool)
    requires forall i | 0 <= i < |xs| :: p(xs[i]) <==> q(xs[i])
    ensures CountIf(xs, p) == CountIf(xs, q)
  {
    if xs != [] {
      SameCount(xs[..|xs| - 1], p, q);
    }
  }

  predicate SkippedPair(pair: (Row, Test)) {
    |pair.1.results| == 1 && pair.1.results[0].status == "skipped"
  }

  lemma {:induction false} SkipsOfPairs(pairs: seq<(Row, Test)>)
    ensures StatusCount(TestsOf(pairs), {"skipped"}) == CountIf(pairs, (pair: (Row, Test)) => SkippedPair(pair))
  {
    if pairs != [] {
      SkipsOfPairs(pairs[..|pairs| - 1]);
      assert TestsOf(pairs)[..|pairs| - 1] == TestsOf(pairs[..|pairs| - 1]);
    }
  }

  /** In an accepted browser report nothing is skipped exactly when every pair passed or failed. */
  lemma NoneSkippedIff(c: Acceptance.Contract, report: Report, infrastructure: bool)
    requires BrowserCounts(c, report, infrastructure).Some?
    ensures BrowserCounts(c, report, infrastructure).value.skipped == 0
       <==> forall i | 0 <= i < |ReportRows(report)| ::
              FailedPair(ReportRows(report)[i]) || PassedOnce(ReportRows(report)[i].1)
  {
    var pairs := ReportRows(report);
    TraversalsAgree(report.suites);
    SkipsOfPairs(pairs);
    CountNone(pairs, (pair: (Row, Test)) => SkippedPair(pair));
    forall i | 0 <= i < |pairs|
      ensures TestConsistent(pairs[i].1) && (!SkippedPair(pairs[i]) <==> FailedPair(pairs[i]) || PassedOnce(pairs[i].1))
    {
      assert TestsOf(pairs)[i] == pairs[i].1;
    }
  }

  /** In an accepted browser report the failures are as many as expected exactly when the failed tests are
      the negative controls of an infrastructure report. */
  lemma FailuresExpectedIff(c: Acceptance.Contract, report: Report, infrastructure: bool)
    requires BrowserCounts(c, report, infrastructure).Some?
    ensures BrowserCounts(c, report, infrastructure).value.failed
            == BrowserCounts(c, report, infrastructure).value.expectedFailed
       <==> forall i | 0 <= i < |ReportRows(report)| ::
              FailedPair(ReportRows(report)[i]) <==> infrastructure && ReportRows(report)[i].0 in c.controls
  {
    var pairs := ReportRows(report);
    TraversalsAgree(report.suites);
    FailuresOfPairs(pairs);
    if infrastructure {
      forall i | 0 <= i < |pairs| &&
          BrowserCounts(c, report, true).value.failed == BrowserCounts(c, report, true).value.expectedFailed
        ensures FailedPair(pairs[i]) <==> pairs[i].0 in c.controls
      {
        OnlyControlsFailed(c, report, i);
      }
      if forall i | 0 <= i < |pairs| :: FailedPair(pairs[i]) <==> pairs[i].0 in c.controls {
        SameCount(pairs, (pair: (Row, Test)) => pair.0 in c.controls, (pair: (Row, Test)) => FailedPair(pair));
      }
    } else {
      CountNone(pairs, (pair: (Row, Test)) => FailedPair(pair));
    }
  }

  /** Clean counts mean, for every kind of evidence, that nothing went wrong in it, and conversely. */
  lemma CleanIff(c: Acceptance.Contract, e: Evidence)
    requires CountsOf(c, e).Some?
    ensures Clean(CountsOf(c, e).value) <==> NothingWrong(c, e)
  {
    match e
    case Junit(root) => JunitConserves(root);
    case Browser(report, infrastructure) =>
      NoneSkippedIff(c, report, infrastructure);
      FailuresExpectedIff(c, report, infrastructure);
  }

  // ----- The projection -----

  datatype LaneSeen = Completed | Missing | BadPath

  datatype Issue =
    | HeadInvalid | ReceiptInvalid | IsolationUnverified | LanePathInvalid | LaneOrderInvalid
    | IncompleteLanes | NonpassingReport | ReportMissing | ReportInvalid

  /** The receipt: exit status and isolation guard, if it is valid. */
  datatype Receipt = Receipt(exitCode: int, guardPassed: bool)

  predicate Prefix(lanes: seq<LaneSeen>) {
    forall i, j | 0 <= i < j < |lanes| && lanes[j].Completed? :: lanes[i].Completed?
  }

  /** Walks the lanes in order, remembering the first one not completed. */
  method ProjectLanes(lanes: seq<LaneSeen>) returns (firstMissing: Option<nat>, issues: set<Issue>)
    ensures issues <= {LanePathInvalid, LaneOrderInvalid}
    ensures LanePathInvalid in issues <==> BadPath in lanes
    ensures LaneOrderInvalid in issues <==>
      exists i, j :: 0 <= i < j < |lanes| && lanes[i].Missing? && lanes[j].Completed?
    ensures firstMissing.None? <==> Missing !in lanes
    ensures firstMissing.Some? ==>
      firstMissing.value < |lanes| && lanes[firstMissing.value].Missing? && Missing !in lanes[..firstMissing.value]
    ensures issues == {} <==> BadPath !in lanes && Prefix(lanes)
    ensures issues == {} ==> (firstMissing.None? <==> forall i | 0 <= i < |lanes| :: lanes[i].Completed?)
  {
    firstMissing, issues := None, {};
    for k := 0 to |lanes|
      invariant issues <= {LanePathInvalid, LaneOrderInvalid}
      invariant firstMissing.Some? ==>
        firstMissing.value < k && lanes[firstMissing.value].Missing?
        && forall i | 0 <= i < firstMissing.value :: !lanes[i].Missing?
      invariant firstMissing.None? ==> forall i | 0 <= i < k :: !lanes[i].Missing?
      invariant LanePathInvalid in issues <==> BadPath in lanes[..k]
      invariant LaneOrderInvalid in issues <==>
        exists i, j :: 0 <= i < j < k && lanes[i].Missing? && lanes[j].Completed?
    {
      assert lanes[..k + 1] == lanes[..k] + [lanes[k]];
      match lanes[k] {
        case BadPath => issues := issues + {LanePathInvalid};
        case Missing => if firstMissing.None? { firstMissing := Some(k); }
        case Completed =>
          if firstMissing.Some? {
            assert lanes[firstMissing.value].Missing? && lanes[k].Completed?;
            issues := issues + {LaneOrderInvalid};
          }
      }
    }
    assert lanes[..|lanes|] == lanes;
    NoOrderIssue(lanes);
  }

  lemma NoOrderIssue(lanes: seq<LaneSeen>)
    ensures BadPath !in lanes ==>
      (Prefix(lanes) <==> !exists i, j :: 0 <= i < j < |lanes| && lanes[i].Missing? && lanes[j].Completed?)
  {
  }

  method CountEvidence(c: Acceptance.Contract, e: Evidence) returns (counts: Option<Counts>)
    ensures counts == CountsOf(c, e)
  {
    match e {
      case Absent => counts := None;
      case Unreadable => counts := None;
      case Junit(root) => counts := JunitCounts(root);
      case Browser(report, infrastructure) => counts := CountBrowser(c, report, infrastructure);
    }
  }

  /** The whole projection is valid exactly when head and receipt are valid, isolation was verified, the
      completed lanes are a prefix, every report is present and accepted, and an exit status of 0 comes
      with all lanes completed and nothing wrong in any report but the negative controls. */
  method Project(c: Acceptance.Contract, headValid: bool, receipt: Option<Receipt>,
                 lanes: seq<LaneSeen>, reports: seq<Evidence>)
    returns (valid: bool, issues: set<Issue>)
    ensures valid <==> issues == {}
    ensures HeadInvalid in issues <==> !headValid
    ensures ReceiptInvalid in issues <==> receipt.None?
    ensures IsolationUnverified in issues <==> receipt.Some? && !receipt.value.guardPassed
    ensures LanePathInvalid in issues <==> receipt.Some? && BadPath in lanes
    ensures IncompleteLanes in issues <==> receipt.Some? && receipt.value.exitCode == 0 && Missing in lanes
    ensures ReportMissing in issues <==> Absent in reports
    ensures ReportInvalid in issues <==> exists e :: e in reports && e != Absent && CountsOf(c, e).None?
    ensures valid <==>
      && headValid && receipt.Some? && receipt.value.guardPassed
      && BadPath !in lanes && Prefix(lanes)
      && (forall i | 0 <= i < |reports| :: CountsOf(c, reports[i]).Some?)
      && (receipt.value.exitCode == 0 ==>
            && (forall i | 0 <= i < |lanes| :: lanes[i].Completed?)
            && (forall i | 0 <= i < |reports| :: NothingWrong(c, reports[i])))
  {
    issues := {};
    if !headValid {
      issues := issues + {HeadInvalid};
    }
    var succeeded := receipt.Some? && receipt.value.exitCode == 0;
    if receipt.None? {
      issues := issues + {ReceiptInvalid};
    } else {
      if !receipt.value.guardPassed {
        issues := issues + {IsolationUnverified};
      }
      var firstMissing, laneIssues := ProjectLanes(lanes);
      issues := issues + laneIssues;
      if succeeded && firstMissing.Some? {
        issues := issues + {IncompleteLanes};
      }
    }
    var reportIssues := ProjectReports(c, succeeded, reports);
    issues := issues + reportIssues;
    valid := issues == {};
  }

  /** The report part: no issue exactly when every report is accepted and, for a successful run, nothing
      is wrong in any of them. */
  method ProjectReports(c: Acceptance.Contract, succeeded: bool, reports: seq<Evidence>) returns (issues: set<Issue>)
    ensures issues <= {ReportMissing, ReportInvalid, NonpassingReport}
    ensures ReportMissing in issues <==> Absent in reports
    ensures ReportInvalid in issues <==> exists e :: e in reports && e != Absent && CountsOf(c, e).None?
    ensures NonpassingReport in issues <==>
      succeeded && exists e :: e in reports && CountsOf(c, e).Some? && !NothingWrong(c, e)
    ensures issues == {} <==> forall i | 0 <= i < |reports| ::
      CountsOf(c, reports[i]).Some? && (succeeded ==> NothingWrong(c, reports[i]))
  {
    issues := {};
    for k := 0 to |reports|
      invariant issues <= {ReportMissing, ReportInvalid, NonpassingReport}
      invariant ReportMissing in issues <==> Absent in reports[..k]
      invariant ReportInvalid in issues <==> exists e :: e in reports[..k] && e != Absent && CountsOf(c, e).None?
      invariant NonpassingReport in issues <==>
        succeeded && exists e :: e in reports[..k] && CountsOf(c, e).Some? && !NothingWrong(c, e)
    {
      assert reports[..k + 1] == reports[..k] + [reports[k]];
      var counts := CountEvidence(c, reports[k]);
      if counts.None? {
        issues := issues + if reports[k].Absent? then {ReportMissing} else {ReportInvalid};
      } else {
        CleanIff(c, reports[k]);
        if succeeded && !Clean(counts.value) {
          issues := issues + {NonpassingReport};
        }
      }
    }
    assert reports[..|reports|] == reports;
    NoReportIssue(c, succeeded, reports);
  }

  lemma NoReportIssue(c: Acceptance.Contract, succeeded: bool, reports: seq<Evidence>)
    ensures (forall i | 0 <= i < |reports| ::
               CountsOf(c, reports[i]).Some? && (succeeded ==> NothingWrong(c, reports[i])))
       <==> && Absent !in reports && !(exists e :: e in reports && e != Absent && CountsOf(c, e).None?)
            && !(succeeded && exists e :: e in reports && CountsOf(c, e).Some? && !NothingWrong(c, e))
  {
    if i :| 0 <= i < |reports| && !(CountsOf(c, reports[i]).Some? && (succeeded ==> NothingWrong(c, reports[i]))) {
      assert reports[i] in reports;
    }
  }
}
