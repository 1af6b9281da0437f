/** Native browser-test reports: nested suites, and the flat rows the acceptance code works on. */
module BrowserReport {
  import opened PyText

  /** One executed result; `retry` is `None` when it is not an integer. */
  datatype Result = Result(status: string, retry: Option<int>, errors: nat, hasError: bool)

  datatype Test = Test(
    project: string, expectedStatus: string, status: string, results: seq<Result>, annotations: seq<string>)

  datatype Spec = Spec(file: string, title: string, tests: seq<Test>)

  datatype Suite = Suite(title: string, specs: seq<Spec>, suites: seq<Suite>)

  /** `stats` holds the declared category totals that are integers. */
  datatype Report = Report(suites: seq<Suite>, errors: nat, stats: map<string, int>)

  /** The literal identity of a case. */
  datatype Row = Row(file: string, title: string, project: string)

  const SEPARATOR := " \U{203A} "

  function Join(parents: seq<string>, title: string): string {
    if parents == [] then title else parents[0] + SEPARATOR + Join(parents[1..], title)
  }

  // ----- Flattening -----

  function SpecRows(spec: Spec, tests: seq<Test>, parents: seq<string>): seq<(Row, Test)> {
    seq(|tests|, i requires 0 <= i < |tests| => (Row(spec.file, Join(parents, spec.title), tests[i].project), tests[i]))
  }

  function SpecsRows(specs: seq<Spec>, parents: seq<string>): seq<(Row, Test)> {
    if specs == [] then [] else SpecRows(specs[0], specs[0].tests, parents) + SpecsRows(specs[1..], parents)
  }

  function SuiteRows(suite: Suite, parents: seq<string>): seq<(Row, Test)>
    decreases suite
  {
    SpecsRows(suite.specs, parents) + ChildRows(suite.suites, parents)
  }

  /** The children of a suite; each adds its own title to the path. */
  function ChildRows(suites: seq<Suite>, parents: seq<string>): seq<(Row, Test)>
    decreases suites
  {
    if suites == [] then []
    else SuiteRows(suites[0], parents + [suites[0].title]) + ChildRows(suites[1..], parents)
  }

  function TopRows(suites: seq<Suite>): seq<(Row, Test)>
    decreases suites
  {
    if suites == [] then [] else SuiteRows(suites[0], []) + TopRows(suites[1..])
  }

  /** `report_rows`. */
  function ReportRows(report: Report): seq<(Row, Test)> {
    TopRows(report.suites)
  }

  function RowsOf(pairs: seq<(Row, Test)>): seq<Row> {
    seq(|pairs|, i requires 0 <= i < |pairs| => pairs[i].0)
  }

  function TestsOf(pairs: seq<(Row, Test)>): seq<Test> {
    seq(|pairs|, i requires 0 <= i < |pairs| => pairs[i].1)
  }

  /** Row extraction as it runs: one visitor appending to one list. */
  class RowVisitor {
    var rows: seq<(Row, Test)>

    constructor ()
      ensures rows == []
    {
      rows := [];
    }

    method Visit(suite: Suite, parents: seq<string>)
      modifies this
      ensures rows == old(rows) + SuiteRows(suite, parents)
      decreases suite
    {
      AppendSpecs(suite.specs, parents);
      VisitChildren(suite.suites, parents);
    }

    method VisitChildren(suites: seq<Suite>, parents: seq<string>)
      modifies this
      ensures rows == old(rows) + ChildRows(suites, parents)
      decreases suites
    {
      for k := 0 to |suites|
        invariant rows + ChildRows(suites[k..], parents) == old(rows) + ChildRows(suites, parents)
      {
        Visit(suites[k], parents + [suites[k].title]);
        assert suites[k..][1..] == suites[k + 1..];
      }
    }

    method AppendSpecs(specs: seq<Spec>, parents: seq<string>)
      modifies this
      ensures rows == old(rows) + SpecsRows(specs, parents)
    {
      for k := 0 to |specs|
        invariant rows + SpecsRows(specs[k..], parents) == old(rows) + SpecsRows(specs, parents)
      {
        AppendSpec(specs[k], parents);
        assert specs[k..][1..] == specs[k + 1..];
      }
    }

    method VisitTop(suites: seq<Suite>)
      modifies this
      ensures rows == old(rows) + TopRows(suites)
    {
      for k := 0 to |suites|
        invariant rows + TopRows(suites[k..]) == old(rows) + TopRows(suites)
      {
        Visit(suites[k], []);
        assert suites[k..][1..] == suites[k + 1..];
      }
    }

    method AppendSpec(spec: Spec, parents: seq<string>)
      modifies this
      ensures rows == old(rows) + SpecRows(spec, spec.tests, parents)
    {
      for k := 0 to |spec.tests|
        invariant rows == old(rows) + SpecRows(spec, spec.tests, parents)[..k]
      {
        rows := rows + [(Row(spec.file, Join(parents, spec.title), spec.tests[k].project), spec.tests[k])];
      }
    }
  }

  method CollectRows(report: Report) returns (rows: seq<(Row, Test)>)
    ensures rows == ReportRows(report)
  {
    var visitor := new RowVisitor();
    visitor.VisitTop(report.suites);
    rows := visitor.rows;
  }

  // ----- What a row says -----

  /** The spec is found below the suite along these titles: none for its own specs, one more for each nested
      suite on the way. */
  ghost predicate Nested(suite: Suite, parents: seq<string>, spec: Spec, path: seq<string>)
    decreases suite
  {
    || (spec in suite.specs && path == parents)
    || (exists k :: 0 <= k < |suite.suites| && Nested(suite.suites[k], parents + [suite.suites[k].title], spec, path))
  }

  /** A title path is its titles in order, separated; the last one is the spec's own. */
  lemma {:induction false} JoinAppends(parents: seq<string>, last: string, title: string)
    ensures Join([], title) == title
    ensures Join(parents + [last], title) == Join(parents, last) + " \U{203A} " + title
  {
    if parents != [] {
      assert (parents + [last])[1..] == parents[1..] + [last];
      JoinAppends(parents[1..], last, title);
    }
  }

  /** The row of one test of one spec. */
  ghost predicate RowOf(row: Row, test: Test, spec: Spec, path: seq<string>) {
    test in spec.tests && row == Row(spec.file, Join(path, spec.title), test.project)
  }

  lemma SpecRowsIff(spec: Spec, parents: seq<string>, row: Row, test: Test)
    ensures (row, test) in SpecRows(spec, spec.tests, parents) <==> RowOf(row, test, spec, parents)
  {
    var rows := SpecRows(spec, spec.tests, parents);
    if RowOf(row, test, spec, parents) {
      var i :| 0 <= i < |spec.tests| && spec.tests[i] == test;
      assert rows[i] == (row, test);
    }
  }

  lemma {:induction false} SpecsRowsIff(specs: seq<Spec>, parents: seq<string>, row: Row, test: Test)
    ensures (row, test) in SpecsRows(specs, parents)
       <==> exists spec :: spec in specs && RowOf(row, test, spec, parents)
  {
    if specs != [] {
      SpecRowsIff(specs[0], parents, row, test);
      SpecsRowsIff(specs[1..], parents, row, test);
      assert specs == [specs[0]] + specs[1..];
    }
  }

  /** The row belongs to a spec found below the suite, and shows its file, its title path and the project. */
  ghost predicate RowBelow(suite: Suite, parents: seq<string>, row: Row, test: Test) {
    exists spec, path :: Nested(suite, parents, spec, path) && RowOf(row, test, spec, path)
  }

  lemma {:induction false} SuiteRowsIff(suite: Suite, parents: seq<string>, row: Row, test: Test)
    ensures (row, test) in SuiteRows(suite, parents) <==> RowBelow(suite, parents, row, test)
    decreases suite
  {
    SpecsRowsIff(suite.specs, parents, row, test);
    ChildRowsIff(suite.suites, parents, row, test);
    if (row, test) in SpecsRows(suite.specs, parents) {
      var spec :| spec in suite.specs && RowOf(row, test, spec, parents);
      assert Nested(suite, parents, spec, parents);
    }
    if (row, test) in ChildRows(suite.suites, parents) {
      var k :| 0 <= k < |suite.suites| && RowBelow(suite.suites[k], parents + [suite.suites[k].title], row, test);
      var spec, path :|
        Nested(suite.suites[k], parents + [suite.suites[k].title], spec, path) && RowOf(row, test, spec, path);
      assert Nested(suite, parents, spec, path);
    }
  }

  lemma {:induction false} ChildRowsIff(suites: seq<Suite>, parents: seq<string>, row: Row, test: Test)
    ensures (row, test) in ChildRows(suites, parents)
       <==> exists k :: 0 <= k < |suites| && RowBelow(suites[k], parents + [suites[k].title], row, test)
    decreases suites
  {
    if suites != [] {
      SuiteRowsIff(suites[0], parents + [suites[0].title], row, test);
      ChildRowsIff(suites[1..], parents, row, test);
      if exists k :: 0 <= k < |suites[1..]| && RowBelow(suites[1..][k], parents + [suites[1..][k].title], row, test) {
        var k :| 0 <= k < |suites[1..]| && RowBelow(suites[1..][k], parents + [suites[1..][k].title], row, test);
        assert suites[k + 1] == suites[1..][k];
      }
      if exists k :: 0 < k < |suites| && RowBelow(suites[k], parents + [suites[k].title], row, test) {
        var k :| 0 < k < |suites| && RowBelow(suites[k], parents + [suites[k].title], row, test);
        assert suites[1..][k - 1] == suites[k];
      }
    }
  }

  /** The rows of a report are exactly the tests of the specs nested in it, each with its spec's file, the
      titles on the way to it below the top suite, and its own project. */
  lemma {:induction false} TopRowsIff(suites: seq<Suite>, row: Row, test: Test)
    ensures (row, test) in TopRows(suites) <==> exists suite :: suite in suites && RowBelow(suite, [], row, test)
    decreases suites
  {
    if suites != [] {
      SuiteRowsIff(suites[0], [], row, test);
      TopRowsIff(suites[1..], row, test);
      assert suites == [suites[0]] + suites[1..];
    }
  }

  // ----- The projector's own traversal, which keeps no titles -----

  function SpecsTests(specs: seq<Spec>): seq<Test> {
    if specs == [] then [] else specs[0].tests + SpecsTests(specs[1..])
  }

  function SuiteTests(suite: Suite): seq<Test>
    decreases suite
  {
    SpecsTests(suite.specs) + SuitesTests(suite.suites)
  }

  function SuitesTests(suites: seq<Suite>): seq<Test>
    decreases suites
  {
    if suites == [] then [] else SuiteTests(suites[0]) + SuitesTests(suites[1..])
  }

  class TestVisitor {
    var tests: seq<Test>

    constructor ()
      ensures tests == []
    {
      tests := [];
    }

    method Visit(suite: Suite)
      modifies this
      ensures tests == old(tests) + SuiteTests(suite)
      decreases suite
    {
      for k := 0 to |suite.specs|
        invariant tests + SpecsTests(suite.specs[k..]) == old(tests) + SpecsTests(suite.specs)
      {
        tests := tests + suite.specs[k].tests;
        assert suite.specs[k..][1..] == suite.specs[k + 1..];
      }
      assert tests == old(tests) + SpecsTests(suite.specs);
      VisitAll(suite.suites);
    }

    method VisitAll(suites: seq<Suite>)
      modifies this
      ensures tests == old(tests) + SuitesTests(suites)
      decreases suites
    {
      for k := 0 to |suites|
        invariant tests + SuitesTests(suites[k..]) == old(tests) + SuitesTests(suites)
      {
        Visit(suites[k]);
        assert suites[k..][1..] == suites[k + 1..];
      }
    }
  }

  method CollectTests(report: Report) returns (tests: seq<Test>)
    ensures tests == SuitesTests(report.suites)
  {
    var visitor := new TestVisitor();
    visitor.VisitAll(report.suites);
    tests := visitor.tests;
  }

  // ----- Both traversals see the same tests in the same order -----

  lemma TestsOfConcat(a: seq<(Row, Test)>, b: seq<(Row, Test)>)
    ensures TestsOf(a + b) == TestsOf(a) + TestsOf(b)
  {
  }

  lemma {:induction false} SpecsAgree(specs: seq<Spec>, parents: seq<string>)
    ensures TestsOf(SpecsRows(specs, parents)) == SpecsTests(specs)
  {
    if specs != [] {
      SpecsAgree(specs[1..], parents);
      assert TestsOf(SpecRows(specs[0], specs[0].tests, parents)) == specs[0].tests;
      TestsOfConcat(SpecRows(specs[0], specs[0].tests, parents), SpecsRows(specs[1..], parents));
    }
  }

  lemma {:induction false} SuiteAgrees(suite: Suite, parents: seq<string>)
    ensures TestsOf(SuiteRows(suite, parents)) == SuiteTests(suite)
    decreases suite
  {
    SpecsAgree(suite.specs, parents);
    ChildrenAgree(suite.suites, parents);
    TestsOfConcat(SpecsRows(suite.specs, parents), ChildRows(suite.suites, parents));
  }

  lemma {:induction false} ChildrenAgree(suites: seq<Suite>, parents: seq<string>)
    ensures TestsOf(ChildRows(suites, parents)) == SuitesTests(suites)
    decreases suites
  {
    if suites != [] {
      SuiteAgrees(suites[0], parents + [suites[0].title]);
      ChildrenAgree(suites[1..], parents);
      TestsOfConcat(SuiteRows(suites[0], parents + [suites[0].title]), ChildRows(suites[1..], parents));
    }
  }

  /** Row extraction and the projector's visitor enumerate exactly the same tests. */
  lemma {:induction false} TraversalsAgree(suites: seq<Suite>)
    ensures TestsOf(TopRows(suites)) == SuitesTests(suites)
    decreases suites
  {
    if suites != [] {
      SuiteAgrees(suites[0], []);
      TraversalsAgree(suites[1..]);
      TestsOfConcat(SuiteRows(suites[0], []), TopRows(suites[1..]));
    }
  }
}
