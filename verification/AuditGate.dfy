/** The dependency-audit gate: lock parsing, report coverage, snapshot provenance, allowlist and the
    sequence of reads and writes that ends in the exit status. */
module AuditGate {
  import opened PyText
  import opened Maps

  /** Version parsing (equality of `V` is version equality) and the lock digest. */
  datatype Tools<!V> = Tools(parseVersion: string -> Option<V>, sha256: string -> string)

  const DAY_MICROSECONDS: int := 86_400_000_000
  const MAX_SNAPSHOT_AGE_DAYS := 14
  const REPORT_SCHEMA := "flinttrade-pip-audit-v1"
  const ONLINE := "online-osv"
  const SNAPSHOT := "online-osv-snapshot"
  const CACHED := "cached-osv-snapshot"

  // ----- Names and lock lines -----

  predicate IsSeparator(c: char) { c in {'-', '_', '.'} }

  function Lower(c: char): char {
    if 'A' <= c <= 'Z' then (c as int + 32) as char else c
  }

  function Upper(s: string): string {
    seq(|s|, i requires 0 <= i < |s| => if 'a' <= s[i] <= 'z' then (s[i] as int - 32) as char else s[i])
  }

  /** Package-name canonicalisation: runs of separators become one dash, letters lower case. */
  function CanonicalName(s: string): string {
    if s == "" then ""
    else if IsSeparator(s[0]) then
      if |s| > 1 && IsSeparator(s[1]) then CanonicalName(s[1..]) else "-" + CanonicalName(s[1..])
    else [Lower(s[0])] + CanonicalName(s[1..])
  }

  predicate IsAlnum(c: char) { '0' <= c <= '9' || 'a' <= c <= 'z' || 'A' <= c <= 'Z' }

  predicate IsNameChar(c: char) { IsAlnum(c) || IsSeparator(c) }

  predicate IsVersionChar(c: char) { !IsSpace(c) && c != ';' && c != '\\' }

  /** Length of the longest prefix of characters in the class. */
  function Span(s: string, inClass: char -> bool): (n: nat)
    ensures n <= |s|
  {
    if s != "" && inClass(s[0]) then 1 + Span(s[1..], inClass) else 0
  }

  /** The pinned name and raw version of a requirement line; `None` is the refusal. */
  function PinnedRequirement(line: string): Option<(string, string)> {
    var n := Span(line, IsNameChar);
    if n == 0 || !IsAlnum(line[0]) || |line| < n + 2 || line[n..n + 2] != "==" then None
    else
      var v := Span(line[n + 2..], IsVersionChar);
      var rest := Strip(line[n + 2..][v..]);
      if v == 0 || (rest != "" && rest[0] != ';' && rest[0] != '\\') then None
      else Some((line[..n], line[n + 2..][..v]))
  }

  predicate IsSkippedLine(line: string) {
    line == "" || line[0] == '#' || IsSpace(line[0])
  }

  function LinePin<V>(t: Tools<V>, line: string): Option<(string, V)> {
    match PinnedRequirement(line)
    case None => None
    case Some(pin) =>
      match t.parseVersion(pin.1)
      case None => None
      case Some(version) => Some((CanonicalName(pin.0), version))
  }

  // ----- What a requirement line pins -----

  const LOWER := "abcdefghijklmnopqrstuvwxyz"
  const UPPER := "ABCDEFGHIJKLMNOPQRSTUVWXYZ"

  lemma LetterCodes(k: nat)
    requires k < 26
    ensures UPPER[k] as int == 65 + k && LOWER[k] as int == 97 + k
  {
  }

  /** Case folding, letter by letter. */
  lemma FoldsLetter(k: nat)
    requires k < 26
    ensures Lower(UPPER[k]) == LOWER[k] && Upper([LOWER[k]]) == [UPPER[k]]
  {
    LetterCodes(k);
  }

  lemma FoldsNothingElse(c: char)
    ensures c !in UPPER ==> Lower(c) == c
    ensures c !in LOWER ==> Upper([c]) == [c]
  {
    if 'A' <= c <= 'Z' {
      LetterCodes(c as int - 65);
      assert UPPER[c as int - 65] == c;
    } else if 'a' <= c <= 'z' {
      LetterCodes(c as int - 97);
      assert LOWER[c as int - 97] == c;
    }
  }

  /** Letters and digits, written out. */
  lemma AlnumIff(c: char)
    ensures IsAlnum(c) <==> c in LOWER || c in UPPER || c in "0123456789"
  {
    if 'A' <= c <= 'Z' {
      LetterCodes(c as int - 65);
      assert UPPER[c as int - 65] == c;
    } else if 'a' <= c <= 'z' {
      LetterCodes(c as int - 97);
      assert LOWER[c as int - 97] == c;
    } else if '0' <= c <= '9' {
      assert "0123456789"[c as int - 48] == c;
    }
    LettersOnly(c);
  }

  lemma LettersOnly(c: char)
    ensures (c in UPPER ==> 'A' <= c <= 'Z') && (c in LOWER ==> 'a' <= c <= 'z')
  {
    forall k: nat | k < 26 ensures 'A' <= UPPER[k] <= 'Z' && 'a' <= LOWER[k] <= 'z' {
      LetterCodes(k);
    }
  }

  lemma UpperConcat(a: string, b: string)
    ensures Upper(a + b) == Upper(a) + Upper(b)
  {
  }

  /** Letters and digits, with no separator. */
  predicate IsPlain(s: string) {
    forall i | 0 <= i < |s| :: IsAlnum(s[i])
  }

  predicate IsSeparators(s: string) {
    s != "" && forall i | 0 <= i < |s| :: s[i] in "-_."
  }

  lemma {:induction false} CanonicalPlain(s: string, rest: string)
    requires IsPlain(s)
    ensures CanonicalName(s + rest) == CanonicalName(s) + CanonicalName(rest)
    ensures |CanonicalName(s)| == |s| && forall i | 0 <= i < |s| :: CanonicalName(s)[i] == Lower(s[i])
  {
    if s == "" {
      assert s + rest == rest;
    } else {
      assert (s + rest)[1..] == s[1..] + rest;
      CanonicalPlain(s[1..], rest);
    }
  }

  lemma {:induction false} CanonicalSeparators(separators: string, rest: string)
    requires IsSeparators(separators) && (rest != "" ==> rest[0] !in "-_.")
    ensures CanonicalName(separators + rest) == "-" + CanonicalName(rest)
  {
    var s := separators + rest;
    assert s[1..] == separators[1..] + rest;
    if |separators| > 1 {
      assert s[1] == separators[1];
      CanonicalSeparators(separators[1..], rest);
    } else {
      assert s[1..] == rest;
    }
  }

  /** Case and separators do not matter: a name is its lower-case parts joined by single dashes. */
  lemma CanonicalJoins(part: string, separators: string, rest: string)
    requires IsPlain(part) && IsSeparators(separators) && (rest != "" ==> rest[0] !in "-_.")
    ensures CanonicalName(part + separators + rest) == CanonicalName(part) + "-" + CanonicalName(rest)
  {
    assert part + separators + rest == part + (separators + rest);
    CanonicalPlain(part, separators + rest);
    CanonicalSeparators(separators, rest);
  }

  lemma {:induction false} SpanOf(s: string, rest: string, inClass: char -> bool)
    requires (forall i | 0 <= i < |s| :: inClass(s[i])) && (rest != "" ==> !inClass(rest[0]))
    ensures Span(s + rest, inClass) == |s|
  {
    if s == "" {
      assert s + rest == rest;
    } else {
      assert (s + rest)[1..] == s[1..] + rest;
      SpanOf(s[1..], rest, inClass);
    }
  }

  /** A project name: a letter or digit, then letters, digits, dots, dashes and underscores. */
  predicate IsProjectName(s: string) {
    s != "" && IsAlnum(s[0]) && forall i | 0 <= i < |s| :: IsAlnum(s[i]) || s[i] in "-_."
  }

  predicate IsVersionText(s: string) {
    s != "" && forall i | 0 <= i < |s| :: s[i] as int !in BLANKS && s[i] != ';' && s[i] != '\\'
  }

  /** A pinned line pins exactly its name and its version, bare or followed by a marker or a continuation;
      anything else behind the version refuses the line. */
  lemma PinnedLine(name: string, version: string, after: string)
    requires IsProjectName(name) && IsVersionText(version)
    requires after != "" ==> after[0] as int in BLANKS || after[0] == ';' || after[0] == '\\'
    ensures PinnedRequirement(name + "==" + version + after)
         == if Strip(after) == "" || Strip(after)[0] in ";\\" then Some((name, version)) else None
  {
    var line, tail := name + "==" + version + after, version + after;
    assert line == name + ("==" + tail);
    SpanOf(name, "==" + tail, IsNameChar);
    assert line[|name|..|name| + 2] == "==" && line[|name| + 2..] == tail;
    SpanOf(version, after, IsVersionChar);
    assert tail[|version|..] == after && tail[..|version|] == version && line[..|name|] == name;
  }

  /** Whatever pins something has a project name in front of two equals signs, and pins that name. */
  lemma PinnedHasName(line: string) returns (name: string, tail: string)
    requires PinnedRequirement(line).Some?
    ensures IsProjectName(name) && line == name + "==" + tail && PinnedRequirement(line).value.0 == name
  {
    var n := Span(line, IsNameChar);
    SpanMatches(line, IsNameChar);
    name, tail := line[..n], line[n + 2..];
  }

  lemma {:induction false} SpanMatches(s: string, inClass: char -> bool)
    ensures forall i | 0 <= i < Span(s, inClass) :: inClass(s[i])
  {
    if s != "" && inClass(s[0]) {
      SpanMatches(s[1..], inClass);
    }
  }

  /** Empty lines, comments and indented lines pin nothing. */
  lemma SkippedIff(line: string)
    ensures IsSkippedLine(line) <==> line == "" || line[0] == '#' || line[0] as int in BLANKS
  {
  }

  /** The lock admits `deps`: every requirement line parses, agrees with `deps`, and accounts for it. */
  ghost predicate LockAdmits<V>(t: Tools<V>, lines: seq<string>, deps: map<string, V>) {
    && (forall i | 0 <= i < |lines| && !IsSkippedLine(lines[i]) ::
          LinePin(t, lines[i]).Some? && var pin := LinePin(t, lines[i]).value; pin.0 in deps && deps[pin.0] == pin.1)
    && (forall name | name in deps ::
          exists i :: 0 <= i < |lines| && !IsSkippedLine(lines[i]) && LinePin(t, lines[i]) == Some((name, deps[name])))
  }

  /** A lock that admits some map admits only that one. */
  lemma LockIsUnambiguous<V>(t: Tools<V>, lines: seq<string>, a: map<string, V>, b: map<string, V>)
    requires LockAdmits(t, lines, a) && LockAdmits(t, lines, b)
    ensures a == b
  {
    assert a == b by {
      PinsAgree(t, lines, a, b);
      PinsAgree(t, lines, b, a);
      SameEntries(a, b);
    }
  }

  lemma PinsAgree<V>(t: Tools<V>, lines: seq<string>, a: map<string, V>, b: map<string, V>)
    requires LockAdmits(t, lines, a) && LockAdmits(t, lines, b)
    ensures forall name | name in a :: name in b && b[name] == a[name]
  {
    forall name | name in a ensures name in b && b[name] == a[name] {
      var i :| 0 <= i < |lines| && !IsSkippedLine(lines[i]) && LinePin(t, lines[i]) == Some((name, a[name]));
    }
  }

  /** The lock file is readable and pins exactly the non-empty map `deps`. */
  ghost predicate LockPins<V>(t: Tools<V>, raw: Option<string>, deps: map<string, V>) {
    raw.Some? && deps != map[] && LockAdmits(t, SplitLines(raw.value), deps)
  }

  datatype LockState<V> = LockState(dependencies: map<string, V>, sha: string)

  /** Parses the lock. Success means that the map is exactly what the lines pin, and is not empty. */
  method LoadLock<V(==)>(t: Tools<V>, raw: string) returns (lock: Option<LockState<V>>)
    ensures lock.Some? ==> lock.value.sha == t.sha256(raw) && lock.value.dependencies != map[]
    ensures lock.Some? ==> LockAdmits(t, SplitLines(raw), lock.value.dependencies)
    ensures lock.None? ==> !exists deps :: deps != map[] && LockAdmits(t, SplitLines(raw), deps)
  {
    var lines := SplitLines(raw);
    var deps: map<string, V> := map[];
    for k := 0 to |lines|
      invariant LockAdmits(t, lines[..k], deps)
    {
      var next := ReadLine(t, lines, k, deps);
      if next.None? {
        return None;
      }
      deps := next.value;
    }
    assert lines[..|lines|] == lines;
    if deps == map[] {
      forall other | LockAdmits(t, lines, other) ensures other == map[] {
        LockIsUnambiguous(t, lines, deps, other);
      }
      return None;
    }
    lock := Some(LockState(deps, t.sha256(raw)));
  }

  /** One more line: it extends what the lines before it pin, or no map fits the lock at all. */
  method ReadLine<V(==)>(t: Tools<V>, lines: seq<string>, k: nat, deps: map<string, V>)
    returns (next: Option<map<string, V>>)
    requires k < |lines| && LockAdmits(t, lines[..k], deps)
    ensures next.Some? ==> LockAdmits(t, lines[..k + 1], next.value)
    ensures next.None? ==> forall other :: !LockAdmits(t, lines, other)
  {
    var line := lines[k];
    assert lines[..k + 1] == lines[..k] + [line];
    if IsSkippedLine(line) {
      SkipLine(t, lines[..k], line, deps);
      return Some(deps);
    }
    var pin := LinePin(t, line);
    if pin.None? || (pin.value.0 in deps && deps[pin.value.0] != pin.value.1) {
      forall other ensures !LockAdmits(t, lines, other) {
        LineRefutes(t, lines, k, deps, other);
      }
      return None;
    }
    ExtendLock(t, lines[..k], line, deps, pin.value);
    next := Some(deps[pin.value.0 := pin.value.1]);
  }

  lemma LineRefutes<V>(t: Tools<V>, lines: seq<string>, k: nat, deps: map<string, V>, other: map<string, V>)
    requires k < |lines| && LockAdmits(t, lines[..k], deps) && !IsSkippedLine(lines[k])
    requires var pin := LinePin(t, lines[k]); pin.None? || (pin.value.0 in deps && deps[pin.value.0] != pin.value.1)
    ensures !LockAdmits(t, lines, other)
  {
    if LinePin(t, lines[k]).Some? {
      var name := LinePin(t, lines[k]).value.0;
      var i :| 0 <= i < k && !IsSkippedLine(lines[..k][i]) && LinePin(t, lines[..k][i]) == Some((name, deps[name]));
      assert lines[i] == lines[..k][i];
    }
  }

  lemma ExtendLock<V>(t: Tools<V>, lines: seq<string>, line: string, deps: map<string, V>, pin: (string, V))
    requires LockAdmits(t, lines, deps) && !IsSkippedLine(line) && LinePin(t, line) == Some(pin)
    requires pin.0 in deps ==> deps[pin.0] == pin.1
    ensures LockAdmits(t, lines + [line], deps[pin.0 := pin.1])
  {
    var more, next := lines + [line], deps[pin.0 := pin.1];
    forall name | name in next
      ensures exists i :: 0 <= i < |more| && !IsSkippedLine(more[i]) && LinePin(t, more[i]) == Some((name, next[name]))
    {
      if name == pin.0 {
        assert more[|lines|] == line;
      } else {
        var i :| 0 <= i < |lines| && !IsSkippedLine(lines[i]) && LinePin(t, lines[i]) == Some((name, deps[name]));
        assert more[i] == lines[i];
      }
    }
  }

  lemma SkipLine<V>(t: Tools<V>, lines: seq<string>, line: string, deps: map<string, V>)
    requires LockAdmits(t, lines, deps) && IsSkippedLine(line)
    ensures LockAdmits(t, lines + [line], deps)
  {
    var more := lines + [line];
    forall name | name in deps
      ensures exists i :: 0 <= i < |more| && !IsSkippedLine(more[i]) && LinePin(t, more[i]) == Some((name, deps[name]))
    {
      var i :| 0 <= i < |lines| && !IsSkippedLine(lines[i]) && LinePin(t, lines[i]) == Some((name, deps[name]));
      assert more[i] == lines[i];
    }
  }

  // ----- Reports -----

  /** `None` severity is anything that is not a string. */
  datatype Vulnerability = BadVulnerability | Vulnerability(id: string, severity: Option<string>)

  datatype Dependency =
    | BadDependency
    | Dependency(name: string, version: string, skipped: bool, vulns: seq<Vulnerability>)

  datatype Meta = Meta(schema: string, source: string, generatedAt: int, auditedAt: int, lockSha: string,
                       exitCode: int, snapshot: Option<string>)

  datatype Report = Report(dependencies: seq<Dependency>, fixesIsList: bool, meta: Option<Meta>)

  predicate GoodVulnerability(v: Vulnerability) {
    v.Vulnerability? && Strip(v.id) != ""
  }

  predicate GoodDependency(d: Dependency) {
    && d.Dependency? && Strip(d.name) != "" && Strip(d.version) != "" && !d.skipped
    && forall i | 0 <= i < |d.vulns| :: GoodVulnerability(d.vulns[i])
  }

  /** The entry is well formed and pins what `cover` says for its name. */
  ghost predicate EntryCovers<V>(t: Tools<V>, d: Dependency, cover: map<string, V>) {
    && GoodDependency(d) && CanonicalName(d.name) in cover
    && t.parseVersion(d.version) == Some(cover[CanonicalName(d.name)])
  }

  predicate Names(d: Dependency, name: string) {
    d.Dependency? && CanonicalName(d.name) == name
  }

  /** No two entries have the same canonical name. */
  ghost predicate DistinctNames(deps: seq<Dependency>) {
    forall i, j | 0 <= i < j < |deps| && deps[i].Dependency? :: !Names(deps[j], CanonicalName(deps[i].name))
  }

  ghost predicate Named(deps: seq<Dependency>, name: string) {
    exists i :: 0 <= i < |deps| && Names(deps[i], name)
  }

  /** The report covers exactly `cover`: every entry is well formed and pins its name once. */
  ghost predicate Covers<V>(t: Tools<V>, deps: seq<Dependency>, cover: map<string, V>) {
    && (forall i | 0 <= i < |deps| :: EntryCovers(t, deps[i], cover))
    && DistinctNames(deps)
    && (forall name | name in cover :: Named(deps, name))
  }

  lemma NamedExtends(deps: seq<Dependency>, d: Dependency, name: string)
    ensures Named(deps + [d], name) <==> Named(deps, name) || Names(d, name)
  {
    var more := deps + [d];
    assert more[|deps|] == d;
    if Named(deps, name) {
      var i :| 0 <= i < |deps| && Names(deps[i], name);
      assert Names(more[i], name);
    }
  }

  lemma DistinctExtends(deps: seq<Dependency>, d: Dependency)
    requires DistinctNames(deps) && d.Dependency? && !Named(deps, CanonicalName(d.name))
    ensures DistinctNames(deps + [d])
  {
  }

  lemma NamedIsCovered<V>(t: Tools<V>, deps: seq<Dependency>, cover: map<string, V>, name: string)
    requires Covers(t, deps, cover) && Named(deps, name)
    ensures name in cover
  {
    var i :| 0 <= i < |deps| && Names(deps[i], name);
    assert EntryCovers(t, deps[i], cover);
  }

  lemma ExtendCover<V>(t: Tools<V>, deps: seq<Dependency>, d: Dependency, cover: map<string, V>, version: V)
    requires Covers(t, deps, cover) && GoodDependency(d) && t.parseVersion(d.version) == Some(version)
    requires CanonicalName(d.name) !in cover
    ensures Covers(t, deps + [d], cover[CanonicalName(d.name) := version])
  {
    var more, next := deps + [d], cover[CanonicalName(d.name) := version];
    if Named(deps, CanonicalName(d.name)) {
      NamedIsCovered(t, deps, cover, CanonicalName(d.name));
    }
    DistinctExtends(deps, d);
    forall name | name in next ensures Named(more, name) {
      NamedExtends(deps, d, name);
    }
    forall i | 0 <= i < |more| ensures EntryCovers(t, more[i], next) {
      assert i < |deps| ==> more[i] == deps[i] && EntryCovers(t, deps[i], cover);
    }
  }

  lemma CoverIsUnambiguous<V>(t: Tools<V>, deps: seq<Dependency>, a: map<string, V>, b: map<string, V>)
    requires Covers(t, deps, a) && Covers(t, deps, b)
    ensures a == b
  {
    CoversAgree(t, deps, a, b);
    CoversAgree(t, deps, b, a);
    SameEntries(a, b);
  }

  lemma CoversAgree<V>(t: Tools<V>, deps: seq<Dependency>, a: map<string, V>, b: map<string, V>)
    requires Covers(t, deps, a) && Covers(t, deps, b)
    ensures forall name | name in a :: name in b && b[name] == a[name]
  {
    forall name | name in a ensures name in b && b[name] == a[name] {
      assert Named(deps, name);
      var i :| 0 <= i < |deps| && Names(deps[i], name);
      assert EntryCovers(t, deps[i], a) && EntryCovers(t, deps[i], b);
    }
  }

  /** The report is complete and its entries cover exactly `cover`. */
  ghost predicate ReportCovers<V>(t: Tools<V>, report: Report, cover: map<string, V>) {
    report.dependencies != [] && report.fixesIsList && Covers(t, report.dependencies, cover)
  }

  /** A name that repeats an earlier entry rules out every coverage. */
  lemma RepeatedName<V(!new)>(t: Tools<V>, deps: seq<Dependency>, k: nat, found: map<string, V>)
    requires k < |deps| && Covers(t, deps[..k], found) && deps[k].Dependency? && CanonicalName(deps[k].name) in found
    ensures !exists c :: Covers(t, deps, c)
    ensures exists i, j :: 0 <= i < j < |deps| && deps[i].Dependency? && deps[j].Dependency?
                           && CanonicalName(deps[i].name) == CanonicalName(deps[j].name)
  {
    var name := CanonicalName(deps[k].name);
    assert Named(deps[..k], name);
    var i :| 0 <= i < k && Names(deps[..k][i], name);
    assert Names(deps[i], name) && Names(deps[k], name);
    assert !DistinctNames(deps);
  }

  /** The report can be covered at all: it lists something, and every entry is complete, not skipped, names its
      vulnerabilities, has a version that parses, and is the only one with its canonical name. */
  ghost predicate Coverable<V>(t: Tools<V>, report: Report) {
    && report.dependencies != [] && report.fixesIsList
    && (forall i | 0 <= i < |report.dependencies| :: EntryComplete(t, report.dependencies[i]))
    && (forall i, j | 0 <= i < j < |report.dependencies| ::
          CanonicalName(report.dependencies[i].name) != CanonicalName(report.dependencies[j].name))
  }

  ghost predicate EntryComplete<V>(t: Tools<V>, d: Dependency) {
    && d.Dependency? && Strip(d.name) != "" && Strip(d.version) != "" && !d.skipped && t.parseVersion(d.version).Some?
    && forall k | 0 <= k < |d.vulns| :: d.vulns[k].Vulnerability? && Strip(d.vulns[k].id) != ""
  }

  /** A report that covers some map is complete, entry by entry, and the map holds each entry's version. */
  lemma CoveredIsComplete<V>(t: Tools<V>, report: Report, cover: map<string, V>)
    requires ReportCovers(t, report, cover)
    ensures Coverable(t, report)
    ensures forall i | 0 <= i < |report.dependencies| ::
      var d := report.dependencies[i];
      CanonicalName(d.name) in cover && t.parseVersion(d.version) == Some(cover[CanonicalName(d.name)])
  {
    var deps := report.dependencies;
    forall i | 0 <= i < |deps| ensures EntryComplete(t, deps[i]) && EntryCovers(t, deps[i], cover) {
      assert EntryCovers(t, deps[i], cover);
    }
    forall i, j | 0 <= i < j < |deps| ensures CanonicalName(deps[i].name) != CanonicalName(deps[j].name) {
      assert EntryCovers(t, deps[i], cover) && EntryCovers(t, deps[j], cover);
      assert !Names(deps[j], CanonicalName(deps[i].name));
    }
  }

  /** The coverage of a report, or `None` when any entry is malformed, skipped or repeated. */
  method ReportCoverage<V(==, !new)>(t: Tools<V>, report: Report) returns (cover: Option<map<string, V>>)
    ensures cover.Some? ==> ReportCovers(t, report, cover.value)
    ensures cover.None? ==> !exists c :: ReportCovers(t, report, c)
    ensures cover.Some? <==> Coverable(t, report)
  {
    if report.dependencies == [] || !report.fixesIsList {
      return None;
    }
    var deps := report.dependencies;
    var found: map<string, V> := map[];
    for k := 0 to |deps|
      invariant Covers(t, deps[..k], found)
    {
      var d := deps[k];
      assert deps[..k + 1] == deps[..k] + [d];
      if !GoodDependency(d) || t.parseVersion(d.version).None? {
        assert !EntryComplete(t, d);
        return None;
      }
      if CanonicalName(d.name) in found {
        RepeatedName(t, deps, k, found);
        return None;
      }
      ExtendCover(t, deps[..k], d, found, t.parseVersion(d.version).value);
      found := found[CanonicalName(d.name) := t.parseVersion(d.version).value];
    }
    assert deps[..|deps|] == deps;
    cover := Some(found);
    CoveredIsComplete(t, report, found);
  }

  predicate HasVulnerabilities(report: Report) {
    exists i ::
      0 <= i < |report.dependencies| && report.dependencies[i].Dependency? && report.dependencies[i].vulns != []
  }

  /** Exit status 0 means no vulnerability was reported, 1 that some were; anything else is untrusted. */
  predicate ExitAgrees(code: int, report: Report) {
    (code == 0 && !HasVulnerabilities(report)) || (code == 1 && HasVulnerabilities(report))
  }

  function WithProvenance(report: Report, source: string, sha: string, generatedAt: int, auditedAt: int, code: int,
                          snapshot: Option<string>): Report
  {
    report.(meta := Some(Meta(REPORT_SCHEMA, source, generatedAt, auditedAt, sha, code, snapshot)))
  }

  /** The exit status has to say whether any entry lists a vulnerability. */
  lemma ExitAgreesIff(code: int, report: Report)
    ensures ExitAgrees(code, report)
       <==> && (code == 0 || code == 1)
            && (code == 0 <==>
                  forall i | 0 <= i < |report.dependencies| && report.dependencies[i].Dependency? ::
                    report.dependencies[i].vulns == [])
  {
  }

  // ----- Snapshots -----

  /** The calendar day of a UTC timestamp in microseconds. */
  function DateOf(timestamp: int): int {
    timestamp / DAY_MICROSECONDS
  }

  /** A snapshot file: the day in its name, if it has one, and its report. */
  datatype SnapshotFile = SnapshotFile(name: string, day: Option<int>, report: Report)

  predicate ProvenanceAccepted(file: SnapshotFile, sha: string, now: int) {
    && file.report.meta.Some?
    && var m := file.report.meta.value;
    && m.schema == REPORT_SCHEMA && m.source == SNAPSHOT && m.lockSha == sha
    && m.exitCode in {0, 1}
    && m.generatedAt >= m.auditedAt
    && m.generatedAt <= now && m.auditedAt <= now
    && now - m.auditedAt <= MAX_SNAPSHOT_AGE_DAYS * DAY_MICROSECONDS
    && file.day.Some? && file.day.value <= DateOf(now) && file.day.value == DateOf(m.auditedAt)
    && ExitAgrees(m.exitCode, file.report)
  }

  /** A snapshot is accepted exactly with its literal schema and source, the lock's digest, a status that
      agrees with its entries, an audit of the last fourteen days that is not later than its
      generation, nothing from the future, and the audit day in its file name. */
  lemma SnapshotAcceptedIff(file: SnapshotFile, sha: string, now: int)
    ensures ProvenanceAccepted(file, sha, now)
       <==> && file.report.meta.Some?
            && var m := file.report.meta.value;
            && m.schema == "flinttrade-pip-audit-v1" && m.source == "online-osv-snapshot" && m.lockSha == sha
            && m.auditedAt <= m.generatedAt <= now && now - m.auditedAt <= 14 * 24 * 60 * 60 * 1_000_000
            && file.day == Some(m.auditedAt / (24 * 60 * 60 * 1_000_000))
            && ExitAgrees(m.exitCode, file.report)
  {
    if file.report.meta.Some? && file.report.meta.value.auditedAt <= now {
      DateIsMonotone(file.report.meta.value.auditedAt, now);
    }
  }

  /** A captured report, stored under some day, is accepted for the same lock exactly when that day is
      its audit day and its age is between 0 and 14 days. */
  lemma CapturedSnapshotIsAcceptedIff(report: Report, sha: string, audited: int, code: int,
                                      name: string, day: Option<int>, now: int)
    requires ExitAgrees(code, report)
    ensures var stored := WithProvenance(report, SNAPSHOT, sha, audited, audited, code, None);
      ProvenanceAccepted(SnapshotFile(name, day, stored), sha, now)
      <==> day == Some(DateOf(audited)) && 0 <= now - audited <= MAX_SNAPSHOT_AGE_DAYS * DAY_MICROSECONDS
  {
    var stored := WithProvenance(report, SNAPSHOT, sha, audited, audited, code, None);
    assert HasVulnerabilities(stored) == HasVulnerabilities(report);
    if audited <= now {
      DateIsMonotone(audited, now);
    }
  }

  lemma DateIsMonotone(a: int, b: int)
    requires a <= b
    ensures DateOf(a) <= DateOf(b)
  {
  }

  /** A report published from the cache, or by the gate's own online audit, never passes for a snapshot. */
  lemma RepublishedIsNoSnapshot(report: Report, source: string, sha: string, generated: int, audited: int, code: int,
                                cached: Option<string>, name: string, day: Option<int>, lockSha: string, now: int)
    requires source != SNAPSHOT
    ensures var stored := WithProvenance(report, source, sha, generated, audited, code, cached);
      !ProvenanceAccepted(SnapshotFile(name, day, stored), lockSha, now)
  {
  }

  // ----- Findings -----

  datatype Entry = Entry(vulnId: string, package: string, expires: int)

  function NormalSeverity(severity: Option<string>): string {
    if severity.None? then "UNKNOWN"
    else
      var s := Upper(Strip(severity.value));
      if s in {"LOW", "MEDIUM", "MODERATE", "HIGH", "CRITICAL", "UNKNOWN"} then s else "UNKNOWN"
  }

  predicate IsBlockingSeverity(severity: Option<string>) {
    NormalSeverity(severity) in {"HIGH", "CRITICAL", "UNKNOWN"}
  }

  /** An unexpired allowlist entry names this vulnerability in this package. */
  predicate Allowed(entries: seq<Entry>, today: int, vulnId: string, package: string) {
    exists i :: 0 <= i < |entries| && entries[i].expires >= today
                && entries[i].vulnId == vulnId && CanonicalName(entries[i].package) == CanonicalName(package)
  }

  predicate Blocks(entries: seq<Entry>, today: int, d: Dependency, v: Vulnerability) {
    d.Dependency? && v.Vulnerability? && IsBlockingSeverity(v.severity) && !Allowed(entries, today, v.id, d.name)
  }

  /** The findings that block, in report order. */
  function BlockingIn(entries: seq<Entry>, today: int, d: Dependency, vulns: seq<Vulnerability>)
    : seq<(Dependency, Vulnerability)> {
    if vulns == [] then []
    else
      var before := BlockingIn(entries, today, d, vulns[..|vulns| - 1]);
      var last := vulns[|vulns| - 1];
      if Blocks(entries, today, d, last) then before + [(d, last)] else before
  }

  function BlockingFindings(entries: seq<Entry>, today: int, deps: seq<Dependency>): seq<(Dependency, Vulnerability)> {
    if deps == [] then []
    else
      var last := deps[|deps| - 1];
      BlockingFindings(entries, today, deps[..|deps| - 1])
      + (if last.Dependency? then BlockingIn(entries, today, last, last.vulns) else [])
  }

  method CollectBlocking(entries: seq<Entry>, today: int, deps: seq<Dependency>)
    returns (blocking: seq<(Dependency, Vulnerability)>)
    ensures blocking == BlockingFindings(entries, today, deps)
  {
    blocking := [];
    for k := 0 to |deps|
      invariant blocking == BlockingFindings(entries, today, deps[..k])
    {
      var d := deps[k];
      assert deps[..k + 1][..k] == deps[..k];
      if d.Dependency? {
        var own: seq<(Dependency, Vulnerability)> := [];
        for j := 0 to |d.vulns|
          invariant own == BlockingIn(entries, today, d, d.vulns[..j])
        {
          assert d.vulns[..j + 1][..j] == d.vulns[..j];
          if Blocks(entries, today, d, d.vulns[j]) {
            own := own + [(d, d.vulns[j])];
          }
        }
        assert d.vulns[..|d.vulns|] == d.vulns;
        blocking := blocking + own;
      }
    }
    assert deps[..|deps|] == deps;
  }

  lemma {:induction false} NoBlockingIn(entries: seq<Entry>, today: int, d: Dependency, vulns: seq<Vulnerability>)
    ensures BlockingIn(entries, today, d, vulns) == []
       <==> forall j | 0 <= j < |vulns| :: !Blocks(entries, today, d, vulns[j])
  {
    if vulns != [] {
      var before := vulns[..|vulns| - 1];
      NoBlockingIn(entries, today, d, before);
      assert forall j | 0 <= j < |before| :: before[j] == vulns[j];
    }
  }

  /** A finding is excused by a severity that is given and is low, medium or moderate, in any case and with any
      blanks around it, or by an entry with its id and its package that has not expired. */
  ghost predicate Excused(entries: seq<Entry>, today: int, name: string, v: Vulnerability)
    requires v.Vulnerability?
  {
    || (v.severity.Some? && Upper(Strip(v.severity.value)) in {"LOW", "MEDIUM", "MODERATE"})
    || (exists i :: 0 <= i < |entries| && entries[i].vulnId == v.id && entries[i].expires >= today
                    && CanonicalName(entries[i].package) == CanonicalName(name))
  }

  lemma BlocksIff(entries: seq<Entry>, today: int, d: Dependency, v: Vulnerability)
    ensures Blocks(entries, today, d, v) <==> d.Dependency? && v.Vulnerability? && !Excused(entries, today, d.name, v)
  {
    if v.Vulnerability? {
      BlockingSeverityIff(v.severity);
    }
  }

  lemma BlockingSeverityIff(severity: Option<string>)
    ensures IsBlockingSeverity(severity)
       <==> severity.None? || Upper(Strip(severity.value)) !in {"LOW", "MEDIUM", "MODERATE"}
  {
  }

  /** The blocking findings are exactly those of the report that nothing excuses. */
  lemma {:induction false} BlockingIsUnexcused(entries: seq<Entry>, today: int, deps: seq<Dependency>,
                                               d: Dependency, v: Vulnerability)
    ensures (d, v) in BlockingFindings(entries, today, deps)
       <==> d in deps && d.Dependency? && v in d.vulns && v.Vulnerability? && !Excused(entries, today, d.name, v)
  {
    if deps != [] {
      var before, last := deps[..|deps| - 1], deps[|deps| - 1];
      BlockingIsUnexcused(entries, today, before, d, v);
      assert deps == before + [last];
      if last.Dependency? {
        BlockingInUnexcused(entries, today, last, last.vulns, d, v);
      }
    }
  }

  lemma {:induction false} BlockingInUnexcused(entries: seq<Entry>, today: int, own: Dependency,
                                               vulns: seq<Vulnerability>, d: Dependency, v: Vulnerability)
    requires own.Dependency?
    ensures (d, v) in BlockingIn(entries, today, own, vulns)
       <==> d == own && v in vulns && v.Vulnerability? && !Excused(entries, today, own.name, v)
  {
    if vulns != [] {
      var before, last := vulns[..|vulns| - 1], vulns[|vulns| - 1];
      BlockingInUnexcused(entries, today, own, before, d, v);
      assert vulns == before + [last];
      BlocksIff(entries, today, own, last);
    }
  }

  /** Nothing blocks exactly when every high, critical or unknown finding has an unexpired entry. */
  lemma {:induction false} NoBlockingFindings(entries: seq<Entry>, today: int, deps: seq<Dependency>)
    ensures BlockingFindings(entries, today, deps) == [] <==>
      forall i, j | 0 <= i < |deps| && deps[i].Dependency? && 0 <= j < |deps[i].vulns| ::
        !Blocks(entries, today, deps[i], deps[i].vulns[j])
  {
    if deps != [] {
      var before, last := deps[..|deps| - 1], deps[|deps| - 1];
      NoBlockingFindings(entries, today, before);
      assert forall i | 0 <= i < |before| :: before[i] == deps[i];
      if last.Dependency? {
        NoBlockingIn(entries, today, last, last.vulns);
      }
    }
  }

  // ----- The gate -----

  /** What `pip-audit` did: nothing trustworthy, or an exit status with a parsed report. */
  datatype AuditRun = NoRun | Completed(code: int, report: Report)

  /** Everything the gate reads from outside, in order: the lock three times (`None`: unreadable), the
      audit, the latest snapshot, the clock, the allowlist, and whether files can be removed and written. */
  datatype Surroundings = Surroundings(
    lockFirst: Option<string>, lockAfterAudit: Option<string>, lockLast: Option<string>,
    audit: AuditRun, snapshot: Option<SnapshotFile>,
    now: int, entries: seq<Entry>, today: int, removable: bool, writable: bool)

  method ReadLock<V(==)>(t: Tools<V>, raw: Option<string>) returns (lock: Option<LockState<V>>)
    ensures lock.Some? ==> LockPins(t, raw, lock.value.dependencies) && lock.value.sha == t.sha256(raw.value)
    ensures lock.None? ==> !exists deps :: LockPins(t, raw, deps)
  {
    if raw.None? {
      return None;
    }
    lock := LoadLock(t, raw.value);
  }

  /** The lock file still parses and still has this digest. */
  ghost predicate StillLocked<V(!new)>(t: Tools<V>, raw: Option<string>, sha: string) {
    (exists deps :: LockPins(t, raw, deps)) && t.sha256(raw.value) == sha
  }

  /** Different lock files have different digests. */
  ghost predicate CollisionFree<V>(t: Tools<V>) {
    forall a, b | t.sha256(a) == t.sha256(b) :: a == b
  }

  method LockUnchanged<V(==, !new)>(t: Tools<V>, raw: Option<string>, lock: LockState<V>) returns (same: bool)
    ensures same <==> StillLocked(t, raw, lock.sha)
  {
    var current := ReadLock(t, raw);
    same := current.Some? && current.value.sha == lock.sha;
  }

  method CoverageMatches<V(==, !new)>(t: Tools<V>, report: Report, lock: LockState<V>) returns (ok: bool)
    ensures ok <==> ReportCovers(t, report, lock.dependencies)
  {
    var cover := ReportCoverage(t, report);
    ok := cover.Some? && cover.value == lock.dependencies;
    if cover.Some? && ReportCovers(t, report, lock.dependencies) {
      CoverIsUnambiguous(t, report.dependencies, cover.value, lock.dependencies);
    }
  }

  /** A trustworthy online audit of the lock with this map and digest. */
  ghost predicate OnlineTrusted<V(!new)>(t: Tools<V>, s: Surroundings, deps: map<string, V>, sha: string) {
    && s.audit.Completed? && ExitAgrees(s.audit.code, s.audit.report)
    && StillLocked(t, s.lockAfterAudit, sha) && ReportCovers(t, s.audit.report, deps)
  }

  /** A trustworthy snapshot for the lock with this map and digest. */
  ghost predicate OfflineTrusted<V>(t: Tools<V>, s: Surroundings, deps: map<string, V>, sha: string) {
    && s.snapshot.Some? && ProvenanceAccepted(s.snapshot.value, sha, s.now)
    && ReportCovers(t, s.snapshot.value.report, deps)
  }

  method OnlineAudit<V(==, !new)>(t: Tools<V>, s: Surroundings, lock: LockState<V>, source: string)
    returns (report: Option<Report>)
    ensures report.Some? <==> OnlineTrusted(t, s, lock.dependencies, lock.sha)
    ensures report.Some? ==>
      && report.value == WithProvenance(s.audit.report, source, lock.sha, s.now, s.now, s.audit.code, None)
      && report.value.dependencies == s.audit.report.dependencies
      && report.value.meta
         == Some(Meta("flinttrade-pip-audit-v1", source, s.now, s.now, lock.sha, s.audit.code, None))
  {
    if s.audit.NoRun? || s.audit.code !in {0, 1} {
      return None;
    }
    var same := LockUnchanged(t, s.lockAfterAudit, lock);
    if !same {
      return None;
    }
    var ok := CoverageMatches(t, s.audit.report, lock);
    if !ok || !ExitAgrees(s.audit.code, s.audit.report) {
      return None;
    }
    report := Some(WithProvenance(s.audit.report, source, lock.sha, s.now, s.now, s.audit.code, None));
  }

  method OfflineSnapshot<V(==, !new)>(t: Tools<V>, s: Surroundings, lock: LockState<V>) returns (report: Option<Report>)
    ensures report.Some? <==> OfflineTrusted(t, s, lock.dependencies, lock.sha)
    ensures report.Some? ==>
      var m := s.snapshot.value.report.meta.value;
      && report.value == WithProvenance(s.snapshot.value.report, CACHED, lock.sha, s.now,
                                        m.auditedAt, m.exitCode, Some(s.snapshot.value.name))
      && report.value.dependencies == s.snapshot.value.report.dependencies
      && report.value.meta.Some? && report.value.meta.value.source == "cached-osv-snapshot"
      && report.value.meta.value.generatedAt == s.now && report.value.meta.value.auditedAt == m.auditedAt
  {
    if s.snapshot.None? {
      return None;
    }
    var file := s.snapshot.value;
    var ok := CoverageMatches(t, file.report, lock);
    if !ok || !ProvenanceAccepted(file, lock.sha, s.now) {
      return None;
    }
    var m := file.report.meta.value;
    report := Some(WithProvenance(file.report, CACHED, lock.sha, s.now, m.auditedAt, m.exitCode, Some(file.name)));
  }

  /** Every finding of the report is excused. */
  ghost predicate AllExcused(s: Surroundings, report: Report) {
    forall i, j | 0 <= i < |report.dependencies| && report.dependencies[i].Dependency?
                  && 0 <= j < |report.dependencies[i].vulns| && report.dependencies[i].vulns[j].Vulnerability? ::
      Excused(s.entries, s.today, report.dependencies[i].name, report.dependencies[i].vulns[j])
  }

  lemma NothingBlocksIff(s: Surroundings, report: Report)
    ensures BlockingFindings(s.entries, s.today, report.dependencies) == [] <==> AllExcused(s, report)
  {
    NoBlockingFindings(s.entries, s.today, report.dependencies);
    forall i, j | 0 <= i < |report.dependencies| && report.dependencies[i].Dependency?
                  && 0 <= j < |report.dependencies[i].vulns|
      ensures Blocks(s.entries, s.today, report.dependencies[i], report.dependencies[i].vulns[j])
         <==> report.dependencies[i].vulns[j].Vulnerability?
              && !Excused(s.entries, s.today, report.dependencies[i].name, report.dependencies[i].vulns[j])
    {
      BlocksIff(s.entries, s.today, report.dependencies[i], report.dependencies[i].vulns[j]);
    }
  }

  /** When the gate reaches a verdict at all: files can be removed and written, the lock as first read
      pins `deps`, an online audit or a snapshot is trustworthy for it, and the lock still has the same
      digest at the final re-check. */
  ghost predicate Conclusive<V(!new)>(t: Tools<V>, s: Surroundings, deps: map<string, V>) {
    && s.removable && s.writable && LockPins(t, s.lockFirst, deps)
    && var sha := t.sha256(s.lockFirst.value);
    && (OnlineTrusted(t, s, deps, sha) || OfflineTrusted(t, s, deps, sha))
    && StillLocked(t, s.lockLast, sha)
  }

  /** The published report covers exactly the pinned map, is bound to the lock's digest, and can never
      serve as a snapshot itself. */
  ghost predicate Bound<V>(t: Tools<V>, s: Surroundings, report: Report, deps: map<string, V>) {
    && ReportCovers(t, report, deps)
    && report.meta.Some? && s.lockFirst.Some? && report.meta.value.lockSha == t.sha256(s.lockFirst.value)
    && report.meta.value.source in {ONLINE, CACHED}
  }

  /** The exit status, exactly: 2 publishes nothing and means that no verdict was possible; otherwise a
      report bound to the lock is published, and the status is 0 when every high, critical or unknown
      finding in it has an unexpired allowlist entry and 1 when some has none. */
  method RunGate<V(==, !new)>(t: Tools<V>, s: Surroundings) returns (code: int, published: Option<Report>)
    ensures code in {0, 1, 2} && (code == 2 <==> published.None?)
    ensures code != 2 <==> exists deps :: Conclusive(t, s, deps)
    ensures code != 2 ==> forall deps | LockPins(t, s.lockFirst, deps) :: Bound(t, s, published.value, deps)
    ensures code != 2 ==> (code == 0 <==> AllExcused(s, published.value))
    ensures code != 2 && CollisionFree(t) ==> s.lockLast == s.lockFirst
  {
    code, published := 2, None;
    if !s.removable {
      return;
    }
    var lock := ReadLock(t, s.lockFirst);
    if lock.None? {
      return;
    }
    ghost var deps := lock.value.dependencies;
    forall other | LockPins(t, s.lockFirst, other) ensures other == deps {
      LockIsUnambiguous(t, SplitLines(s.lockFirst.value), deps, other);
    }
    var report := OnlineAudit(t, s, lock.value, ONLINE);
    if report.None? {
      report := OfflineSnapshot(t, s, lock.value);
    }
    if report.None? {
      return;
    }
    var same := LockUnchanged(t, s.lockLast, lock.value);
    if !same || !s.writable {
      return;
    }
    assert Conclusive(t, s, deps) && Bound(t, s, report.value, deps);
    var blocking := CollectBlocking(s.entries, s.today, report.value.dependencies);
    NothingBlocksIff(s, report.value);
    code, published := if blocking != [] then 1 else 0, report;
  }

  /** A captured snapshot covers the lock it was taken for, and passes the consumer's checks for that
      lock exactly when stored under its audit day and read 0 to 14 days later. */
  method CaptureSnapshot<V(==, !new)>(t: Tools<V>, s: Surroundings) returns (code: int, captured: Option<Report>)
    ensures code == 0 <==> captured.Some?
    ensures captured.Some? ==> exists deps :: LockPins(t, s.lockFirst, deps) && ReportCovers(t, captured.value, deps)
    ensures captured.Some? ==> StillLocked(t, s.lockLast, t.sha256(s.lockFirst.value))
    ensures captured.Some? && CollisionFree(t) ==> s.lockLast == s.lockFirst
    ensures captured.Some? ==> forall name, day, now ::
      ProvenanceAccepted(SnapshotFile(name, day, captured.value), t.sha256(s.lockFirst.value), now)
      <==> day == Some(DateOf(s.now)) && 0 <= now - s.now <= MAX_SNAPSHOT_AGE_DAYS * DAY_MICROSECONDS
  {
    code, captured := 2, None;
    if !s.removable {
      return;
    }
    var lock := ReadLock(t, s.lockFirst);
    if lock.None? {
      return;
    }
    var report := OnlineAudit(t, s, lock.value, SNAPSHOT);
    if report.None? {
      return;
    }
    var same := LockUnchanged(t, s.lockLast, lock.value);
    if !same || !s.writable {
      return;
    }
    forall name, day, now
      ensures ProvenanceAccepted(SnapshotFile(name, day, report.value), lock.value.sha, now)
         <==> day == Some(DateOf(s.now)) && 0 <= now - s.now <= MAX_SNAPSHOT_AGE_DAYS * DAY_MICROSECONDS
    {
      CapturedSnapshotIsAcceptedIff(s.audit.report, lock.value.sha, s.now, s.audit.code, name, day, now);
    }
    code, captured := 0, report;
  }
}
