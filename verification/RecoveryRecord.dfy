/** The durable recovery record and cleanup proof as text: what a launch prints, and what the
    recovery code reads back. */
module RecoveryRecord {
  import opened PyText

  const RECORD_VERSION := "v4"
  const PENDING := "pending"
  const CLEANUP_COMPLETE_SENTINEL := "FLINTTRADE_BACKEND_CLEANUP_COMPLETE"

  datatype Record = Record(
    version: string,
    guardianPid: int,
    applicationPid: Option<int>,
    shellPid: int,
    bootId: Option<string>,
    launchToken: Option<string>,
    spawnContained: bool)

  predicate ValidHex(value: string, minimum: nat, maximum: nat) {
    && minimum <= |value| <= maximum
    && |value| % 2 == 0
    && forall i | 0 <= i < |value| :: IsHexDigit(value[i])
  }

  predicate ValidBootId(bootId: string) { ValidHex(bootId, 16, 512) }

  predicate ValidToken(token: string) { ValidHex(token, 64, 64) }

  // ----- Printing -----

  function ApplicationField(applicationPid: Option<int>): string
    requires applicationPid.Some? ==> applicationPid.value > 0
  {
    if applicationPid.None? then PENDING else Decimal(applicationPid.value)
  }

  function RecordLines(guardianPid: int, applicationPid: Option<int>, shellPid: int, bootId: string, token: string)
    : seq<string>
    requires guardianPid > 0 && shellPid > 0
    requires applicationPid.Some? ==> applicationPid.value > 0
  {
    [RECORD_VERSION, Decimal(guardianPid), ApplicationField(applicationPid), Decimal(shellPid), bootId, token]
  }

  /** The six lines that creation (`pending`), promotion and finalisation all print. */
  function Print(guardianPid: int, applicationPid: Option<int>, shellPid: int, bootId: string, token: string): string
    requires guardianPid > 0 && shellPid > 0
    requires applicationPid.Some? ==> applicationPid.value > 0
  {
    JoinLines(RecordLines(guardianPid, applicationPid, shellPid, bootId, token))
  }

  function PrintProof(token: string): string {
    CLEANUP_COMPLETE_SENTINEL + " token=" + token + "\n"
  }

  // ----- Parsing -----

  function PositivePid(raw: string): Option<int> {
    match ParseInt(Strip(raw))
    case None => None
    case Some(value) => if value > 0 then Some(value) else None
  }

  /** The shared reading of lines 1 to 3: guardian, application or `pending`, shell. */
  function ParsePids(lines: seq<string>): Option<(int, Option<int>, int)>
    requires |lines| >= 4
  {
    var guardianPid := PositivePid(lines[1]);
    var rawApplication := Strip(lines[2]);
    var applicationPid := if rawApplication == PENDING then None else PositivePid(rawApplication);
    var shellPid := PositivePid(lines[3]);
    if guardianPid.None? || (rawApplication != PENDING && applicationPid.None?) || shellPid.None? then None
    else Some((guardianPid.value, applicationPid, shellPid.value))
  }

  function Parse(payload: string): Option<Record> {
    if IsAscii(payload) then ParseLines(SplitLines(payload)) else None
  }

  function ParseLines(lines: seq<string>): Option<Record> {
    if |lines| == 6 && Strip(lines[0]) in {RECORD_VERSION, "v3"} then
      var pids := ParsePids(lines);
      if pids.None? || !ValidBootId(lines[4]) || !ValidToken(lines[5]) then None
      else Some(Record(Strip(lines[0]), pids.value.0, pids.value.1, pids.value.2,
                       Some(lines[4]), Some(lines[5]), Strip(lines[0]) == RECORD_VERSION))
    else if |lines| == 5 && Strip(lines[0]) == "v2" then
      var pids := ParsePids(lines);
      if pids.None? || !ValidToken(lines[4]) then None
      else Some(Record("v2", pids.value.0, pids.value.1, pids.value.2, None, Some(lines[4]), false))
    else if |lines| == 3 then
      var guardianPid, shellPid := PositivePid(lines[0]), PositivePid(lines[1]);
      if guardianPid.None? || shellPid.None? || !ValidToken(lines[2]) then None
      else Some(Record("v1", guardianPid.value, None, shellPid.value, None, Some(lines[2]), false))
    else if |lines| == 2 then
      var guardianPid, shellPid := PositivePid(lines[0]), PositivePid(lines[1]);
      if guardianPid.None? || shellPid.None? then None
      else Some(Record("legacy", guardianPid.value, None, shellPid.value, None, None, false))
    else None
  }

  /** The token of an exact proof; `None` for any other payload. */
  function ProofToken(payload: string): Option<string> {
    var prefix := CLEANUP_COMPLETE_SENTINEL + " token=";
    if |payload| < |prefix| || payload[..|prefix|] != prefix || payload[|payload| - 1] != '\n' then None
    else
      var token := if |payload| == |prefix| then "" else payload[|prefix|..|payload| - 1];
      if ValidToken(token) then Some(token) else None
  }

  // ----- Reading back what was printed -----

  lemma HexIsWord(value: string, minimum: nat, maximum: nat)
    requires ValidHex(value, minimum, maximum) && minimum > 0
    ensures IsWord(value)
  {
  }

  lemma PendingIsNotDecimal(n: nat)
    ensures Decimal(n) != PENDING
  {
    assert IsDigit(Decimal(n)[0]) && !IsDigit(PENDING[0]);
  }

  /** A valid identity, written out: an even number of hexadecimal digits within the bounds. */
  lemma ValidHexIff(value: string, minimum: nat, maximum: nat)
    ensures ValidHex(value, minimum, maximum)
       <==> && minimum <= |value| <= maximum && |value| % 2 == 0
            && forall i | 0 <= i < |value| :: value[i] in "0123456789abcdefABCDEF"
  {
    forall i | 0 <= i < |value| ensures IsHexDigit(value[i]) <==> value[i] in "0123456789abcdefABCDEF" {
      HexDigitIff(value[i]);
    }
  }

  lemma HexDigitIff(c: char)
    ensures IsHexDigit(c) <==> c in "0123456789abcdefABCDEF"
  {
    var digits := "0123456789abcdefABCDEF";
    if '0' <= c <= '9' {
      assert digits[c as int - '0' as int] == c;
    } else if 'a' <= c <= 'f' {
      assert digits[10 + (c as int - 'a' as int)] == c;
    } else if 'A' <= c <= 'F' {
      assert digits[16 + (c as int - 'A' as int)] == c;
    }
  }

  lemma LinesRoundTrip(lines: seq<string>)
    requires forall i | 0 <= i < |lines| :: IsWord(lines[i])
    ensures SplitLines(JoinLines(lines)) == lines && IsAscii(JoinLines(lines))
  {
    forall i | 0 <= i < |lines| ensures IsLine(lines[i]) && IsAscii(lines[i]) {
      WordIsLine(lines[i]);
    }
    JoinedLines(lines);
    JoinedLinesAscii(lines);
  }

  /** The printed text splits into exactly its six fields. */
  lemma PrintedLines(g: int, a: Option<int>, shell: int, bootId: string, token: string)
    requires g > 0 && shell > 0 && (a.Some? ==> a.value > 0)
    requires ValidBootId(bootId) && ValidToken(token)
    ensures SplitLines(Print(g, a, shell, bootId, token))
         == RecordLines(g, a, shell, bootId, token)
    ensures IsAscii(Print(g, a, shell, bootId, token))
  {
    DecimalRoundTrip(g);
    DecimalRoundTrip(shell);
    if a.Some? { DecimalRoundTrip(a.value); }
    HexIsWord(bootId, 16, 512);
    HexIsWord(token, 64, 64);
    LinesRoundTrip(RecordLines(g, a, shell, bootId, token));
  }

  lemma PositivePidRoundTrip(n: int)
    requires n > 0
    ensures PositivePid(Decimal(n)) == Some(n)
  {
    DecimalRoundTrip(n);
  }

  lemma ApplicationFieldRoundTrip(a: Option<int>)
    requires a.Some? ==> a.value > 0
    ensures Strip(ApplicationField(a)) == ApplicationField(a)
    ensures ApplicationField(a) == PENDING <==> a.None?
    ensures a.Some? ==> PositivePid(ApplicationField(a)) == a
  {
    if a.None? {
      StripWord(PENDING);
    } else {
      DecimalRoundTrip(a.value);
      PendingIsNotDecimal(a.value);
    }
  }

  lemma CurrentLines(lines: seq<string>, pids: (int, Option<int>, int))
    requires |lines| == 6 && Strip(lines[0]) == RECORD_VERSION && ParsePids(lines) == Some(pids)
    requires ValidBootId(lines[4]) && ValidToken(lines[5])
    ensures ParseLines(lines)
         == Some(Record(RECORD_VERSION, pids.0, pids.1, pids.2, Some(lines[4]), Some(lines[5]), true))
  {
  }

  lemma ParsedRecord(g: int, a: Option<int>, shell: int, bootId: string, token: string)
    requires g > 0 && shell > 0 && (a.Some? ==> a.value > 0)
    requires ValidBootId(bootId) && ValidToken(token)
    ensures ParseLines(RecordLines(g, a, shell, bootId, token))
         == Some(Record(RECORD_VERSION, g, a, shell, Some(bootId), Some(token), true))
  {
    PidFields(RecordLines(g, a, shell, bootId, token), g, a, shell);
    StripWord(RECORD_VERSION);
    CurrentLines(RecordLines(g, a, shell, bootId, token), (g, a, shell));
  }

  /** Parsing a created or promoted record yields exactly its fields, with containment set. */
  lemma RecordRoundTrip(g: int, a: Option<int>, shell: int, bootId: string, token: string)
    requires g > 0 && shell > 0 && (a.Some? ==> a.value > 0)
    requires ValidBootId(bootId) && ValidToken(token)
    ensures Parse(Print(g, a, shell, bootId, token))
         == Some(Record(RECORD_VERSION, g, a, shell, Some(bootId), Some(token), true))
  {
    PrintedLines(g, a, shell, bootId, token);
    ParsedRecord(g, a, shell, bootId, token);
  }

  /** Two launches never print the same record, so comparing bytes identifies one launch. */
  lemma PrintInjective(g1: int, a1: Option<int>, s1: int, b1: string, t1: string,
                       g2: int, a2: Option<int>, s2: int, b2: string, t2: string)
    requires g1 > 0 && s1 > 0 && (a1.Some? ==> a1.value > 0) && ValidBootId(b1) && ValidToken(t1)
    requires g2 > 0 && s2 > 0 && (a2.Some? ==> a2.value > 0) && ValidBootId(b2) && ValidToken(t2)
    ensures Print(g1, a1, s1, b1, t1) == Print(g2, a2, s2, b2, t2)
       <==> g1 == g2 && a1 == a2 && s1 == s2 && b1 == b2 && t1 == t2
  {
    RecordRoundTrip(g1, a1, s1, b1, t1);
    RecordRoundTrip(g2, a2, s2, b2, t2);
  }

  /** The proof parser accepts exactly the printed proofs of valid tokens. */
  lemma ProofRoundTrip(payload: string, token: string)
    ensures PrintProof(token) == "FLINTTRADE_BACKEND_CLEANUP_COMPLETE token=" + token + "\n"
    ensures ProofToken(payload) == Some(token) <==> payload == PrintProof(token) && ValidToken(token)
  {
    var prefix := CLEANUP_COMPLETE_SENTINEL + " token=";
    if payload == PrintProof(token) && ValidToken(token) {
      assert payload[..|prefix|] == prefix;
      assert payload[|prefix|..|payload| - 1] == token;
    }
    if ProofToken(payload) == Some(token) {
      assert payload == payload[..|prefix|] + payload[|prefix|..|payload| - 1] + [payload[|payload| - 1]];
    }
  }

  // ----- Older shapes, which recovery still reads -----

  lemma V3Lines(lines: seq<string>, pids: (int, Option<int>, int))
    requires |lines| == 6 && Strip(lines[0]) == "v3" && ParsePids(lines) == Some(pids)
    requires ValidBootId(lines[4]) && ValidToken(lines[5])
    ensures ParseLines(lines)
         == Some(Record("v3", pids.0, pids.1, pids.2, Some(lines[4]), Some(lines[5]), false))
  {
  }

  lemma V3RoundTrip(g: int, a: Option<int>, shell: int, bootId: string, token: string)
    requires g > 0 && shell > 0 && (a.Some? ==> a.value > 0) && ValidBootId(bootId) && ValidToken(token)
    ensures Parse(JoinLines(["v3", Decimal(g), ApplicationField(a), Decimal(shell), bootId, token]))
         == Some(Record("v3", g, a, shell, Some(bootId), Some(token), false))
  {
    var lines := ["v3", Decimal(g), ApplicationField(a), Decimal(shell), bootId, token];
    FieldsAreWords(g, a, shell, token);
    HexIsWord(bootId, 16, 512);
    LinesRoundTrip(lines);
    StripWord("v3");
    PidFields(lines, g, a, shell);
    V3Lines(lines, (g, a, shell));
  }

  lemma V2Lines(lines: seq<string>, pids: (int, Option<int>, int))
    requires |lines| == 5 && Strip(lines[0]) == "v2" && ParsePids(lines) == Some(pids) && ValidToken(lines[4])
    ensures ParseLines(lines) == Some(Record("v2", pids.0, pids.1, pids.2, None, Some(lines[4]), false))
  {
  }

  lemma BareLines(lines: seq<string>, g: int, shell: int)
    requires |lines| == 2 && PositivePid(lines[0]) == Some(g) && PositivePid(lines[1]) == Some(shell)
    ensures ParseLines(lines) == Some(Record("legacy", g, None, shell, None, None, false))
  {
  }

  lemma V2RoundTrip(g: int, a: Option<int>, shell: int, token: string)
    requires g > 0 && shell > 0 && (a.Some? ==> a.value > 0) && ValidToken(token)
    ensures Parse(JoinLines(["v2", Decimal(g), ApplicationField(a), Decimal(shell), token]))
         == Some(Record("v2", g, a, shell, None, Some(token), false))
  {
    var lines := ["v2", Decimal(g), ApplicationField(a), Decimal(shell), token];
    FieldsAreWords(g, a, shell, token);
    LinesRoundTrip(lines);
    StripWord("v2");
    PidFields(lines, g, a, shell);
    V2Lines(lines, (g, a, shell));
  }

  lemma V1RoundTrip(g: int, shell: int, token: string)
    requires g > 0 && shell > 0 && ValidToken(token)
    ensures Parse(JoinLines([Decimal(g), Decimal(shell), token]))
         == Some(Record("v1", g, None, shell, None, Some(token), false))
  {
    FieldsAreWords(g, None, shell, token);
    LinesRoundTrip([Decimal(g), Decimal(shell), token]);
    PositivePidRoundTrip(g);
    PositivePidRoundTrip(shell);
  }

  lemma BareRoundTrip(g: int, shell: int)
    requires g > 0 && shell > 0
    ensures Parse(JoinLines([Decimal(g), Decimal(shell)])) == Some(Record("legacy", g, None, shell, None, None, false))
  {
    DecimalRoundTrip(g);
    DecimalRoundTrip(shell);
    var lines := [Decimal(g), Decimal(shell)];
    LinesRoundTrip(lines);
    BareLines(lines, g, shell);
  }

  lemma FieldsAreWords(g: int, a: Option<int>, shell: int, token: string)
    requires g > 0 && shell > 0 && (a.Some? ==> a.value > 0) && ValidToken(token)
    ensures IsWord(Decimal(g)) && IsWord(ApplicationField(a)) && IsWord(Decimal(shell)) && IsWord(token)
  {
    DecimalRoundTrip(g);
    DecimalRoundTrip(shell);
    if a.Some? {
      DecimalRoundTrip(a.value);
    }
    HexIsWord(token, 64, 64);
  }

  lemma PidFields(lines: seq<string>, g: int, a: Option<int>, shell: int)
    requires g > 0 && shell > 0 && (a.Some? ==> a.value > 0) && |lines| >= 4
    requires lines[1] == Decimal(g) && lines[2] == ApplicationField(a) && lines[3] == Decimal(shell)
    ensures ParsePids(lines) == Some((g, a, shell))
  {
    PositivePidRoundTrip(g);
    PositivePidRoundTrip(shell);
    ApplicationFieldRoundTrip(a);
  }

  /** Whatever is accepted is ASCII of two, three, five or six lines, names positive PIDs and carries only
      valid identities; containment is claimed by six lines of the current version alone. */
  lemma AcceptedIsWellFormed(payload: string)
    requires Parse(payload).Some?
    ensures IsAscii(payload) && |SplitLines(payload)| in {2, 3, 5, 6}
    ensures var r := Parse(payload).value;
      && r.guardianPid > 0 && r.shellPid > 0 && (r.applicationPid.Some? ==> r.applicationPid.value > 0)
      && (r.bootId.Some? <==> |SplitLines(payload)| == 6) && (r.bootId.Some? ==> ValidBootId(r.bootId.value))
      && (r.launchToken.Some? <==> |SplitLines(payload)| > 2)
      && (r.launchToken.Some? ==> ValidToken(r.launchToken.value))
      && (r.spawnContained <==> |SplitLines(payload)| == 6 && Strip(SplitLines(payload)[0]) == "v4")
  {
  }
}
