/** The line-framed control pipe between the application and its guardian. */
module ControlPipe {
  import opened PyText
  import opened Refresh

  /** Effects of the commands read so far. */
  datatype Control = Control(tracked: map<int, string>, ids: set<int>, force: bool, registered: bool)

  /** `decode("ascii", errors="ignore")`. */
  function DropNonAscii(s: string): (t: string)
    ensures IsAscii(t)
    ensures IsAscii(s) ==> t == s
  {
    if s == "" then ""
    else if s[0] as int < 128 then [s[0]] + DropNonAscii(s[1..])
    else DropNonAscii(s[1..])
  }

  function ApplyFields(c: Control, fields: seq<string>, lookup: int -> TokenRead): Control {
    if |fields| !in {3, 4} || fields[0] != "register" then c
    else
      var pid := ParseInt(fields[1]);
      if pid.None? then c
      else if |fields| == 4 && (ParseInt(fields[3]).None? || ParseInt(fields[3]).value <= 0) then c
      else
        var ids := if |fields| == 4 then c.ids + {ParseInt(fields[3]).value} else c.ids;
        var tracked :=
          if pid.value > 0 && lookup(pid.value) == Token(fields[2])
          then c.tracked[pid.value := fields[2]]
          else c.tracked;
        Control(tracked, ids, c.force, true)
  }

  /** One complete command line; `lookup` is the start-token lookup. */
  function ApplyLine(c: Control, line: string, lookup: int -> TokenRead): Control {
    if line == "force" then c.(force := true)
    else ApplyFields(c, Split(DropNonAscii(line), '\t'), lookup)
  }

  /** Applies every complete line of `buffer` and returns the unfinished rest. */
  function Consume(buffer: string, c: Control, lookup: int -> TokenRead): (r: (string, Control))
    ensures '\n' !in r.0
    decreases |buffer|
  {
    var i := Find(buffer, '\n');
    if i == |buffer| then (buffer, c)
    else Consume(buffer[i + 1..], ApplyLine(c, buffer[..i], lookup), lookup)
  }

  /** One payload after another, each appended to what the previous ones left unfinished. */
  function ConsumeAll(buffer: string, c: Control, payloads: seq<string>, lookup: int -> TokenRead): (string, Control)
    decreases |payloads|
  {
    if payloads == [] then (buffer, c)
    else
      var r := Consume(buffer + payloads[0], c, lookup);
      ConsumeAll(r.0, r.1, payloads[1..], lookup)
  }

  function Concat(payloads: seq<string>): string {
    if payloads == [] then "" else payloads[0] + Concat(payloads[1..])
  }

  // ----- Independence of chunking -----

  lemma FindInPrefix(first: string, second: string, sep: char)
    requires Find(first, sep) < |first|
    ensures Find(first + second, sep) == Find(first, sep)
  {
    var i, whole := Find(first, sep), first + second;
    assert whole[i] == first[i];
    forall k | 0 <= k < i ensures whole[k] != sep {
      assert whole[k] == first[k];
    }
    FindAt(whole, i, sep);
  }

  lemma SlicesOfConcat(first: string, second: string, i: nat)
    requires i < |first|
    ensures (first + second)[..i] == first[..i] && (first + second)[i + 1..] == first[i + 1..] + second
  {
  }

  lemma NoLineNoEffect(buffer: string, c: Control, lookup: int -> TokenRead)
    requires '\n' !in buffer
    ensures Consume(buffer, c, lookup) == (buffer, c)
  {
    assert Find(buffer, '\n') == |buffer|;
  }

  lemma ConsumeLine(buffer: string, c: Control, lookup: int -> TokenRead)
    requires Find(buffer, '\n') < |buffer|
    ensures var i := Find(buffer, '\n');
      Consume(buffer, c, lookup) == Consume(buffer[i + 1..], ApplyLine(c, buffer[..i], lookup), lookup)
  {
  }

  /** Consuming one piece, and then what it leaves together with the next one. */
  function ConsumeThen(first: string, second: string, c: Control, lookup: int -> TokenRead): (string, Control) {
    var r := Consume(first, c, lookup);
    Consume(r.0 + second, r.1, lookup)
  }

  lemma ConsumeThenLine(first: string, second: string, c: Control, lookup: int -> TokenRead)
    requires Find(first, '\n') < |first|
    ensures var i := Find(first, '\n');
      ConsumeThen(first, second, c, lookup)
      == ConsumeThen(first[i + 1..], second, ApplyLine(c, first[..i], lookup), lookup)
  {
    ConsumeLine(first, c, lookup);
  }

  /** Consuming a stream in two pieces is consuming it whole. */
  lemma {:induction false} ConsumeSplit(first: string, second: string, c: Control, lookup: int -> TokenRead)
    ensures Consume(first + second, c, lookup) == ConsumeThen(first, second, c, lookup)
    decreases |first|
  {
    var i := Find(first, '\n');
    if i < |first| {
      FindInPrefix(first, second, '\n');
      SlicesOfConcat(first, second, i);
      ConsumeLine(first + second, c, lookup);
      ConsumeSplit(first[i + 1..], second, ApplyLine(c, first[..i], lookup), lookup);
      ConsumeThenLine(first, second, c, lookup);
    } else {
      NoLineNoEffect(first, c, lookup);
    }
  }

  lemma ConsumeAllStep(buffer: string, c: Control, payloads: seq<string>, lookup: int -> TokenRead)
    requires payloads != []
    ensures var r := Consume(buffer + payloads[0], c, lookup);
      ConsumeAll(buffer, c, payloads, lookup) == ConsumeAll(r.0, r.1, payloads[1..], lookup)
  {
  }

  lemma ConcatStep(buffer: string, payloads: seq<string>)
    requires payloads != []
    ensures buffer + Concat(payloads) == (buffer + payloads[0]) + Concat(payloads[1..])
  {
  }

  /** Any way of cutting the byte stream into payloads has the same effect as one payload. */
  lemma {:induction false} ChunkingIsIrrelevant(
    buffer: string, c: Control, payloads: seq<string>, lookup: int -> TokenRead)
    requires '\n' !in buffer
    ensures ConsumeAll(buffer, c, payloads, lookup) == Consume(buffer + Concat(payloads), c, lookup)
    decreases |payloads|
  {
    if payloads == [] {
      assert buffer + Concat(payloads) == buffer;
      NoLineNoEffect(buffer, c, lookup);
    } else {
      var first, rest := buffer + payloads[0], Concat(payloads[1..]);
      var r := Consume(first, c, lookup);
      ConsumeAllStep(buffer, c, payloads, lookup);
      ChunkingIsIrrelevant(r.0, r.1, payloads[1..], lookup);
      ConsumeSplit(first, rest, c, lookup);
      ConcatStep(buffer, payloads);
    }
  }

  // ----- Registration lines -----

  function RegisterFields(pid: nat, token: string, uniqueId: Option<nat>): seq<string> {
    ["register", Decimal(pid), token] + if uniqueId.Some? then [Decimal(uniqueId.value)] else []
  }

  /** The line `register_spawn` writes, without its newline. */
  function RegisterLine(pid: nat, token: string, uniqueId: Option<nat>): string {
    JoinFields(RegisterFields(pid, token, uniqueId), '\t')
  }

  lemma RegisterFieldsAreClean(pid: nat, token: string, uniqueId: Option<nat>)
    requires IsAscii(token) && '\t' !in token
    ensures forall i | 0 <= i < |RegisterFields(pid, token, uniqueId)| ::
      IsAscii(RegisterFields(pid, token, uniqueId)[i]) && '\t' !in RegisterFields(pid, token, uniqueId)[i]
  {
    DecimalIsClean(pid);
    if uniqueId.Some? {
      DecimalIsClean(uniqueId.value);
    }
  }

  lemma DecimalIsClean(n: nat)
    ensures IsAscii(Decimal(n)) && '\t' !in Decimal(n)
  {
    DecimalRoundTrip(n);
  }

  lemma JoinedSplits(fields: seq<string>)
    requires fields != [] && forall i | 0 <= i < |fields| :: IsAscii(fields[i]) && '\t' !in fields[i]
    ensures Split(DropNonAscii(JoinFields(fields, '\t')), '\t') == fields
  {
    JoinedFields(fields, '\t');
    JoinedFieldsAscii(fields, '\t');
  }

  lemma RegisterLineSplits(pid: nat, token: string, uniqueId: Option<nat>)
    requires IsAscii(token) && '\t' !in token
    ensures Split(DropNonAscii(RegisterLine(pid, token, uniqueId)), '\t') == RegisterFields(pid, token, uniqueId)
  {
    RegisterFieldsAreClean(pid, token, uniqueId);
    JoinedSplits(RegisterFields(pid, token, uniqueId));
  }

  lemma RegisterIsNotForce(pid: nat, token: string, uniqueId: Option<nat>)
    ensures RegisterLine(pid, token, uniqueId) != "force"
  {
    JoinedFieldsStart(RegisterFields(pid, token, uniqueId), '\t');
  }

  lemma ParsedDecimal(n: nat)
    ensures ParseInt(Decimal(n)) == Some(n)
  {
    DecimalRoundTrip(n);
  }

  lemma RegistrationFieldsDecode(c: Control, pid: nat, token: string, uniqueId: Option<nat>, lookup: int -> TokenRead)
    requires pid > 0 && (uniqueId.Some? ==> uniqueId.value > 0)
    ensures ApplyFields(c, RegisterFields(pid, token, uniqueId), lookup) == Registered(c, pid, token, uniqueId, lookup)
  {
    ParsedDecimal(pid);
    if uniqueId.Some? {
      ParsedDecimal(uniqueId.value);
    }
  }

  /** What one registration of a live child must do. */
  function Registered(c: Control, pid: nat, token: string, uniqueId: Option<nat>, lookup: int -> TokenRead): Control {
    Control(if lookup(pid) == Token(token) then c.tracked[pid := token] else c.tracked,
            c.ids + (if uniqueId.Some? then {uniqueId.value} else {}),
            c.force, true)
  }

  /** A registration is decoded to exactly its PID, token and unique id: the PID becomes tracked
      under that token precisely when the token is still the PID's current one. */
  lemma RegistrationDecodes(c: Control, pid: nat, token: string, uniqueId: Option<nat>, lookup: int -> TokenRead)
    requires pid > 0 && IsAscii(token) && '\t' !in token && (uniqueId.Some? ==> uniqueId.value > 0)
    ensures ApplyLine(c, RegisterLine(pid, token, uniqueId), lookup)
         == Registered(c, pid, token, uniqueId, lookup)
  {
    RegisterLineSplits(pid, token, uniqueId);
    RegisterIsNotForce(pid, token, uniqueId);
    RegistrationFieldsDecode(c, pid, token, uniqueId, lookup);
  }

  lemma LineIsConsumed(line: string, rest: string, c: Control, lookup: int -> TokenRead)
    requires '\n' !in line
    ensures Consume(line + ['\n'] + rest, c, lookup) == Consume(rest, ApplyLine(c, line, lookup), lookup)
  {
    var s := line + ['\n'] + rest;
    assert s[|line|] == '\n';
    assert forall k | 0 <= k < |line| :: s[k] == line[k];
    assert Find(s, '\n') == |line|;
    assert s[..|line|] == line && s[|line| + 1..] == rest;
  }

  lemma LineHasNoNewline(pid: nat, token: string, uniqueId: Option<nat>)
    requires '\n' !in token
    ensures '\n' !in RegisterLine(pid, token, uniqueId)
  {
    DecimalRoundTrip(pid);
    if uniqueId.Some? {
      DecimalRoundTrip(uniqueId.value);
    }
    JoinedFieldsAvoid(RegisterFields(pid, token, uniqueId), '\t', '\n');
  }

  /** A registration as `register_spawn` sends it, in front of anything: exactly its effect, and then the
      rest of the stream. */
  lemma RegistrationIsConsumed(c: Control, pid: nat, token: string, uniqueId: Option<nat>,
                               rest: string, lookup: int -> TokenRead)
    requires pid > 0 && IsAscii(token) && '\t' !in token && '\n' !in token && (uniqueId.Some? ==> uniqueId.value > 0)
    ensures Consume(RegisterLine(pid, token, uniqueId) + ['\n'] + rest, c, lookup)
         == Consume(rest, Registered(c, pid, token, uniqueId, lookup), lookup)
  {
    LineHasNoNewline(pid, token, uniqueId);
    LineIsConsumed(RegisterLine(pid, token, uniqueId), rest, c, lookup);
    RegistrationDecodes(c, pid, token, uniqueId, lookup);
  }

  // ----- The other lines -----

  /** Dropping works character by character, and drops exactly what is not ASCII. */
  lemma {:induction false} DropsCharacters(a: string, b: string, c: char)
    ensures DropNonAscii(a + b) == DropNonAscii(a) + DropNonAscii(b)
    ensures DropNonAscii([c]) == if c as int < 128 then [c] else ""
  {
    if a == "" {
      assert a + b == b;
    } else {
      assert (a + b)[1..] == a[1..] + b;
      DropsCharacters(a[1..], b, c);
    }
  }

  /** A forced shutdown request, in front of anything. */
  lemma ForceIsConsumed(rest: string, c: Control, lookup: int -> TokenRead)
    ensures Consume("force\n" + rest, c, lookup) == Consume(rest, c.(force := true), lookup)
  {
    assert "force\n" + rest == "force" + ['\n'] + rest;
    LineIsConsumed("force", rest, c, lookup);
  }

  /** The line, without what is not ASCII, is the word `register`, a number, a token and possibly a positive
      number, separated by tabs. */
  ghost predicate Registers(line: string, pid: string, token: string, uniqueId: Option<string>) {
    && '\t' !in pid && '\t' !in token && ParseInt(pid).Some?
    && (uniqueId.Some? ==>
          '\t' !in uniqueId.value && ParseInt(uniqueId.value).Some? && ParseInt(uniqueId.value).value > 0)
    && DropNonAscii(line)
       == JoinFields(["register", pid, token] + if uniqueId.Some? then [uniqueId.value] else [], '\t')
  }

  /** Every such line has exactly this effect, whatever its numbers look like: a positive PID becomes tracked
      when the token is its current one, the unique id is remembered, and the registration is noted. */
  lemma RegistrationText(c: Control, line: string, pid: string, token: string, uniqueId: Option<string>,
                         lookup: int -> TokenRead)
    requires Registers(line, pid, token, uniqueId) && line != "force"
    ensures var n := ParseInt(pid).value;
      ApplyLine(c, line, lookup)
      == Control(if n > 0 && lookup(n) == Token(token) then c.tracked[n := token] else c.tracked,
                 if uniqueId.Some? then c.ids + {ParseInt(uniqueId.value).value} else c.ids, c.force, true)
  {
    var fields := ["register", pid, token] + if uniqueId.Some? then [uniqueId.value] else [];
    JoinedFields(fields, '\t');
    assert ApplyLine(c, line, lookup) == ApplyFields(c, fields, lookup);
  }

  /** Any line that is neither of the two leaves everything as it is. */
  lemma OtherLineIsIgnored(c: Control, line: string, lookup: int -> TokenRead)
    requires line != "force" && forall pid, token, uniqueId :: !Registers(line, pid, token, uniqueId)
    ensures ApplyLine(c, line, lookup) == c
  {
    var fields := Split(DropNonAscii(line), '\t');
    SplitFields(DropNonAscii(line), '\t');
    if ApplyFields(c, fields, lookup) != c {
      EffectiveFields(c, fields, lookup);
      FieldsRegister(line, fields);
    }
  }

  lemma FieldsRegister(line: string, fields: seq<string>)
    requires |fields| in {3, 4} && fields[0] == "register" && ParseInt(fields[1]).Some?
    requires |fields| == 4 ==> ParseInt(fields[3]).Some? && ParseInt(fields[3]).value > 0
    requires DropNonAscii(line) == JoinFields(fields, '\t') && forall i | 0 <= i < |fields| :: '\t' !in fields[i]
    ensures Registers(line, fields[1], fields[2], if |fields| == 3 then None else Some(fields[3]))
  {
    if |fields| == 3 {
      assert fields == ["register", fields[1], fields[2]] + [];
    } else {
      assert fields == ["register", fields[1], fields[2]] + [fields[3]];
    }
  }

  lemma EffectiveFields(c: Control, fields: seq<string>, lookup: int -> TokenRead)
    requires ApplyFields(c, fields, lookup) != c
    ensures |fields| in {3, 4} && fields[0] == "register" && ParseInt(fields[1]).Some?
    ensures |fields| == 4 ==> ParseInt(fields[3]).Some? && ParseInt(fields[3]).value > 0
  {
  }

  /** The complete lines of a stream. */
  function CompleteLines(stream: string): (lines: seq<string>)
    ensures forall i | 0 <= i < |lines| :: '\n' !in lines[i]
    decreases |stream|
  {
    var i := Find(stream, '\n');
    if i == |stream| then [] else [stream[..i]] + CompleteLines(stream[i + 1..])
  }

  /** A stream is its complete lines, each ended by a newline, and what is left of it. */
  lemma {:induction false} StreamIsLines(stream: string, c: Control, lookup: int -> TokenRead)
    ensures stream == JoinLines(CompleteLines(stream)) + Consume(stream, c, lookup).0
    decreases |stream|
  {
    var i := Find(stream, '\n');
    if i < |stream| {
      var tail := stream[i + 1..];
      ConsumeLine(stream, c, lookup);
      StreamIsLines(tail, ApplyLine(c, stream[..i], lookup), lookup);
      CutAt(stream, i);
      JoinFirst(stream[..i], CompleteLines(tail), Consume(stream, c, lookup).0, tail);
    }
  }

  lemma CutAt(s: string, i: nat)
    requires i < |s|
    ensures s == s[..i] + [s[i]] + s[i + 1..]
  {
  }

  lemma JoinFirst(line: string, later: seq<string>, rest: string, tail: string)
    requires tail == JoinLines(later) + rest
    ensures line + ['\n'] + tail == JoinLines([line] + later) + rest
  {
    assert ([line] + later)[1..] == later;
  }

  lemma LineForces(c: Control, line: string, lookup: int -> TokenRead)
    ensures ApplyLine(c, line, lookup).force <==> c.force || line == "force"
  {
  }

  /** The force flag is raised exactly when some complete line of the stream is `force`. */
  lemma {:induction false} ForcedIff(stream: string, c: Control, lookup: int -> TokenRead)
    ensures Consume(stream, c, lookup).1.force <==> c.force || "force" in CompleteLines(stream)
    decreases |stream|
  {
    var i := Find(stream, '\n');
    if i < |stream| {
      ConsumeLine(stream, c, lookup);
      LineForces(c, stream[..i], lookup);
      ForcedIff(stream[i + 1..], ApplyLine(c, stream[..i], lookup), lookup);
    }
  }
}
