/** Text operations of the source language on ASCII strings: `str.strip`, `str.splitlines`,
    `str.split`, decimal printing, and `int(text)`. Bytes are modelled as characters below 256. */
module PyText {

  datatype Option<+T> = None | Some(value: T)

  // ----- Characters -----

  /** What `str.strip()` removes. */
  predicate IsSpace(c: char) {
    9 <= c as int <= 13 || 28 <= c as int <= 32
  }

  /** What `int(text)` skips around an ASCII numeral: a smaller class than `IsSpace`. */
  predicate IsNumeralSpace(c: char) {
    9 <= c as int <= 13 || c as int == 32
  }

  /** Where `str.splitlines()` breaks an ASCII string. */
  predicate IsLineBreak(c: char) {
    10 <= c as int <= 13 || 28 <= c as int <= 30
  }

  predicate IsDigit(c: char) {
    '0' <= c <= '9'
  }

  predicate IsAscii(s: string) {
    forall i | 0 <= i < |s| :: s[i] as int < 128
  }

  predicate IsHexDigit(c: char) {
    '0' <= c <= '9' || 'a' <= c <= 'f' || 'A' <= c <= 'F'
  }

  /** No line break and no blank anywhere: the text survives `splitlines` and `strip`. */
  predicate IsWord(s: string) {
    |s| > 0 && forall i | 0 <= i < |s| :: !IsSpace(s[i]) && s[i] as int < 128
  }

  // ----- Trimming -----

  function TrimLeft(s: string, drop: char -> bool): string {
    if s != "" && drop(s[0]) then TrimLeft(s[1..], drop) else s
  }

  function TrimRight(s: string, drop: char -> bool): string {
    if s != "" && drop(s[|s| - 1]) then TrimRight(s[..|s| - 1], drop) else s
  }

  function Trim(s: string, drop: char -> bool): string {
    TrimRight(TrimLeft(s, drop), drop)
  }

  function Strip(s: string): string {
    Trim(s, IsSpace)
  }

  // ----- Lines -----

  /** Index of the first line break, or the length when there is none. */
  function FirstBreak(s: string): (i: nat)
    ensures i <= |s|
    ensures i < |s| ==> IsLineBreak(s[i])
    ensures forall k | 0 <= k < i :: !IsLineBreak(s[k])
  {
    if s == "" || IsLineBreak(s[0]) then 0 else 1 + FirstBreak(s[1..])
  }

  function SplitLines(s: string): seq<string>
    decreases |s|
  {
    if s == "" then []
    else
      var i := FirstBreak(s);
      if i == |s| then [s]
      else if s[i] == '\r' && i + 1 < |s| && s[i + 1] == '\n' then [s[..i]] + SplitLines(s[i + 2..])
      else [s[..i]] + SplitLines(s[i + 1..])
  }

  /** The given lines, each ended by a newline. */
  function JoinLines(lines: seq<string>): string {
    if lines == [] then "" else lines[0] + ['\n'] + JoinLines(lines[1..])
  }

  lemma FirstBreakAt(s: string, k: nat)
    requires k < |s| && IsLineBreak(s[k]) && forall i | 0 <= i < k :: !IsLineBreak(s[i])
    ensures FirstBreak(s) == k
  {
    assert !(FirstBreak(s) < k);
  }

  /** The characters at which a line ends, written out: newline, vertical tab, form feed, carriage return
      and the three information separators. */
  const BREAKS: set<int> := {10, 11, 12, 13, 28, 29, 30}

  /** Text without any of them. */
  predicate IsLine(s: string) {
    forall i | 0 <= i < |s| :: s[i] as int !in BREAKS
  }

  lemma WordIsLine(s: string)
    requires IsWord(s)
    ensures IsLine(s) && IsAscii(s)
  {
  }

  lemma LineEndsAt(line: string, s: string)
    requires IsLine(line) && |line| < |s| && s[..|line|] == line && s[|line|] as int in BREAKS
    ensures FirstBreak(s) == |line|
  {
    forall i | 0 <= i < |line| ensures !IsLineBreak(s[i]) {
      assert s[i] == line[i];
    }
    FirstBreakAt(s, |line|);
  }

  /** A line and its end, whichever of the breaks it is, contribute exactly that line; a carriage return
      with its newline is one end. */
  lemma LineSplits(line: string, ending: char, rest: string)
    requires IsLine(line) && ending as int in BREAKS
    ensures SplitLines(line + [ending] + rest)
         == [line] + SplitLines(if ending == '\r' && rest != "" && rest[0] == '\n' then rest[1..] else rest)
  {
    var s := line + [ending] + rest;
    assert s[..|line|] == line;
    LineEndsAt(line, s);
    assert s[|line| + 1..] == rest;
    if ending == '\r' && rest != "" && rest[0] == '\n' {
      assert s[|line| + 2..] == rest[1..];
    }
  }

  /** Text without a break is one line, unless it is empty. */
  lemma OnlyLine(line: string)
    requires IsLine(line)
    ensures SplitLines(line) == if line == "" then [] else [line]
  {
    if line != "" {
      assert FirstBreak(line) == |line|;
    }
  }

  /** Splitting joined lines gives the lines back. */
  lemma {:induction false} JoinedLines(lines: seq<string>)
    requires forall i | 0 <= i < |lines| :: IsLine(lines[i])
    ensures SplitLines(JoinLines(lines)) == lines
  {
    if lines != [] {
      JoinedLines(lines[1..]);
      LineSplits(lines[0], '\n', JoinLines(lines[1..]));
    }
  }

  lemma {:induction false} JoinedLinesAscii(lines: seq<string>)
    requires forall i | 0 <= i < |lines| :: IsAscii(lines[i])
    ensures IsAscii(JoinLines(lines))
  {
    if lines != [] {
      JoinedLinesAscii(lines[1..]);
    }
  }

  // ----- Decimal numerals -----

  function DigitOf(d: nat): char
    requires d < 10
  {
    ('0' as int + d) as char
  }

  /** The text `str(n)` prints for a natural number. */
  function Decimal(n: nat): (s: string)
    ensures |s| > 0
    ensures forall i | 0 <= i < |s| :: IsDigit(s[i])
  {
    if n < 10 then [DigitOf(n)] else Decimal(n / 10) + [DigitOf(n % 10)]
  }

  /** Digits with single underscores strictly between them. */
  predicate IsNumeral(s: string) {
    && |s| > 0
    && IsDigit(s[|s| - 1])
    && (|s| == 1
        || IsNumeral(s[..|s| - 1])
        || (s[|s| - 2] == '_' && |s| > 2 && IsNumeral(s[..|s| - 2])))
  }

  function NumeralValue(s: string): nat {
    if s == "" then 0
    else if IsDigit(s[|s| - 1]) then NumeralValue(s[..|s| - 1]) * 10 + (s[|s| - 1] as int - '0' as int)
    else NumeralValue(s[..|s| - 1])
  }

  /** `int(text)`; `None` is the `ValueError`. */
  function ParseInt(s: string): Option<int> {
    var t := Trim(s, IsNumeralSpace);
    var signed := t != "" && (t[0] == '+' || t[0] == '-');
    var body := if signed then t[1..] else t;
    if !IsNumeral(body) then None
    else if signed && t[0] == '-' then Some(0 - NumeralValue(body) as int)
    else Some(NumeralValue(body))
  }

  lemma {:induction false} DecimalValue(n: nat)
    ensures IsNumeral(Decimal(n)) && NumeralValue(Decimal(n)) == n
  {
    var s := Decimal(n);
    if n < 10 {
      assert s[..|s| - 1] == "";
    } else {
      DecimalValue(n / 10);
      assert s[..|s| - 1] == Decimal(n / 10);
      assert s[|s| - 1] as int - '0' as int == n % 10;
    }
  }

  /** Printing then reading a number gives it back, with or without `strip` in between. */
  lemma DecimalRoundTrip(n: nat)
    ensures IsWord(Decimal(n))
    ensures Strip(Decimal(n)) == Decimal(n)
    ensures ParseInt(Decimal(n)) == Some(n)
  {
    DecimalValue(n);
  }

  lemma DecimalInjective(a: nat, b: nat)
    requires Decimal(a) == Decimal(b)
    ensures a == b
  {
    DecimalValue(a);
    DecimalValue(b);
  }

  lemma StripWord(s: string)
    requires IsWord(s)
    ensures Strip(s) == s
  {
  }

  /** The blanks of ASCII text, written out. */
  const BLANKS: set<int> := {9, 10, 11, 12, 13, 28, 29, 30, 31, 32}

  predicate IsBlank(s: string) {
    forall i | 0 <= i < |s| :: s[i] as int in BLANKS
  }

  lemma {:induction false} TrimLeftBlank(blank: string, rest: string)
    requires IsBlank(blank) && (rest != "" ==> !IsSpace(rest[0]))
    ensures TrimLeft(blank + rest, IsSpace) == rest
  {
    if blank != "" {
      assert (blank + rest)[1..] == blank[1..] + rest;
      TrimLeftBlank(blank[1..], rest);
    } else {
      assert blank + rest == rest;
    }
  }

  lemma {:induction false} TrimRightBlank(rest: string, blank: string)
    requires IsBlank(blank) && (rest != "" ==> !IsSpace(rest[|rest| - 1]))
    ensures TrimRight(rest + blank, IsSpace) == rest
  {
    if blank != "" {
      assert (rest + blank)[..|rest + blank| - 1] == rest + blank[..|blank| - 1];
      TrimRightBlank(rest, blank[..|blank| - 1]);
    } else {
      assert rest + blank == rest;
    }
  }

  /** `strip` removes exactly the blanks around a word. */
  lemma StripPadded(before: string, word: string, after: string)
    requires IsBlank(before) && IsWord(word) && IsBlank(after)
    ensures Strip(before + word + after) == word
  {
    assert before + word + after == before + (word + after);
    TrimLeftBlank(before, word + after);
    TrimRightBlank(word, after);
  }

  lemma StripBlank(blank: string)
    requires IsBlank(blank)
    ensures Strip(blank) == ""
  {
    assert blank + "" == blank;
    TrimLeftBlank(blank, "");
  }

  lemma Signed(sign: string, digits: string)
    requires sign in {"-", "+"} && digits != "" && forall i | 0 <= i < |digits| :: IsDigit(digits[i])
    ensures Trim(sign + digits, IsNumeralSpace) == sign + digits
    ensures (sign + digits)[1..] == digits && (sign + digits)[0] == sign[0]
  {
    var s := sign + digits;
    assert s[|s| - 1] == digits[|digits| - 1];
  }

  /** A sign is read as one. */
  lemma SignedDecimal(n: nat)
    ensures ParseInt("-" + Decimal(n)) == Some(0 - n as int) && ParseInt("+" + Decimal(n)) == Some(n)
  {
    DecimalValue(n);
    Signed("-", Decimal(n));
    Signed("+", Decimal(n));
  }

  /** Anything that holds no digit is no number. */
  lemma NoDigitNoNumber(s: string)
    requires forall i | 0 <= i < |s| :: !IsDigit(s[i])
    ensures ParseInt(s) == None
  {
    TrimKeepsDigitless(s);
  }

  lemma {:induction false} TrimRightKeepsDigitless(s: string)
    requires forall i | 0 <= i < |s| :: !IsDigit(s[i])
    ensures forall i | 0 <= i < |TrimRight(s, IsNumeralSpace)| :: !IsDigit(TrimRight(s, IsNumeralSpace)[i])
    decreases |s|
  {
    if s != "" && IsNumeralSpace(s[|s| - 1]) {
      TrimRightKeepsDigitless(s[..|s| - 1]);
    }
  }

  lemma {:induction false} TrimKeepsDigitless(s: string)
    requires forall i | 0 <= i < |s| :: !IsDigit(s[i])
    ensures forall i | 0 <= i < |Trim(s, IsNumeralSpace)| :: !IsDigit(Trim(s, IsNumeralSpace)[i])
    decreases |s|
  {
    if s != "" && IsNumeralSpace(s[0]) {
      TrimKeepsDigitless(s[1..]);
      assert Trim(s, IsNumeralSpace) == Trim(s[1..], IsNumeralSpace);
    } else {
      assert Trim(s, IsNumeralSpace) == TrimRight(s, IsNumeralSpace);
      TrimRightKeepsDigitless(s);
    }
  }

  // ----- Fields -----

  /** Index of the first `sep`, or the length. */
  function Find(s: string, sep: char): (i: nat)
    ensures i <= |s|
    ensures i < |s| ==> s[i] == sep
    ensures forall k | 0 <= k < i :: s[k] != sep
  {
    if s == "" || s[0] == sep then 0 else 1 + Find(s[1..], sep)
  }

  /** `text.split(sep)`: always at least one field. */
  function Split(s: string, sep: char): (fields: seq<string>)
    ensures |fields| >= 1
    decreases |s|
  {
    var i := Find(s, sep);
    if i == |s| then [s] else [s[..i]] + Split(s[i + 1..], sep)
  }

  lemma FindAt(s: string, k: nat, sep: char)
    requires k < |s| && s[k] == sep && forall i | 0 <= i < k :: s[i] != sep
    ensures Find(s, sep) == k
  {
    assert !(Find(s, sep) < k);
  }

  lemma SplitFirst(field: string, rest: string, sep: char)
    requires sep !in field
    ensures Split(field + [sep] + rest, sep) == [field] + Split(rest, sep)
  {
    var s := field + [sep] + rest;
    forall i | 0 <= i < |field| ensures s[i] != sep {
      assert s[i] == field[i];
    }
    FindAt(s, |field|, sep);
    assert s[..|field|] == field && s[|field| + 1..] == rest;
  }

  lemma SplitOnly(field: string, sep: char)
    requires sep !in field
    ensures Split(field, sep) == [field]
  {
    assert Find(field, sep) == |field|;
  }

  function JoinFields(fields: seq<string>, sep: char): string
    requires fields != []
  {
    if |fields| == 1 then fields[0] else fields[0] + [sep] + JoinFields(fields[1..], sep)
  }

  /** Splitting joined fields gives the fields back. */
  lemma {:induction false} JoinedFields(fields: seq<string>, sep: char)
    requires fields != [] && forall i | 0 <= i < |fields| :: sep !in fields[i]
    ensures Split(JoinFields(fields, sep), sep) == fields
  {
    if |fields| == 1 {
      SplitOnly(fields[0], sep);
    } else {
      JoinedFields(fields[1..], sep);
      SplitFirst(fields[0], JoinFields(fields[1..], sep), sep);
    }
  }

  /** Joining split fields gives the text back, and no field holds the separator. */
  lemma {:induction false} SplitFields(s: string, sep: char)
    ensures JoinFields(Split(s, sep), sep) == s
    ensures forall i | 0 <= i < |Split(s, sep)| :: sep !in Split(s, sep)[i]
    decreases |s|
  {
    var i := Find(s, sep);
    if i < |s| {
      SplitFields(s[i + 1..], sep);
      assert Split(s, sep)[1..] == Split(s[i + 1..], sep);
      assert s == s[..i] + [sep] + s[i + 1..];
    }
  }

  lemma {:induction false} JoinedFieldsAscii(fields: seq<string>, sep: char)
    requires fields != [] && sep as int < 128 && forall i | 0 <= i < |fields| :: IsAscii(fields[i])
    ensures IsAscii(JoinFields(fields, sep))
  {
    if |fields| > 1 {
      JoinedFieldsAscii(fields[1..], sep);
    }
  }

  lemma {:induction false} JoinedFieldsAvoid(fields: seq<string>, sep: char, c: char)
    requires fields != [] && sep != c && forall i | 0 <= i < |fields| :: c !in fields[i]
    ensures c !in JoinFields(fields, sep)
  {
    if |fields| > 1 {
      JoinedFieldsAvoid(fields[1..], sep, c);
    }
  }

  lemma JoinedFieldsStart(fields: seq<string>, sep: char)
    requires fields != [] && fields[0] != ""
    ensures JoinFields(fields, sep) != "" && JoinFields(fields, sep)[0] == fields[0][0]
  {
  }
}
