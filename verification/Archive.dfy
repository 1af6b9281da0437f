/** Encrypted archival of the legacy database: source, temporary and archive files, with a crash
    possible after any durable change and other programs creating files in between. */
module Archive {
  import opened PyText

  type Bytes = string

  /** The three files of one archival; the coordinator may already have unlinked the source. */
  datatype Dir = Dir(source: Option<Bytes>, archive: Option<Bytes>, temporary: Option<Bytes>)

  /** Passphrase encryption and the digest, for one password. `encrypt` is randomised by its second argument. */
  datatype Crypto = Crypto(encrypt: (Bytes, nat) -> Bytes, decrypt: Bytes -> Option<Bytes>, digest: Bytes -> string)

  /** Decryption undoes encryption. */
  ghost predicate Lawful(c: Crypto) {
    forall payload: Bytes, nonce: nat {:trigger c.encrypt(payload, nonce)} ::
      c.decrypt(c.encrypt(payload, nonce)) == Some(payload)
  }

  /** A ciphertext is authenticated to its end: no proper prefix of one decrypts. */
  ghost predicate Authenticated(c: Crypto) {
    forall payload: Bytes, nonce: nat, n: nat {:trigger c.encrypt(payload, nonce)[..n]} ::
      n < |c.encrypt(payload, nonce)| ==> c.decrypt(c.encrypt(payload, nonce)[..n]).None?
  }

  /** The file decrypts to bytes with the expected digest. */
  predicate Verifies(c: Crypto, expected: string, file: Bytes) {
    c.decrypt(file).Some? && c.digest(c.decrypt(file).value) == expected
  }

  /** What other programs do while the call runs: the source as read for encryption, after its digest
      was checked; a temporary that appears before the exclusive creation; an archive that appears
      before the link. */
  datatype Meanwhile = Meanwhile(reread: Bytes, temporary: Option<Bytes>, archive: Option<Bytes>)

  /** One durable state: as found, or changed by another program (`Seen`), or changed by this call. */
  datatype Step = Seen(dir: Dir) | Wrote(dir: Dir)

  /** The states passed through, beginning with the one found, and whether the call returned normally;
      otherwise it refused in the last state. */
  datatype Plan = Plan(steps: seq<Step>, ok: bool)

  predicate Unsafe(c: Crypto, expected: string, d: Dir) {
    || (d.source.Some? && c.digest(d.source.value) != expected)
    || (d.temporary.Some? && !Verifies(c, expected, d.temporary.value))
  }

  /** The temporary grows byte by byte: an interrupted write may leave any prefix. */
  function Writing(d: Dir, encrypted: Bytes): seq<Step> {
    seq(|encrypted| + 1, n requires 0 <= n <= |encrypted| => Wrote(d.(temporary := Some(encrypted[..n]))))
  }

  /** From a temporary and a missing archive: verify, link, unlink. The link fails on an archive that
      has appeared since. */
  function Publishing(c: Crypto, expected: string, d: Dir, appeared: Option<Bytes>): Plan
    requires d.temporary.Some?
  {
    if !Verifies(c, expected, d.temporary.value) then Plan([], false)
    else if appeared.Some? then Plan([Seen(d.(archive := appeared))], false)
    else Plan([Wrote(d.(archive := d.temporary)), Wrote(Dir(d.source, d.temporary, None))], true)
  }

  function ArchiveLegacy(c: Crypto, expected: string, d: Dir, m: Meanwhile, nonce: nat): Plan {
    if Unsafe(c, expected, d) then Plan([Seen(d)], false)
    else if d.archive.Some? then
      if !Verifies(c, expected, d.archive.value) then Plan([Seen(d)], false)
      else if d.temporary.Some? then Plan([Seen(d), Wrote(d.(temporary := None))], true)
      else Plan([Seen(d)], true)
    else if d.temporary.Some? then
      var rest := Publishing(c, expected, d, m.archive);
      Plan([Seen(d)] + rest.steps, rest.ok)
    else if d.source.None? then Plan([Seen(d)], false)
    else
      var encrypted := c.encrypt(m.reread, nonce);
      if c.decrypt(encrypted) != Some(m.reread) then Plan([Seen(d)], false)
      // Exclusive creation fails on a temporary that has appeared since.
      else if m.temporary.Some? then Plan([Seen(d), Seen(d.(temporary := m.temporary))], false)
      else
        var rest := Publishing(c, expected, d.(temporary := Some(encrypted)), m.archive);
        Plan([Seen(d)] + Writing(d, encrypted) + rest.steps, rest.ok)
  }

  /** What a run passes through after the state it found, when it creates the temporary itself. */
  lemma CreatingTail(c: Crypto, expected: string, d: Dir, m: Meanwhile, nonce: nat)
    requires !Unsafe(c, expected, d) && d.archive.None? && d.temporary.None? && d.source.Some? && m.temporary.None?
    requires c.decrypt(c.encrypt(m.reread, nonce)) == Some(m.reread)
    ensures var encrypted, plan := c.encrypt(m.reread, nonce), ArchiveLegacy(c, expected, d, m, nonce);
      var rest := Publishing(c, expected, d.(temporary := Some(encrypted)), m.archive);
      && plan.ok == rest.ok && plan.steps[1..] == Writing(d, encrypted) + rest.steps
      && plan.steps[|plan.steps| - 1].dir
         == if rest.steps == [] then d.(temporary := Some(encrypted)) else rest.steps[|rest.steps| - 1].dir
  {
    var encrypted, plan := c.encrypt(m.reread, nonce), ArchiveLegacy(c, expected, d, m, nonce);
    var rest := Publishing(c, expected, d.(temporary := Some(encrypted)), m.archive);
    assert plan.steps == [Seen(d)] + (Writing(d, encrypted) + rest.steps);
    assert encrypted[..|encrypted|] == encrypted;
  }

  // ----- What every state and every return promise -----

  /** The call starts from nothing but the source and gets to create the temporary itself. */
  predicate Creates(c: Crypto, expected: string, d: Dir, m: Meanwhile) {
    && d.archive.None? && d.temporary.None? && d.source.Some? && c.digest(d.source.value) == expected
    && m.temporary.None?
  }

  /** `later` keeps the files of `earlier`: the source always; an archive always, whoever made it; and a
      temporary until it is removed beside an archive that verifies. A temporary of this call's own
      making (`own` is its content in the end) may also grow. */
  predicate Keeps(c: Crypto, expected: string, own: Option<Bytes>, earlier: Dir, later: Dir) {
    && later.source == earlier.source
    && (earlier.archive.Some? ==> later.archive == earlier.archive)
    && (earlier.temporary.Some? ==>
          || later.temporary == earlier.temporary
          || (later.temporary.None? && later.archive.Some? && Verifies(c, expected, later.archive.value))
          || (own.Some? && later.temporary.Some? && earlier.temporary.value <= later.temporary.value <= own.value))
  }

  function OwnTemporary(c: Crypto, expected: string, d: Dir, m: Meanwhile, nonce: nat): Option<Bytes> {
    if Creates(c, expected, d, m) then Some(c.encrypt(m.reread, nonce)) else None
  }

  /** The steps of a call that creates the temporary, one by one. */
  lemma CreatingSteps(c: Crypto, expected: string, d: Dir, m: Meanwhile, nonce: nat, i: nat)
    requires Lawful(c) && Creates(c, expected, d, m)
    requires i < |ArchiveLegacy(c, expected, d, m, nonce).steps|
    ensures var encrypted := c.encrypt(m.reread, nonce);
      var dir := ArchiveLegacy(c, expected, d, m, nonce).steps[i].dir;
      && (i == 0 ==> dir == d)
      && (1 <= i <= |encrypted| + 1 ==> dir == d.(temporary := Some(encrypted[..i - 1])))
      && (i == |encrypted| + 2 ==>
            && Verifies(c, expected, encrypted)
            && dir == Dir(d.source, if m.archive.Some? then m.archive else Some(encrypted), Some(encrypted)))
      && (i == |encrypted| + 3 ==>
            Verifies(c, expected, encrypted) && m.archive.None? && dir == Dir(d.source, Some(encrypted), None))
      && i <= |encrypted| + 3
  {
    var encrypted := c.encrypt(m.reread, nonce);
    assert c.decrypt(encrypted) == Some(m.reread);
    var rest := Publishing(c, expected, d.(temporary := Some(encrypted)), m.archive);
    var steps := ArchiveLegacy(c, expected, d, m, nonce).steps;
    assert steps == [Seen(d)] + Writing(d, encrypted) + rest.steps;
    if 1 <= i <= |encrypted| + 1 {
      assert steps[i] == Writing(d, encrypted)[i - 1];
    } else if i > |encrypted| + 1 {
      assert steps[i] == rest.steps[i - |encrypted| - 2];
    }
  }

  /** No step overwrites anything: whatever exists at one moment of a run, found, made by this call or
      put there by another program meanwhile, is kept at every later moment. */
  lemma NothingIsOverwritten(c: Crypto, expected: string, d: Dir, m: Meanwhile, nonce: nat, i: nat, j: nat)
    requires Lawful(c) && i <= j < |ArchiveLegacy(c, expected, d, m, nonce).steps|
    ensures var steps := ArchiveLegacy(c, expected, d, m, nonce).steps;
      Keeps(c, expected, OwnTemporary(c, expected, d, m, nonce), steps[i].dir, steps[j].dir)
  {
    if Creates(c, expected, d, m) {
      CreatingSteps(c, expected, d, m, nonce, i);
      CreatingSteps(c, expected, d, m, nonce, j);
    }
  }

  /** A normal return leaves an archive that decrypts to the expected bytes, and no temporary. */
  lemma NormalReturnIsArchived(c: Crypto, expected: string, d: Dir, m: Meanwhile, nonce: nat)
    requires ArchiveLegacy(c, expected, d, m, nonce).ok
    ensures var steps := ArchiveLegacy(c, expected, d, m, nonce).steps;
      var last := steps[|steps| - 1].dir;
      && last.archive.Some? && c.decrypt(last.archive.value).Some?
      && c.digest(c.decrypt(last.archive.value).value) == expected
      && last.temporary.None? && last.source == d.source
  {
  }

  /** When the call returns normally, from any combination of files and whatever appears meanwhile. */
  lemma ReturnsNormallyIff(c: Crypto, expected: string, d: Dir, m: Meanwhile, nonce: nat)
    requires Lawful(c)
    ensures ArchiveLegacy(c, expected, d, m, nonce).ok
       <==> && (d.source.Some? ==> c.digest(d.source.value) == expected)
            && (forall copy | copy in {d.temporary, d.archive} && copy.Some? ::
                  c.decrypt(copy.value).Some? && c.digest(c.decrypt(copy.value).value) == expected)
            && (d.archive.None? ==> m.archive.None?)
            && (d.archive.None? && d.temporary.None? ==>
                  d.source.Some? && c.digest(m.reread) == expected && m.temporary.None?)
  {
    assert c.decrypt(c.encrypt(m.reread, nonce)) == Some(m.reread);
  }

  /** This call changed some file. */
  predicate Writes(plan: Plan) {
    exists k :: 0 <= k < |plan.steps| && plan.steps[k].Wrote?
  }

  /** A refusal has changed nothing, with one exact exception: the call created the temporary itself,
      and then found that the source had been replaced between digest check and encryption, or that an
      archive had appeared before the link. What it leaves behind then is that temporary alone. */
  lemma RefusalChangesNothing(c: Crypto, expected: string, d: Dir, m: Meanwhile, nonce: nat)
    requires Lawful(c)
    ensures var plan := ArchiveLegacy(c, expected, d, m, nonce);
      && (!plan.ok && Writes(plan)
          <==> Creates(c, expected, d, m) && (c.digest(m.reread) != expected || m.archive.Some?))
      && (!plan.ok && Writes(plan) ==>
            var last := plan.steps[|plan.steps| - 1].dir;
            && last.source == d.source && last.temporary == Some(c.encrypt(m.reread, nonce))
            && last.archive == if c.digest(m.reread) == expected then m.archive else None)
  {
    assert c.decrypt(c.encrypt(m.reread, nonce)) == Some(m.reread);
    if Creates(c, expected, d, m) {
      var plan := ArchiveLegacy(c, expected, d, m, nonce);
      assert plan.steps[1] == Writing(d, c.encrypt(m.reread, nonce))[0];
      assert plan.steps[1].Wrote?;
      var encrypted := c.encrypt(m.reread, nonce);
      assert encrypted[..|encrypted|] == encrypted;
      CreatingSteps(c, expected, d, m, nonce, |plan.steps| - 1);
    }
  }

  // ----- Crash and rerun -----

  /** Nobody else interferes: the source is read as it is and no file appears. */
  function Undisturbed(d: Dir): Meanwhile {
    Meanwhile(if d.source.Some? then d.source.value else "", None, None)
  }

  /** The states a crash may leave, whatever else appears: the one found, one with a verifying or a foreign
      archive, or one with a foreign temporary or a prefix of the ciphertext as temporary. */
  lemma CrashShapes(c: Crypto, expected: string, d: Dir, m: Meanwhile, nonce: nat, i: nat)
    requires Lawful(c) && i < |ArchiveLegacy(c, expected, d, m, nonce).steps|
    ensures var s := ArchiveLegacy(c, expected, d, m, nonce).steps[i].dir;
      || s == d
      || (s.archive.Some? && (s.archive == m.archive || Verifies(c, expected, s.archive.value)))
      || (s == d.(temporary := m.temporary) && d.temporary.None?)
      || (Creates(c, expected, d, m) && s == d.(temporary := s.temporary)
          && s.temporary.Some? && s.temporary.value <= c.encrypt(m.reread, nonce))
  {
    if Creates(c, expected, d, m) {
      CreatingSteps(c, expected, d, m, nonce, i);
    }
  }

  /** An undisturbed run on files whose source is the expected one returns normally or changes nothing. */
  lemma UndisturbedRun(c: Crypto, expected: string, d: Dir, nonce: nat)
    requires Lawful(c) && d.source.Some? && c.digest(d.source.value) == expected
    ensures var plan := ArchiveLegacy(c, expected, d, Undisturbed(d), nonce);
      && (plan.ok || plan.steps == [Seen(d)])
      && (plan.ok <==> && (d.temporary.Some? ==> Verifies(c, expected, d.temporary.value))
                       && (d.archive.Some? ==> Verifies(c, expected, d.archive.value)))
  {
    ReturnsNormallyIff(c, expected, d, Undisturbed(d), nonce);
    assert c.decrypt(c.encrypt(d.source.value, nonce)) == Some(d.source.value);
  }

  /** Resumption in general: after any crash of a run that other programs interfered with in any way, with
      the source still there or gone, an undisturbed rerun returns normally or changes nothing. */
  lemma RerunCompletesOrRefuses(c: Crypto, expected: string, d: Dir, m: Meanwhile, nonce: nat,
                                i: nat, gone: bool, again: nat)
    requires Lawful(c) && i < |ArchiveLegacy(c, expected, d, m, nonce).steps|
    ensures var left := ArchiveLegacy(c, expected, d, m, nonce).steps[i].dir;
      var found := if gone then left.(source := None) else left;
      var rerun := ArchiveLegacy(c, expected, found, Undisturbed(found), again);
      rerun.ok || rerun.steps == [Seen(found)]
  {
    var left := ArchiveLegacy(c, expected, d, m, nonce).steps[i].dir;
    var found := if gone then left.(source := None) else left;
    RefusalChangesNothing(c, expected, found, Undisturbed(found), again);
  }

  /** What a crash after step `i` leaves passes verification unless it is a partly written temporary. */
  lemma CrashedCopies(c: Crypto, expected: string, d: Dir, nonce: nat, i: nat)
    requires Lawful(c) && Authenticated(c)
    requires Creates(c, expected, d, Undisturbed(d))
    requires i < |ArchiveLegacy(c, expected, d, Undisturbed(d), nonce).steps|
    ensures var left := ArchiveLegacy(c, expected, d, Undisturbed(d), nonce).steps[i].dir;
      && left.source == d.source
      && (left.archive.Some? ==> Verifies(c, expected, left.archive.value))
      && (left.temporary.Some? && !Verifies(c, expected, left.temporary.value)
          <==> 1 <= i <= |c.encrypt(d.source.value, nonce)|)
  {
    CreatingSteps(c, expected, d, Undisturbed(d), nonce, i);
    var encrypted := c.encrypt(d.source.value, nonce);
    assert c.decrypt(encrypted) == Some(d.source.value);
    if 1 <= i <= |encrypted| + 1 {
      var n: nat := i - 1;
      assert n < |encrypted| ==> c.decrypt(c.encrypt(d.source.value, nonce)[..n]).None?;
      assert n == |encrypted| ==> encrypted[..n] == encrypted;
    }
  }

  /** Resumption: a run crashes after any step and is run again, with the source still in place. From
      nothing but the source, the rerun completes exactly when the crash fell before the temporary was
      created or after its last byte; in between it refuses and leaves every file as the crash left
      it. From an existing temporary or archive, it completes exactly when the first run would have. */
  lemma RerunAfterCrash(c: Crypto, expected: string, d: Dir, nonce: nat, i: nat, again: nat)
    requires Lawful(c) && Authenticated(c) && d.source.Some? && c.digest(d.source.value) == expected
    requires i < |ArchiveLegacy(c, expected, d, Undisturbed(d), nonce).steps|
    ensures var first := ArchiveLegacy(c, expected, d, Undisturbed(d), nonce);
      var left := first.steps[i].dir;
      var rerun := ArchiveLegacy(c, expected, left, Undisturbed(left), again);
      && (rerun.ok || rerun.steps == [Seen(left)])
      && (rerun.ok <==>
            if d.archive.None? && d.temporary.None? then i == 0 || i > |c.encrypt(d.source.value, nonce)| else first.ok)
  {
    var left := ArchiveLegacy(c, expected, d, Undisturbed(d), nonce).steps[i].dir;
    NothingIsOverwritten(c, expected, d, Undisturbed(d), nonce, 0, i);
    UndisturbedRun(c, expected, left, again);
    UndisturbedRun(c, expected, d, nonce);
    if d.archive.None? && d.temporary.None? {
      CrashedCopies(c, expected, d, nonce, i);
    }
  }

  // ----- A cipher that meets both laws -----

  /** Every byte is announced, and the end is marked. */
  function Framed(payload: Bytes): (file: Bytes)
    ensures |file| == 2 * |payload| + 1
  {
    if payload == "" then "." else ['+', payload[0]] + Framed(payload[1..])
  }

  function Unframed(file: Bytes): Option<Bytes> {
    if file == "." then Some("")
    else if |file| < 3 || file[0] != '+' then None
    else
      match Unframed(file[2..])
      case None => None
      case Some(rest) => Some([file[1]] + rest)
  }

  lemma {:induction false} FramedRoundTrip(payload: Bytes)
    ensures Unframed(Framed(payload)) == Some(payload)
  {
    if payload != "" {
      FramedRoundTrip(payload[1..]);
      assert Framed(payload)[2..] == Framed(payload[1..]);
      assert payload == [payload[0]] + payload[1..];
    }
  }

  lemma {:induction false} FramedPrefix(payload: Bytes, n: nat)
    requires n < |Framed(payload)|
    ensures Unframed(Framed(payload)[..n]).None?
  {
    var file := Framed(payload)[..n];
    if n > 0 {
      assert file[0] == '+';
    }
    if n >= 3 {
      FramedPrefix(payload[1..], n - 2);
      assert file[2..] == Framed(payload[1..])[..n - 2];
    }
  }

  function FramingCrypto(): Crypto {
    Crypto((payload: Bytes, nonce: nat) => Framed(payload), (file: Bytes) => Unframed(file),
           (payload: Bytes) => payload)
  }

  lemma FramingIsLawful()
    ensures Lawful(FramingCrypto()) && Authenticated(FramingCrypto())
  {
    var c := FramingCrypto();
    forall payload: Bytes, nonce: nat ensures c.decrypt(c.encrypt(payload, nonce)) == Some(payload) {
      FramedRoundTrip(payload);
    }
    forall payload: Bytes, nonce: nat, n: nat | n < |c.encrypt(payload, nonce)|
      ensures c.decrypt(c.encrypt(payload, nonce)[..n]).None?
    {
      FramedPrefix(payload, n);
    }
  }

  lemma FramedByte()
    ensures FramingCrypto().encrypt("x", 0) == "+x." && Verifies(FramingCrypto(), "x", "+x.")
  {
    assert Framed("") == ".";
    FramedRoundTrip("x");
  }

  /** A crash in the middle of the write does make archival refuse from then on: the source holds one
      byte, and the crash falls after the first byte of its ciphertext. */
  lemma InterruptedWriteIsRefused(again: nat)
    ensures var c, d := FramingCrypto(), Dir(Some("x"), None, None);
      var steps := ArchiveLegacy(c, "x", d, Undisturbed(d), 0).steps;
      && |steps| > 2
      && var left := steps[2].dir;
      && left == d.(temporary := Some("+"))
      && ArchiveLegacy(c, "x", left, Undisturbed(left), again) == Plan([Seen(left)], false)
  {
    var c, d := FramingCrypto(), Dir(Some("x"), None, None);
    FramingIsLawful();
    FramedByte();
    UndisturbedRun(c, "x", d, 0);
    assert |Writing(d, "+x.")| == 4;
    assert |ArchiveLegacy(c, "x", d, Undisturbed(d), 0).steps| > 4;
    CreatingSteps(c, "x", d, Undisturbed(d), 0, 2);
    assert "+x."[..1] == "+";
    RerunAfterCrash(c, "x", d, 0, 2, again);
  }

  /** A refusal that does leave a file behind: another program's archive appears just before the link, and
      the complete temporary stays beside it. */
  lemma LateArchiveIsRefused()
    ensures var c, d := FramingCrypto(), Dir(Some("x"), None, None);
      var plan := ArchiveLegacy(c, "x", d, Meanwhile("x", None, Some("other")), 0);
      && !plan.ok && Writes(plan)
      && plan.steps[|plan.steps| - 1].dir == Dir(Some("x"), Some("other"), Some("+x."))
  {
    FramingIsLawful();
    FramedByte();
    RefusalChangesNothing(FramingCrypto(), "x", Dir(Some("x"), None, None), Meanwhile("x", None, Some("other")), 0);
  }

  /** Archival as it runs: files change in place, every durable state is visible in `history`. */
  class ArchiveDirectory {
    var source: Option<Bytes>
    var archive: Option<Bytes>
    var temporary: Option<Bytes>
    ghost var history: seq<Step>

    constructor (d: Dir)
      ensures Now() == d && history == [Seen(d)]
    {
      source, archive, temporary := d.source, d.archive, d.temporary;
      history := [Seen(d)];
    }

    ghost function Now(): Dir
      reads this
    {
      Dir(source, archive, temporary)
    }

    /** `O_CREAT | O_EXCL`: fails, and changes nothing, on an existing file. */
    method CreateExclusive() returns (created: bool)
      modifies this`temporary, this`history
      ensures created <==> old(temporary).None?
      ensures temporary == if created then Some("") else old(temporary)
      ensures history == old(history) + if created then [Wrote(Now())] else []
    {
      created := temporary.None?;
      if created {
        temporary := Some("");
        history := history + [Wrote(Now())];
      }
    }

    /** A hard link: fails, and changes nothing, on an existing target. */
    method LinkArchive() returns (linked: bool)
      requires temporary.Some?
      modifies this`archive, this`history
      ensures linked <==> old(archive).None?
      ensures archive == if linked then temporary else old(archive)
      ensures history == old(history) + if linked then [Wrote(Now())] else []
    {
      linked := archive.None?;
      if linked {
        archive := temporary;
        history := history + [Wrote(Now())];
      }
    }

    /** Another program creates a file this call has just seen missing. */
    method Appear(newTemporary: Option<Bytes>, newArchive: Option<Bytes>)
      modifies this`temporary, this`archive, this`history
      ensures temporary == (if newTemporary.Some? then newTemporary else old(temporary))
      ensures archive == (if newArchive.Some? then newArchive else old(archive))
      ensures history == old(history) + if newTemporary.Some? || newArchive.Some? then [Seen(Now())] else []
    {
      if newTemporary.Some? || newArchive.Some? {
        temporary := if newTemporary.Some? then newTemporary else temporary;
        archive := if newArchive.Some? then newArchive else archive;
        history := history + [Seen(Now())];
      }
    }

    /** Exclusive creation, then the bytes in order. */
    method WriteTemporary(encrypted: Bytes) returns (created: bool)
      modifies this`temporary, this`history
      ensures created <==> old(temporary).None?
      ensures temporary == if created then Some(encrypted) else old(temporary)
      ensures history == old(history) + if created then Writing(old(Now()), encrypted) else []
    {
      created := CreateExclusive();
      if !created {
        return;
      }
      assert temporary == Some(encrypted[..0]);
      for n := 0 to |encrypted|
        invariant temporary == Some(encrypted[..n])
        invariant history == old(history) + Writing(old(Now()), encrypted)[..n + 1]
      {
        temporary := Some(temporary.value + [encrypted[n]]);
        assert temporary.value == encrypted[..n + 1];
        history := history + [Wrote(Now())];
      }
      assert encrypted[..|encrypted|] == encrypted;
    }

    /** The encrypted copy, unless a temporary has appeared. */
    method CreateCopy(c: Crypto, m: Meanwhile, nonce: nat) returns (ok: bool)
      requires temporary.None?
      modifies this`temporary, this`archive, this`history
      ensures archive == old(archive)
      ensures var encrypted := c.encrypt(m.reread, nonce);
        if c.decrypt(encrypted) != Some(m.reread) then
          !ok && temporary == old(temporary) && history == old(history)
        else if m.temporary.Some? then
          !ok && temporary == m.temporary && history == old(history) + [Seen(Now())]
        else
          ok && temporary == Some(encrypted) && history == old(history) + Writing(old(Now()), encrypted)
    {
      var encrypted := c.encrypt(m.reread, nonce);
      if c.decrypt(encrypted) != Some(m.reread) {
        return false;
      }
      Appear(m.temporary, None);
      ok := WriteTemporary(encrypted);
    }

    /** Verification and the link, unless an archive has appeared. */
    method PublishCopy(c: Crypto, expected: string, appeared: Option<Bytes>) returns (ok: bool)
      requires temporary.Some? && archive.None?
      modifies this`temporary, this`archive, this`history
      ensures temporary == old(temporary)
      ensures ok <==> Verifies(c, expected, temporary.value) && appeared.None?
      ensures archive == if ok then temporary else if Verifies(c, expected, temporary.value) then appeared else None
      ensures history == old(history) + if ok then [Wrote(Now())] else if archive.Some? then [Seen(Now())] else []
    {
      if !Verifies(c, expected, temporary.value) {
        return false;
      }
      Appear(None, appeared);
      ok := LinkArchive();
    }

    /** From a missing archive to the link: an encrypted copy if there is none yet, then its publication. */
    method MakeArchive(c: Crypto, expected: string, m: Meanwhile, nonce: nat) returns (ok: bool)
      requires archive.None? && !Unsafe(c, expected, Now())
      modifies this`temporary, this`archive, this`history
      ensures var plan := ArchiveLegacy(c, expected, old(Now()), m, nonce);
        && ok == plan.ok
        && (!ok ==> history == old(history) + plan.steps[1..] && Now() == plan.steps[|plan.steps| - 1].dir)
        && (ok ==> temporary.Some? && archive == temporary && Verifies(c, expected, archive.value)
                   && plan.steps[|plan.steps| - 1].dir == Now().(temporary := None)
                   && history + [Wrote(Now().(temporary := None))] == old(history) + plan.steps[1..])
    {
      if temporary.None? {
        if source.None? {
          return false;
        }
        ok := CreateCopy(c, m, nonce);
        if !ok {
          return;
        }
        CreatingTail(c, expected, old(Now()), m, nonce);
      }
      ok := PublishCopy(c, expected, m.archive);
    }

    method Run(c: Crypto, expected: string, m: Meanwhile, nonce: nat) returns (ok: bool)
      modifies this
      ensures var plan := ArchiveLegacy(c, expected, old(Now()), m, nonce);
        ok == plan.ok && history == old(history) + plan.steps[1..] && Now() == plan.steps[|plan.steps| - 1].dir
    {
      if source.Some? && c.digest(source.value) != expected {
        return false;
      }
      if temporary.Some? && !Verifies(c, expected, temporary.value) {
        return false;
      }
      if archive.None? {
        ok := MakeArchive(c, expected, m, nonce);
        if !ok {
          return;
        }
      }
      if !Verifies(c, expected, archive.value) {
        return false;
      }
      if temporary.Some? {
        temporary := None;
        history := history + [Wrote(Now())];
      }
      ok := true;
    }
  }
}
