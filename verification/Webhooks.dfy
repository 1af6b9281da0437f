/** Re-encryption of webhook secrets during the auth-state migration. */
module Webhooks {
  import opened PyText

  type Bytes = string

  datatype Row = Row(webhookId: string, path: string, version: int, blob: Bytes)

  /** The current scheme, bound to identity and version; the legacy token scheme under one key, whose
      `legacyEncrypt` gives raw tokens; their base64 form; and the text check of the secret reader. */
  datatype Codec = Codec(
    decrypt: (Bytes, string, int) -> Option<Bytes>,
    encrypt: (Bytes, string, int, nat) -> Bytes,
    legacyDecrypt: Bytes -> Option<Bytes>,
    legacyEncrypt: (Bytes, nat) -> Bytes,
    urlsafeBase64: Bytes -> Bytes,
    isText: Bytes -> bool)

  ghost predicate Lawful(c: Codec) {
    forall secret: Bytes, id: string, version: int, nonce: nat {:trigger c.encrypt(secret, id, version, nonce)} ::
      c.decrypt(c.encrypt(secret, id, version, nonce), id, version) == Some(secret)
  }

  /** A legacy token is the base64 text of a raw token, which starts with byte 0x80 as the text never does; and
      decrypting it gives the secret back. */
  ghost predicate LegacyLawful(c: Codec) {
    && (forall secret: Bytes, nonce: nat {:trigger c.legacyEncrypt(secret, nonce)} ::
          && c.legacyEncrypt(secret, nonce) != "" && c.legacyEncrypt(secret, nonce)[0] as int == 0x80
          && c.legacyDecrypt(c.urlsafeBase64(c.legacyEncrypt(secret, nonce))) == Some(secret))
    && (forall raw: Bytes {:trigger c.urlsafeBase64(raw)} ::
          c.urlsafeBase64(raw) != "" ==> c.urlsafeBase64(raw)[0] as int < 0x80)
  }

  function CanonicalId(path: string): string {
    TrimLeft(Strip(path), (ch: char) => ch == '/')
  }

  function LegacyToken(c: Codec, blob: Bytes): Bytes {
    if blob != "" && blob[0] as int == 0x80 then c.urlsafeBase64(blob) else blob
  }

  /** The secret behind a row: under the current scheme, else under the legacy key if there is one. */
  function Plaintext(c: Codec, hasLegacyKey: bool, row: Row): Option<Bytes> {
    if row.version < 1 then None
    else if c.decrypt(row.blob, row.webhookId, row.version).Some? then c.decrypt(row.blob, row.webhookId, row.version)
    else if hasLegacyKey then c.legacyDecrypt(LegacyToken(c, row.blob))
    else None
  }

  predicate Current(c: Codec, row: Row) {
    c.decrypt(row.blob, row.webhookId, row.version).Some?
  }

  /** The row passes every check of the transcoding loop. */
  predicate Accepted(c: Codec, hasLegacyKey: bool, row: Row) {
    && row.path != "" && CanonicalId(row.path) == row.webhookId
    && Plaintext(c, hasLegacyKey, row).Some?
    && c.isText(Plaintext(c, hasLegacyKey, row).value)
  }

  function Transcoded(c: Codec, hasLegacyKey: bool, row: Row, nonce: nat): Row
    requires Plaintext(c, hasLegacyKey, row).Some?
  {
    if Current(c, row) then row
    else row.(blob := c.encrypt(Plaintext(c, hasLegacyKey, row).value, row.webhookId, row.version, nonce))
  }

  /** The row is accepted and, if it needs a new ciphertext, that ciphertext decrypts to the secret. */
  predicate Transcodable(c: Codec, hasLegacyKey: bool, row: Row, nonce: nat) {
    && Accepted(c, hasLegacyKey, row)
    && (Current(c, row) || Plaintext(c, hasLegacyKey, row) ==
          c.decrypt(Transcoded(c, hasLegacyKey, row, nonce).blob, row.webhookId, row.version))
  }

  predicate AllAccepted(c: Codec, hasLegacyKey: bool, rows: seq<Row>) {
    forall i | 0 <= i < |rows| :: Accepted(c, hasLegacyKey, rows[i])
  }

  predicate AllTranscodable(c: Codec, hasLegacyKey: bool, rows: seq<Row>) {
    forall i | 0 <= i < |rows| :: Transcodable(c, hasLegacyKey, rows[i], i)
  }

  /** With a lawful codec the verification of new ciphertexts never refuses an accepted row. */
  lemma AcceptedIsTranscodable(c: Codec, hasLegacyKey: bool, rows: seq<Row>)
    requires Lawful(c)
    ensures AllTranscodable(c, hasLegacyKey, rows) <==> AllAccepted(c, hasLegacyKey, rows)
  {
    forall i | 0 <= i < |rows| && Accepted(c, hasLegacyKey, rows[i]) ensures Transcodable(c, hasLegacyKey, rows[i], i) {
      TranscodedKeepsMeaning(c, hasLegacyKey, rows[i], i);
    }
  }

  /** `webhook_id` is the primary key. */
  predicate DistinctIds(rows: seq<Row>) {
    forall i, j | 0 <= i < j < |rows| :: rows[i].webhookId != rows[j].webhookId
  }

  // ----- One row -----

  /** Identity, path, version and meaning survive, the result is current, and a current row is untouched. */
  lemma TranscodedKeepsMeaning(c: Codec, hasLegacyKey: bool, row: Row, nonce: nat)
    requires Lawful(c) && Accepted(c, hasLegacyKey, row)
    ensures var out := Transcoded(c, hasLegacyKey, row, nonce);
      && out == row.(blob := out.blob)
      && Current(c, out)
      && Plaintext(c, false, out) == Plaintext(c, hasLegacyKey, row)
      && Accepted(c, false, out)
      && (Current(c, row) ==> out == row)
  {
    var secret := Plaintext(c, hasLegacyKey, row).value;
    assert c.decrypt(c.encrypt(secret, row.webhookId, row.version, nonce), row.webhookId, row.version) == Some(secret);
  }

  /** Blanks around a path and slashes in front of it do not matter. */
  lemma CanonicalPath(before: string, slashes: string, id: string, after: string)
    requires IsBlank(before) && IsBlank(after) && IsWord(id) && id[0] != '/'
    requires forall i | 0 <= i < |slashes| :: slashes[i] == '/'
    ensures CanonicalId(before + (slashes + id) + after) == id
  {
    StripPadded(before, slashes + id, after);
    SlashesDropped(slashes, id);
  }

  lemma {:induction false} SlashesDropped(slashes: string, id: string)
    requires (forall i | 0 <= i < |slashes| :: slashes[i] == '/') && id != "" && id[0] != '/'
    ensures TrimLeft(slashes + id, (ch: char) => ch == '/') == id
  {
    if slashes == "" {
      assert slashes + id == id;
    } else {
      assert (slashes + id)[1..] == slashes[1..] + id;
      SlashesDropped(slashes[1..], id);
    }
  }

  /** A row written by the legacy scheme, as text or as the raw token: with the legacy key it is accepted and
      comes out current with its secret; without the key it is refused. */
  lemma LegacyRowIsTranscoded(c: Codec, row: Row, secret: Bytes, written: nat, raw: bool, nonce: nat)
    requires Lawful(c) && LegacyLawful(c) && row.version >= 1 && !Current(c, row)
    requires row.path != "" && CanonicalId(row.path) == row.webhookId && c.isText(secret)
    requires var token := c.legacyEncrypt(secret, written);
      row.blob == if raw then token else c.urlsafeBase64(token)
    ensures Accepted(c, true, row) && !Accepted(c, false, row)
    ensures var out := Transcoded(c, true, row, nonce);
      c.decrypt(out.blob, row.webhookId, row.version) == Some(secret) && out == row.(blob := out.blob)
  {
    var token := c.legacyEncrypt(secret, written);
    assert token != "" && c.legacyDecrypt(c.urlsafeBase64(token)) == Some(secret);
    TranscodedKeepsMeaning(c, true, row, nonce);
  }

  /** What a row has to satisfy, spelled out: a path that names it, a version, and a secret that is text under
      the current scheme or, with the key, under the legacy one. In particular a row that opens under
      neither scheme is refused. */
  lemma AcceptedIff(c: Codec, hasLegacyKey: bool, row: Row)
    ensures Accepted(c, hasLegacyKey, row)
       <==> && row.path != "" && CanonicalId(row.path) == row.webhookId && row.version >= 1
            && var current := c.decrypt(row.blob, row.webhookId, row.version);
            && var token := if row.blob != "" && row.blob[0] == '\U{80}' then c.urlsafeBase64(row.blob) else row.blob;
            if current.Some? then c.isText(current.value)
            else hasLegacyKey && c.legacyDecrypt(token).Some? && c.isText(c.legacyDecrypt(token).value)
  {
  }

  // ----- The table -----

  /** `updates` holds new ciphertexts by identity; they are applied in one transaction at the end. */
  function ApplyUpdates(rows: seq<Row>, updates: map<string, Bytes>): seq<Row> {
    seq(|rows|, i requires 0 <= i < |rows| =>
      if rows[i].webhookId in updates then rows[i].(blob := updates[rows[i].webhookId]) else rows[i])
  }

  /** The rows after a successful transcoding; the nonce of each row is its position. */
  function TranscodedRows(c: Codec, hasLegacyKey: bool, rows: seq<Row>): seq<Row>
    requires AllAccepted(c, hasLegacyKey, rows)
  {
    seq(|rows|, i requires 0 <= i < |rows| => Transcoded(c, hasLegacyKey, rows[i], i))
  }

  /** How the row validator reads a table before comparing: ciphertexts replaced by secrets. */
  function PlainRows(c: Codec, hasLegacyKey: bool, rows: seq<Row>): seq<(string, string, int, Option<Bytes>)> {
    seq(|rows|, i requires 0 <= i < |rows| =>
      (rows[i].webhookId, rows[i].path, rows[i].version, Plaintext(c, hasLegacyKey, rows[i])))
  }

  /** The comparison sees every row: two tables compare equal exactly when their rows agree, in order, in
      identity, path, version and secret. */
  lemma PlainRowsIff(c: Codec, aKey: bool, a: seq<Row>, bKey: bool, b: seq<Row>)
    ensures PlainRows(c, aKey, a) == PlainRows(c, bKey, b)
       <==> && |a| == |b|
            && forall i | 0 <= i < |a| ::
                 && a[i].webhookId == b[i].webhookId && a[i].path == b[i].path && a[i].version == b[i].version
                 && Plaintext(c, aKey, a[i]) == Plaintext(c, bKey, b[i])
  {
    var p, q := PlainRows(c, aKey, a), PlainRows(c, bKey, b);
    assert |p| == |a| && |q| == |b|;
    forall i | 0 <= i < |a| && i < |b|
      ensures p[i] == q[i]
         <==> && a[i].webhookId == b[i].webhookId && a[i].path == b[i].path && a[i].version == b[i].version
              && Plaintext(c, aKey, a[i]) == Plaintext(c, bKey, b[i])
    {
      assert p[i] == (a[i].webhookId, a[i].path, a[i].version, Plaintext(c, aKey, a[i]));
      assert q[i] == (b[i].webhookId, b[i].path, b[i].version, Plaintext(c, bKey, b[i]));
    }
    if p == q {
      assert forall i | 0 <= i < |a| :: p[i] == q[i];
    }
  }

  /** How many rows still need a new ciphertext. */
  function StaleRows(c: Codec, rows: seq<Row>): nat {
    if rows == [] then 0
    else StaleRows(c, rows[..|rows| - 1]) + if Current(c, rows[|rows| - 1]) then 0 else 1
  }

  /** The checks on one row, and its new ciphertext if it needs one. */
  method TranscodeRow(c: Codec, hasLegacyKey: bool, row: Row, nonce: nat) returns (ok: bool, encrypted: Option<Bytes>)
    ensures ok <==> Transcodable(c, hasLegacyKey, row, nonce)
    ensures ok ==> (encrypted.Some? <==> !Current(c, row))
    ensures ok && encrypted.Some? ==> encrypted.value == Transcoded(c, hasLegacyKey, row, nonce).blob
  {
    encrypted := None;
    if row.path == "" || CanonicalId(row.path) != row.webhookId {
      return false, None;
    }
    var secret := Plaintext(c, hasLegacyKey, row);
    if secret.None? || !c.isText(secret.value) {
      return false, None;
    }
    if c.decrypt(row.blob, row.webhookId, row.version).None? {
      encrypted := Some(c.encrypt(secret.value, row.webhookId, row.version, nonce));
      if c.decrypt(encrypted.value, row.webhookId, row.version) != secret {
        return false, None;
      }
    }
    ok := true;
  }

  class WebhookTable {
    var rows: seq<Row>

    constructor (rows: seq<Row>)
      ensures this.rows == rows
    {
      this.rows := rows;
    }

    /** Checks every row, then updates all that need it in one transaction. Success is returned exactly
        when every row can be transcoded; a refusal leaves all rows as they were. */
    method Transcode(c: Codec, hasLegacyKey: bool) returns (ok: bool, count: nat)
      requires DistinctIds(rows)
      modifies this
      ensures ok <==> AllTranscodable(c, hasLegacyKey, old(rows))
      ensures ok ==> AllAccepted(c, hasLegacyKey, old(rows))
      ensures rows == if ok then TranscodedRows(c, hasLegacyKey, old(rows)) else old(rows)
      ensures ok ==> count == StaleRows(c, old(rows))
    {
      var updates: map<string, Bytes> := map[];
      count := 0;
      for k := 0 to |rows|
        invariant rows == old(rows)
        invariant forall i | 0 <= i < k :: Transcodable(c, hasLegacyKey, rows[i], i)
        invariant UpdatesFor(c, hasLegacyKey, rows, k, updates)
        invariant count == StaleRows(c, rows[..k])
      {
        assert rows[..k + 1][..k] == rows[..k];
        var accepted, encrypted := TranscodeRow(c, hasLegacyKey, rows[k], k);
        if !accepted {
          return false, 0;
        }
        AddUpdate(c, hasLegacyKey, rows, k, updates, encrypted);
        if encrypted.Some? {
          updates := updates[rows[k].webhookId := encrypted.value];
          count := count + 1;
        }
      }
      assert rows[..|rows|] == rows;
      UpdatesAreTranscoded(c, hasLegacyKey, rows, updates);
      rows := ApplyUpdates(rows, updates);
      ok := true;
    }
  }

  /** The updates of the first `k` rows: the new ciphertexts of the stale ones. */
  predicate UpdatesFor(c: Codec, hasLegacyKey: bool, rows: seq<Row>, k: nat, updates: map<string, Bytes>) {
    forall i | 0 <= i < |rows| :: UpdateAt(c, hasLegacyKey, rows[i], i, k, updates)
  }

  predicate UpdateAt(c: Codec, hasLegacyKey: bool, row: Row, i: nat, k: nat, updates: map<string, Bytes>) {
    && (row.webhookId in updates <==> i < k && !Current(c, row))
    && (row.webhookId in updates ==>
          && Plaintext(c, hasLegacyKey, row).Some?
          && updates[row.webhookId] == Transcoded(c, hasLegacyKey, row, i).blob)
  }

  lemma AddUpdate(c: Codec, hasLegacyKey: bool, rows: seq<Row>, k: nat, updates: map<string, Bytes>,
                  encrypted: Option<Bytes>)
    requires DistinctIds(rows) && k < |rows| && UpdatesFor(c, hasLegacyKey, rows, k, updates)
    requires Transcodable(c, hasLegacyKey, rows[k], k) && (encrypted.Some? <==> !Current(c, rows[k]))
    requires encrypted.Some? ==> encrypted.value == Transcoded(c, hasLegacyKey, rows[k], k).blob
    ensures UpdatesFor(c, hasLegacyKey, rows, k + 1,
                       if encrypted.Some? then updates[rows[k].webhookId := encrypted.value] else updates)
  {
    var next := if encrypted.Some? then updates[rows[k].webhookId := encrypted.value] else updates;
    forall i | 0 <= i < |rows| ensures UpdateAt(c, hasLegacyKey, rows[i], i, k + 1, next) {
      assert UpdateAt(c, hasLegacyKey, rows[i], i, k, updates);
      assert i != k ==> rows[i].webhookId != rows[k].webhookId;
    }
  }

  lemma UpdatesAreTranscoded(c: Codec, hasLegacyKey: bool, rows: seq<Row>, updates: map<string, Bytes>)
    requires AllAccepted(c, hasLegacyKey, rows) && UpdatesFor(c, hasLegacyKey, rows, |rows|, updates)
    ensures ApplyUpdates(rows, updates) == TranscodedRows(c, hasLegacyKey, rows)
  {
    forall i | 0 <= i < |rows| ensures ApplyUpdates(rows, updates)[i] == TranscodedRows(c, hasLegacyKey, rows)[i] {
      assert UpdateAt(c, hasLegacyKey, rows[i], i, |rows|, updates);
    }
  }

  /** On success every row keeps identity, path, version and secret, is current, and is byte-identical
      if it was current before; and the built target satisfies the validator's comparison, which reads
      the source with the legacy key and the target without it. */
  lemma TranscodingPreservesMeaning(c: Codec, hasLegacyKey: bool, rows: seq<Row>, i: nat)
    requires Lawful(c) && i < |rows| && AllAccepted(c, hasLegacyKey, rows)
    ensures var out := TranscodedRows(c, hasLegacyKey, rows);
      && |out| == |rows|
      && out[i] == rows[i].(blob := out[i].blob)
      && Current(c, out[i])
      && Plaintext(c, false, out[i]) == Plaintext(c, hasLegacyKey, rows[i])
      && (Current(c, rows[i]) ==> out[i] == rows[i])
      && PlainRows(c, false, out) == PlainRows(c, hasLegacyKey, rows)
  {
    var out := TranscodedRows(c, hasLegacyKey, rows);
    TranscodedKeepsMeaning(c, hasLegacyKey, rows[i], i);
    forall k | 0 <= k < |rows| ensures PlainRows(c, false, out)[k] == PlainRows(c, hasLegacyKey, rows)[k] {
      TranscodedKeepsMeaning(c, hasLegacyKey, rows[k], k);
    }
  }

  /** A second run, with or without the legacy key, accepts every row and changes none. */
  lemma TranscodingIsIdempotent(c: Codec, hasLegacyKey: bool, again: bool, rows: seq<Row>)
    requires Lawful(c) && AllAccepted(c, hasLegacyKey, rows)
    ensures var out := TranscodedRows(c, hasLegacyKey, rows);
      && AllAccepted(c, again, out)
      && TranscodedRows(c, again, out) == out
  {
    var out := TranscodedRows(c, hasLegacyKey, rows);
    forall k | 0 <= k < |out| ensures Accepted(c, again, out[k]) && Transcoded(c, again, out[k], k) == out[k] {
      TranscodedKeepsMeaning(c, hasLegacyKey, rows[k], k);
    }
  }
}
