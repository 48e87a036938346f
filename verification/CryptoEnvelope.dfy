/** Context-bound encryption (crates/pebble-crypto/src/lib.rs, aes.rs) under one data key,
    over an ideal authenticated cipher (section 2 of RFC 5116): opening succeeds exactly on
    what was sealed with the same nonce, associated data and ciphertext. */
module CryptoEnvelope {
  import opened Basics
  import opened Sequences

  const NONCE_SIZE := 12
  const TAG_SIZE := 16
  /** "pebble.crypto.context.v1" and a zero byte. */
  const CONTEXT_AAD_DOMAIN: Bytes :=
    [112, 101, 98, 98, 108, 101, 46, 99, 114, 121, 112, 116, 111, 46, 99, 111, 110, 116, 101, 120, 116, 46, 118, 49, 0]
  /** "PEBBLE" and a zero byte. */
  const ENVELOPE_MAGIC: Bytes := [80, 69, 66, 66, 76, 69, 0]
  const ENVELOPE_V1: Byte := 1
  const ENVELOPE_V1_HEADER: Bytes := [80, 69, 66, 66, 76, 69, 0, 1]

  // ---------------------------------------------------------------- associated data

  function Power256(k: nat): nat { if k == 0 then 1 else 256 * Power256(k - 1) }

  /** The last `k` big-endian bytes of a number. */
  function BigEndian(n: nat, k: nat): (b: Bytes)
    ensures |b| == k
  {
    if k == 0 then [] else BigEndian(n / 256, k - 1) + [n % 256]
  }

  function FromBigEndian(b: Bytes): nat {
    if b == [] then 0 else 256 * FromBigEndian(b[..|b| - 1]) + b[|b| - 1]
  }

  lemma {:induction false} BigEndianRoundTrip(n: nat, k: nat)
    requires n < Power256(k)
    ensures FromBigEndian(BigEndian(n, k)) == n
  {
    if k == 0 {
    } else {
      BigEndianRoundTrip(n / 256, k - 1);
      assert BigEndian(n, k)[..k - 1] == BigEndian(n / 256, k - 1);
    }
  }

  /** A text is shorter than 2^64 bytes. */
  predicate Fits(b: Bytes) { |b| < Power256(8) }

  function Prefixed(b: Bytes): Bytes { BigEndian(|b|, 8) + b }

  function ContextAad(purpose: Bytes, recordId: Bytes): Bytes {
    CONTEXT_AAD_DOMAIN + (Prefixed(purpose) + Prefixed(recordId))
  }

  method BuildContextAad(purpose: Bytes, recordId: Bytes) returns (aad: Bytes)
    ensures aad == ContextAad(purpose, recordId)
  {
    aad := [];
    aad := aad + CONTEXT_AAD_DOMAIN;
    aad := aad + BigEndian(|purpose|, 8);
    aad := aad + purpose;
    aad := aad + BigEndian(|recordId|, 8);
    aad := aad + recordId;
  }

  lemma SamePrefix(a: Bytes, b: Bytes, x: Bytes, y: Bytes)
    requires |a| == |b| && a + x == b + y
    ensures a == b && x == y
  {
    assert (a + x)[..|a|] == a && (b + y)[..|b|] == b;
    assert (a + x)[|a|..] == x && (b + y)[|b|..] == y;
  }

  /** Two texts behind prefixes of one length: equal prefixes imply equal lengths here. */
  lemma DelimitedUnique(p: Bytes, q: Bytes, a: Bytes, b: Bytes, x: Bytes, y: Bytes)
    requires |p| == |q| && (p + a) + x == (q + b) + y && (p == q ==> |a| == |b|)
    ensures a == b && x == y
  {
    assert (p + a) + x == p + (a + x) && (q + b) + y == q + (b + y);
    SamePrefix(p, q, a + x, b + y);
    SamePrefix(a, b, x, y);
  }

  lemma BigEndianInjective(m: nat, n: nat, k: nat)
    requires m < Power256(k) && n < Power256(k) && BigEndian(m, k) == BigEndian(n, k)
    ensures m == n
  {
    BigEndianRoundTrip(m, k);
    BigEndianRoundTrip(n, k);
  }

  /** What a length prefix delimits can be told from what follows. */
  lemma PrefixedUnique(a: Bytes, b: Bytes, x: Bytes, y: Bytes)
    requires Fits(a) && Fits(b) && Prefixed(a) + x == Prefixed(b) + y
    ensures a == b && x == y
  {
    var p, q := BigEndian(|a|, 8), BigEndian(|b|, 8);
    if p == q { BigEndianInjective(|a|, |b|, 8); }
    DelimitedUnique(p, q, a, b, x, y);
  }

  /** The associated data of a context determines the context. */
  lemma ContextAadInjective(purpose: Bytes, recordId: Bytes, purpose2: Bytes, recordId2: Bytes)
    requires Fits(purpose) && Fits(recordId) && Fits(purpose2) && Fits(recordId2)
    ensures ContextAad(purpose, recordId) == ContextAad(purpose2, recordId2) <==>
              purpose == purpose2 && recordId == recordId2
  {
    if ContextAad(purpose, recordId) == ContextAad(purpose2, recordId2) {
      SamePrefix(CONTEXT_AAD_DOMAIN, CONTEXT_AAD_DOMAIN, Prefixed(purpose) + Prefixed(recordId),
                 Prefixed(purpose2) + Prefixed(recordId2));
      PrefixedUnique(purpose, purpose2, Prefixed(recordId), Prefixed(recordId2));
      assert Prefixed(recordId) + [] == Prefixed(recordId) && Prefixed(recordId2) + [] == Prefixed(recordId2);
      PrefixedUnique(recordId, recordId2, [], []);
    }
  }

  function EnvelopeAad(aad: Bytes): Bytes { ENVELOPE_V1_HEADER + aad }

  // ---------------------------------------------------------------- the cipher

  /** One sealing under the data key. */
  datatype Sealed = Sealed(nonce: Bytes, aad: Bytes, ciphertext: Bytes, message: Bytes)

  predicate Matches(s: Sealed, nonce: Bytes, aad: Bytes, ciphertext: Bytes) {
    s.nonce == nonce && s.aad == aad && s.ciphertext == ciphertext
  }

  /** Opening, given everything sealed so far. */
  function Open(sealed: seq<Sealed>, nonce: Bytes, aad: Bytes, ciphertext: Bytes): Option<Bytes> {
    if sealed == [] then None
    else if Matches(sealed[|sealed| - 1], nonce, aad, ciphertext) then Some(sealed[|sealed| - 1].message)
    else Open(sealed[..|sealed| - 1], nonce, aad, ciphertext)
  }

  /** No nonce and ciphertext are ever produced twice, and each has its proper length. */
  ghost predicate Proper(sealed: seq<Sealed>) {
    && (forall i :: 0 <= i < |sealed| ==> |sealed[i].nonce| == NONCE_SIZE && |sealed[i].ciphertext| >= TAG_SIZE)
    && (forall i, j :: 0 <= i < j < |sealed| ==>
          !(sealed[i].nonce == sealed[j].nonce && sealed[i].ciphertext == sealed[j].ciphertext))
  }

  lemma {:induction false} OpensWhatWasSealed(sealed: seq<Sealed>, nonce: Bytes, aad: Bytes, ciphertext: Bytes)
    ensures Open(sealed, nonce, aad, ciphertext).Some? ==>
              exists i :: 0 <= i < |sealed| && Matches(sealed[i], nonce, aad, ciphertext)
                          && Open(sealed, nonce, aad, ciphertext) == Some(sealed[i].message)
  {
    if sealed == [] {
    } else {
      var n := |sealed| - 1;
      OpensWhatWasSealed(sealed[..n], nonce, aad, ciphertext);
      if !Matches(sealed[n], nonce, aad, ciphertext) && Open(sealed, nonce, aad, ciphertext).Some? {
        var i :| 0 <= i < n && Matches(sealed[..n][i], nonce, aad, ciphertext)
                 && Open(sealed, nonce, aad, ciphertext) == Some(sealed[..n][i].message);
        assert sealed[i] == sealed[..n][i];
      }
    }
  }

  lemma {:induction false} SealedOpensIff(sealed: seq<Sealed>, i: nat, aad: Bytes)
    requires Proper(sealed) && i < |sealed|
    ensures Open(sealed, sealed[i].nonce, aad, sealed[i].ciphertext)
            == if aad == sealed[i].aad then Some(sealed[i].message) else None
  {
    var n := |sealed| - 1;
    if i < n {
      assert sealed[..n][i] == sealed[i];
      SealedOpensIff(sealed[..n], i, aad);
    } else {
      OpensWhatWasSealed(sealed[..n], sealed[i].nonce, aad, sealed[i].ciphertext);
      assert forall j :: 0 <= j < n ==> sealed[..n][j] == sealed[j];
    }
  }

  // ---------------------------------------------------------------- envelopes

  datatype Error = TooShort | Truncated | UnsupportedVersion(version: Byte) | NotAuthentic

  datatype Opened = Opened(plaintext: Bytes, needsMigration: bool)

  function DecryptWithAad(sealed: seq<Sealed>, data: Bytes, aad: Bytes): Result<Bytes, Error> {
    if |data| < NONCE_SIZE + TAG_SIZE then Err(TooShort)
    else
      match Open(sealed, data[..NONCE_SIZE], aad, data[NONCE_SIZE..])
      case Some(plaintext) => Ok(plaintext)
      case None => Err(NotAuthentic)
  }

  function DecryptEnveloped(sealed: seq<Sealed>, data: Bytes, aad: Bytes): Result<Opened, Error> {
    if StartsWith(data, ENVELOPE_MAGIC) then
      if |data| == |ENVELOPE_MAGIC| then Err(Truncated)
      else if data[|ENVELOPE_MAGIC|] != ENVELOPE_V1 then Err(UnsupportedVersion(data[|ENVELOPE_MAGIC|]))
      else
        match DecryptWithAad(sealed, data[|ENVELOPE_V1_HEADER|..], EnvelopeAad(aad))
        case Ok(plaintext) => Ok(Opened(plaintext, false))
        case Err(e) => Err(e)
    else
      match DecryptWithAad(sealed, data, [])
      case Ok(plaintext) => Ok(Opened(plaintext, true))
      case Err(e) => Err(e)
  }

  predicate NeedsMigration(data: Bytes) { !StartsWith(data, ENVELOPE_MAGIC) }

  function DecryptFor(sealed: seq<Sealed>, purpose: Bytes, recordId: Bytes, data: Bytes): Result<Opened, Error> {
    DecryptEnveloped(sealed, data, ContextAad(purpose, recordId))
  }

  /** A call of the service, with the nonce and ciphertext it came out with. */
  datatype Call =
    | EncryptFor(purpose: Bytes, recordId: Bytes, message: Bytes, nonce: Bytes, ciphertext: Bytes)
    | EncryptLegacy(message: Bytes, nonce: Bytes, ciphertext: Bytes)

  function SealedBy(c: Call): Sealed {
    match c
    case EncryptFor(purpose, recordId, message, nonce, ciphertext) =>
      Sealed(nonce, EnvelopeAad(ContextAad(purpose, recordId)), ciphertext, message)
    case EncryptLegacy(message, nonce, ciphertext) => Sealed(nonce, [], ciphertext, message)
  }

  /** The data a call returns. */
  function Output(c: Call): Bytes {
    (if c.EncryptFor? then ENVELOPE_V1_HEADER else []) + (c.nonce + c.ciphertext)
  }

  function SealedByAll(calls: seq<Call>): seq<Sealed> {
    seq(|calls|, i requires 0 <= i < |calls| => SealedBy(calls[i]))
  }

  /** Any calls whose nonces and ciphertexts are fresh. */
  ghost predicate History(calls: seq<Call>) {
    && Proper(SealedByAll(calls))
    && forall i :: 0 <= i < |calls| && calls[i].EncryptFor? ==> Fits(calls[i].purpose) && Fits(calls[i].recordId)
  }

  /** The service's data key and, for the ideal cipher, what it sealed. */
  class CryptoService {
    ghost var calls: seq<Call>

    constructor ()
      ensures calls == []
    {
      calls := [];
    }

    method Encrypt(message: Bytes, nonce: Bytes, ciphertext: Bytes) returns (data: Bytes)
      modifies this
      ensures calls == old(calls) + [EncryptLegacy(message, nonce, ciphertext)]
      ensures data == Output(calls[|calls| - 1])
    {
      data := nonce;
      data := data + ciphertext;
      calls := calls + [EncryptLegacy(message, nonce, ciphertext)];
    }

    method EncryptScoped(purpose: Bytes, recordId: Bytes, message: Bytes, nonce: Bytes, ciphertext: Bytes)
      returns (data: Bytes)
      modifies this
      ensures calls == old(calls) + [EncryptFor(purpose, recordId, message, nonce, ciphertext)]
      ensures data == Output(calls[|calls| - 1])
    {
      data := ENVELOPE_V1_HEADER;
      data := data + nonce;
      data := data + ciphertext;
      calls := calls + [EncryptFor(purpose, recordId, message, nonce, ciphertext)];
    }
  }

  // ---------------------------------------------------------------- main results

  lemma SplitOutput(c: Call)
    requires |c.nonce| == NONCE_SIZE
    ensures (c.nonce + c.ciphertext)[..NONCE_SIZE] == c.nonce && (c.nonce + c.ciphertext)[NONCE_SIZE..] == c.ciphertext
    ensures c.EncryptFor? ==> StartsWith(Output(c), ENVELOPE_MAGIC) && Output(c)[|ENVELOPE_MAGIC|] == ENVELOPE_V1
                              && Output(c)[|ENVELOPE_V1_HEADER|..] == c.nonce + c.ciphertext
    ensures c.EncryptLegacy? ==> Output(c) == c.nonce + c.ciphertext
                                 && (StartsWith(Output(c), ENVELOPE_MAGIC) <==> StartsWith(c.nonce, ENVELOPE_MAGIC))
  {
    if c.EncryptFor? {
      assert Output(c)[..7] == ENVELOPE_MAGIC;
    } else {
      assert Output(c) == c.nonce + c.ciphertext;
      assert Output(c)[..7] == c.nonce[..7];
    }
  }

  /** Whatever else was encrypted, scoped data decrypts to its message under its own purpose
      and record, and under no other. */
  lemma ScopedRoundTrip(calls: seq<Call>, i: nat, purpose: Bytes, recordId: Bytes)
    requires History(calls) && i < |calls| && calls[i].EncryptFor? && Fits(purpose) && Fits(recordId)
    ensures DecryptFor(SealedByAll(calls), purpose, recordId, Output(calls[i]))
            == if purpose == calls[i].purpose && recordId == calls[i].recordId
               then Ok(Opened(calls[i].message, false)) else Err(NotAuthentic)
  {
    var c, sealed, aad := calls[i], SealedByAll(calls), ContextAad(purpose, recordId);
    assert sealed[i] == SealedBy(c);
    SplitOutput(c);
    SealedOpensIff(sealed, i, EnvelopeAad(aad));
    if EnvelopeAad(aad) == sealed[i].aad {
      SamePrefix(ENVELOPE_V1_HEADER, ENVELOPE_V1_HEADER, aad, ContextAad(c.purpose, c.recordId));
    }
    ContextAadInjective(purpose, recordId, c.purpose, c.recordId);
  }

  /** Legacy data is read under every purpose and record, flagged for migration, if and only
      if its nonce does not happen to start with the envelope's magic. */
  lemma LegacyRoundTripIff(calls: seq<Call>, i: nat, purpose: Bytes, recordId: Bytes)
    requires History(calls) && i < |calls| && calls[i].EncryptLegacy?
    ensures DecryptFor(SealedByAll(calls), purpose, recordId, Output(calls[i])) == Ok(Opened(calls[i].message, true))
            <==> !StartsWith(calls[i].nonce, ENVELOPE_MAGIC)
  {
    var c, sealed := calls[i], SealedByAll(calls);
    assert sealed[i] == SealedBy(c);
    SplitOutput(c);
    SealedOpensIff(sealed, i, []);
  }

  /** Scoped data without its header never decrypts as legacy data. */
  lemma StrippedHeaderFails(calls: seq<Call>, i: nat)
    requires History(calls) && i < |calls| && calls[i].EncryptFor?
    ensures DecryptWithAad(SealedByAll(calls), Output(calls[i])[|ENVELOPE_V1_HEADER|..], []) == Err(NotAuthentic)
  {
    var c, sealed := calls[i], SealedByAll(calls);
    assert sealed[i] == SealedBy(c) && |sealed[i].aad| >= |ENVELOPE_V1_HEADER|;
    SplitOutput(c);
    SealedOpensIff(sealed, i, []);
  }

  /** Data that decrypts is flagged for migration exactly when the check made without
      decrypting says so: data with the magic never takes the legacy path. */
  lemma MigrationFlag(sealed: seq<Sealed>, purpose: Bytes, recordId: Bytes, data: Bytes)
    requires DecryptFor(sealed, purpose, recordId, data).Ok?
    ensures DecryptFor(sealed, purpose, recordId, data).value.needsMigration == NeedsMigration(data)
  {
  }

  /** Main result: any data at all that decrypts under a purpose and record is, byte for
      byte, what encrypting that plaintext for them returned, or legacy output. */
  lemma OnlyOutputsDecrypt(calls: seq<Call>, purpose: Bytes, recordId: Bytes, data: Bytes)
    requires History(calls) && Fits(purpose) && Fits(recordId)
    requires DecryptFor(SealedByAll(calls), purpose, recordId, data).Ok?
    ensures var result := DecryptFor(SealedByAll(calls), purpose, recordId, data).value;
            exists i :: 0 <= i < |calls| && Output(calls[i]) == data && calls[i].message == result.plaintext
              && if result.needsMigration then calls[i].EncryptLegacy?
                 else calls[i].EncryptFor? && calls[i].purpose == purpose && calls[i].recordId == recordId
  {
    if StartsWith(data, ENVELOPE_MAGIC) {
      ScopedIsOutput(calls, purpose, recordId, data);
    } else {
      LegacyIsOutput(calls, data);
    }
  }

  /** What opens was sealed by one of the calls. */
  lemma OpenedByCall(calls: seq<Call>, body: Bytes, aad: Bytes) returns (i: nat)
    requires DecryptWithAad(SealedByAll(calls), body, aad).Ok?
    ensures i < |calls| && body == calls[i].nonce + calls[i].ciphertext && SealedBy(calls[i]).aad == aad
    ensures DecryptWithAad(SealedByAll(calls), body, aad) == Ok(calls[i].message)
  {
    var sealed, nonce, ciphertext := SealedByAll(calls), body[..NONCE_SIZE], body[NONCE_SIZE..];
    OpensWhatWasSealed(sealed, nonce, aad, ciphertext);
    i :| 0 <= i < |sealed| && Matches(sealed[i], nonce, aad, ciphertext)
         && Open(sealed, nonce, aad, ciphertext) == Some(sealed[i].message);
    assert sealed[i] == SealedBy(calls[i]) && body == nonce + ciphertext;
  }

  lemma ScopedIsOutput(calls: seq<Call>, purpose: Bytes, recordId: Bytes, data: Bytes)
    requires History(calls) && Fits(purpose) && Fits(recordId) && StartsWith(data, ENVELOPE_MAGIC)
    requires DecryptFor(SealedByAll(calls), purpose, recordId, data).Ok?
    ensures exists i :: 0 <= i < |calls| && Output(calls[i]) == data
              && calls[i].message == DecryptFor(SealedByAll(calls), purpose, recordId, data).value.plaintext
              && calls[i].EncryptFor? && calls[i].purpose == purpose && calls[i].recordId == recordId
  {
    var body := data[|ENVELOPE_V1_HEADER|..];
    var i := OpenedByCall(calls, body, EnvelopeAad(ContextAad(purpose, recordId)));
    var c := calls[i];
    AadTellsKind(c);
    SamePrefix(ENVELOPE_V1_HEADER, ENVELOPE_V1_HEADER,
               ContextAad(purpose, recordId), ContextAad(c.purpose, c.recordId));
    ContextAadInjective(purpose, recordId, c.purpose, c.recordId);
    assert data == data[..8] + body && data[..8] == ENVELOPE_V1_HEADER;
  }

  lemma LegacyIsOutput(calls: seq<Call>, data: Bytes)
    requires History(calls) && DecryptWithAad(SealedByAll(calls), data, []).Ok?
    ensures exists i :: 0 <= i < |calls| && Output(calls[i]) == data && calls[i].EncryptLegacy?
              && Ok(calls[i].message) == DecryptWithAad(SealedByAll(calls), data, [])
  {
    var i := OpenedByCall(calls, data, []);
    AadTellsKind(calls[i]);
    assert Output(calls[i]) == [] + data;
  }

  lemma AadTellsKind(c: Call)
    ensures SealedBy(c).aad == [] <==> c.EncryptLegacy?
  {
    if c.EncryptFor? { assert |SealedBy(c).aad| >= |ENVELOPE_V1_HEADER|; }
  }
}
