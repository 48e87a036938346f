/** The data key in the credential store (crates/pebble-crypto/src/keystore.rs): kept in
    hexadecimal, read raw from older versions, never overwritten when unreadable. */
module KeyStore {
  import opened Basics
  import opened Sequences

  const DEK_LEN := 32

  datatype Error = InvalidFormat | ReadFailed | StoreFailed

  // ---------------------------------------------------------------- hexadecimal

  function HexDigit(n: nat): Byte
    requires n < 16
  {
    if n < 10 then 48 + n else 87 + n
  }

  function BytePair(high: nat, low: nat): Byte
    requires high < 16 && low < 16
  {
    16 * high + low
  }

  /** Both cases are read. */
  function HexValue(c: Byte): (value: Option<nat>)
    ensures value.Some? ==> value.value < 16
  {
    if 48 <= c <= 57 then Some(c - 48)
    else if 97 <= c <= 102 then Some(c - 87)
    else if 65 <= c <= 70 then Some(c - 55)
    else None
  }

  function EncodeHex(bytes: Bytes): (hex: Bytes)
    ensures |hex| == 2 * |bytes|
  {
    if bytes == [] then [] else [HexDigit(bytes[0] / 16), HexDigit(bytes[0] % 16)] + EncodeHex(bytes[1..])
  }

  function DecodeHex(hex: Bytes): (bytes: Option<Bytes>)
    ensures bytes.Some? ==> |hex| == 2 * |bytes.value|
  {
    if hex == [] then Some([])
    else if |hex| == 1 then None
    else
      var high, low, rest := HexValue(hex[0]), HexValue(hex[1]), DecodeHex(hex[2..]);
      if high.Some? && low.Some? && rest.Some?
      then
        var all := [BytePair(high.value, low.value)] + rest.value;
        assert |hex[2..]| == 2 * |rest.value|;
        Some(all)
      else None
  }

  lemma {:induction false} HexRoundTrip(bytes: Bytes)
    ensures DecodeHex(EncodeHex(bytes)) == Some(bytes)
  {
    if bytes == [] {
    } else {
      HexRoundTrip(bytes[1..]);
      var hex := EncodeHex(bytes);
      assert hex[2..] == EncodeHex(bytes[1..]);
      assert hex[0] == HexDigit(bytes[0] / 16) && hex[1] == HexDigit(bytes[0] % 16);
      assert BytePair(bytes[0] / 16, bytes[0] % 16) == bytes[0];
      assert bytes == [bytes[0]] + bytes[1..];
      assert HexValue(HexDigit(bytes[0] / 16)) == Some(bytes[0] / 16);
      assert HexValue(HexDigit(bytes[0] % 16)) == Some(bytes[0] % 16);
    }
  }

  function DecodeKey(secret: Bytes): Option<Bytes> {
    var bytes := DecodeHex(secret);
    if bytes.Some? && |bytes.value| == DEK_LEN then bytes else None
  }

  // ---------------------------------------------------------------- calls

  /** What a call meets: whether reading or writing the store fails, and the random key it
      would generate. */
  datatype Call = Call(readFails: bool, writeFails: bool, random: Bytes)

  predicate Proper(c: Call) { |c.random| == DEK_LEN }

  /** A failed write leaves the secret as it was. */
  function Written(secret: Option<Bytes>, c: Call, key: Bytes): Option<Bytes> {
    if c.writeFails then secret else Some(EncodeHex(key))
  }

  function GetOrCreate(secret: Option<Bytes>, c: Call): (Option<Bytes>, Result<Bytes, Error>) {
    if c.readFails then (secret, Err(ReadFailed))
    else
      match secret
      case None =>
        (Written(secret, c, c.random), if c.writeFails then Err(StoreFailed) else Ok(c.random))
      case Some(s) =>
        if |s| == DEK_LEN then (Written(secret, c, s), Ok(s))
        else if DecodeKey(s).Some? then (secret, Ok(DecodeKey(s).value))
        else (secret, Err(InvalidFormat))
  }

  class Credential {
    var secret: Option<Bytes>

    constructor (secret: Option<Bytes>)
      ensures this.secret == secret
    {
      this.secret := secret;
    }

    method SetSecret(bytes: Bytes, fails: bool) returns (ok: bool)
      modifies this
      ensures ok == !fails && secret == if fails then old(secret) else Some(bytes)
    {
      ok := !fails;
      if ok {
        secret := Some(bytes);
      }
    }

    method GenerateAndStore(c: Call) returns (r: Result<Bytes, Error>)
      modifies this
      ensures r == (if c.writeFails then Err(StoreFailed) else Ok(c.random))
      ensures secret == Written(old(secret), c, c.random)
    {
      var ok := SetSecret(EncodeHex(c.random), c.writeFails);
      r := if ok then Ok(c.random) else Err(StoreFailed);
    }

    method GetOrCreateDek(c: Call) returns (r: Result<Bytes, Error>)
      modifies this
      ensures (secret, r) == GetOrCreate(old(secret), c)
    {
      if c.readFails {
        return Err(ReadFailed);
      }
      if secret.None? {
        r := GenerateAndStore(c);
        return;
      }
      var s := secret.value;
      if |s| == DEK_LEN {
        var key := s;
        var _ := SetSecret(EncodeHex(key), c.writeFails);
        return Ok(key);
      }
      var key := DecodeKey(s);
      if key.Some? {
        return Ok(key.value);
      }
      r := Err(InvalidFormat);
    }
  }

  // ---------------------------------------------------------------- main results

  function After(secret: Option<Bytes>, calls: seq<Call>): Option<Bytes> {
    if calls == [] then secret
    else GetOrCreate(After(secret, calls[..|calls| - 1]), calls[|calls| - 1]).0
  }

  function ResultAt(secret: Option<Bytes>, calls: seq<Call>, i: nat): Result<Bytes, Error>
    requires i < |calls|
  {
    GetOrCreate(After(secret, calls[..i]), calls[i]).1
  }

  /** The key a secret stands for. */
  function KeyOf(secret: Option<Bytes>): Option<Bytes> {
    if secret.None? then None
    else if |secret.value| == DEK_LEN then secret
    else DecodeKey(secret.value)
  }

  lemma CallKeepsKey(secret: Option<Bytes>, c: Call)
    requires Proper(c)
    ensures var (next, r) := GetOrCreate(secret, c);
            && (r.Ok? ==> KeyOf(next) == Some(r.value))
            && (KeyOf(secret).Some? ==> KeyOf(next) == KeyOf(secret) && (r.Ok? ==> r.value == KeyOf(secret).value)
                                        && (r.Ok? <==> !c.readFails))
            && (secret.Some? && KeyOf(secret).None? ==> next == secret && r.Err?)
  {
    HexRoundTrip(c.random);
    if secret.Some? { HexRoundTrip(secret.value); }
  }

  lemma {:induction false} KeyStays(secret: Option<Bytes>, calls: seq<Call>, i: nat, n: nat)
    requires (forall c :: c in calls ==> Proper(c)) && i < n <= |calls| && ResultAt(secret, calls, i).Ok?
    ensures KeyOf(After(secret, calls[..n])) == Some(ResultAt(secret, calls, i).value)
  {
    assert calls[..n][..n - 1] == calls[..n - 1];
    CallKeepsKey(After(secret, calls[..n - 1]), calls[n - 1]);
    if i < n - 1 { KeyStays(secret, calls, i, n - 1); }
  }

  /** Main result: from any secret, whatever reads and writes fail, all calls that succeed
      return the same key; once one has, a call fails only if the store cannot be read. */
  lemma KeyIsStable(secret: Option<Bytes>, calls: seq<Call>, i: nat, j: nat)
    requires (forall c :: c in calls ==> Proper(c)) && i < j < |calls| && ResultAt(secret, calls, i).Ok?
    ensures if calls[j].readFails then ResultAt(secret, calls, j) == Err(ReadFailed)
            else ResultAt(secret, calls, j) == ResultAt(secret, calls, i)
  {
    KeyStays(secret, calls, i, j);
    CallKeepsKey(After(secret, calls[..j]), calls[j]);
  }

  /** A raw key migrates without changing: it is returned, and what is written in its place
      reads back as the same key. */
  lemma RawKeyMigrates(raw: Bytes, c: Call)
    requires |raw| == DEK_LEN && !c.readFails
    ensures var (next, r) := GetOrCreate(Some(raw), c);
            && r == Ok(raw)
            && (c.writeFails ==> next == Some(raw))
            && (!c.writeFails ==> next.Some? && |next.value| == 2 * DEK_LEN && DecodeKey(next.value) == Some(raw))
  {
    HexRoundTrip(raw);
  }

  /** A secret that is no key is never overwritten, and no call succeeds on it. */
  lemma {:induction false} InvalidNeverOverwritten(secret: Bytes, calls: seq<Call>)
    requires KeyOf(Some(secret)).None?
    ensures After(Some(secret), calls) == Some(secret)
    ensures forall c :: GetOrCreate(After(Some(secret), calls), c).1.Err?
  {
    if calls == [] {
    } else {
      InvalidNeverOverwritten(secret, calls[..|calls| - 1]);
    }
  }
}
