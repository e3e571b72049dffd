/**
 The local envelope that seals expected labels: an HMAC counter keystream, a tag and a commitment.
 HMAC, JSON and base64 are parameters; what is assumed of them is in `Mac32` and `Faithful`.
 */
module Sealing {
  import opened BigEndianCounters
  import opened Counting

  const BLOCK_BYTES := 32
  const COUNTER_LIMIT := 0x1_0000_0000_0000_0000
  const NONCE_BYTES := 16
  const KEY_BYTES := 32
  const ALGORITHM := "hmac-sha256-xor-v1"

  const StreamLabel: Bytes := [115, 116, 114, 101, 97, 109, 0]
  const TagLabel: Bytes := [116, 97, 103, 0]
  const CommitmentLabel: Bytes := [99, 111, 109, 109, 105, 116, 109, 101, 110, 116, 0]

  /** The keyed hash maps every key and message to 32 bytes. */
  ghost predicate Mac32(mac: (Bytes, Bytes) -> Bytes) {
    forall key, message :: |mac(key, message)| == BLOCK_BYTES
  }

  // ---------------------------------------------------------------- the keystream

  function Block(mac: (Bytes, Bytes) -> Bytes, key: Bytes, nonce: Bytes, counter: nat): Bytes {
    mac(key, StreamLabel + nonce + BigEndian(counter, 8))
  }

  /** Byte `i` of the unbounded stream. */
  function StreamByte(mac: (Bytes, Bytes) -> Bytes, key: Bytes, nonce: Bytes, i: nat): Byte
    requires Mac32(mac)
  {
    Block(mac, key, nonce, i / BLOCK_BYTES)[i % BLOCK_BYTES]
  }

  function Stream(mac: (Bytes, Bytes) -> Bytes, key: Bytes, nonce: Bytes, length: nat): Bytes
    requires Mac32(mac)
  {
    seq(length, i requires 0 <= i < length => StreamByte(mac, key, nonce, i))
  }

  /** The counter is eight bytes wide; a longer stream cannot be produced. */
  predicate StreamTooLong(length: nat) { length > BLOCK_BYTES * COUNTER_LIMIT }

  /** The block loop yields exactly the first `length` bytes of the stream, or fails on counter overflow. */
  method Keystream(mac: (Bytes, Bytes) -> Bytes, key: Bytes, nonce: Bytes, length: nat) returns (r: Option<Bytes>)
    requires Mac32(mac)
    ensures r == if StreamTooLong(length) then None else Some(Stream(mac, key, nonce, length))
  {
    var joined: Bytes := [];
    var counter: nat := 0;
    while |joined| < length
      invariant |joined| == counter * BLOCK_BYTES && counter <= COUNTER_LIMIT
      invariant forall i :: 0 <= i < |joined| ==> joined[i] == StreamByte(mac, key, nonce, i)
      decreases length - |joined|
    {
      if counter >= COUNTER_LIMIT {
        return None;
      }
      var block := Block(mac, key, nonce, counter);
      forall k | 0 <= k < BLOCK_BYTES ensures block[k] == StreamByte(mac, key, nonce, |joined| + k) {
        assert (counter * BLOCK_BYTES + k) / BLOCK_BYTES == counter;
      }
      joined := joined + block;
      counter := counter + 1;
    }
    assert joined[..length] == Stream(mac, key, nonce, length);
    r := Some(joined[..length]);
  }

  /** A shorter stream is a prefix of a longer one. */
  lemma StreamPrefix(mac: (Bytes, Bytes) -> Bytes, key: Bytes, nonce: Bytes, short: nat, long: nat)
    requires Mac32(mac) && short <= long
    ensures Stream(mac, key, nonce, short) <= Stream(mac, key, nonce, long)
  {
    assert forall i :: 0 <= i < short ==> Stream(mac, key, nonce, short)[i] == Stream(mac, key, nonce, long)[i];
  }

  // ---------------------------------------------------------------- exclusive or

  function Xor(left: Bytes, right: Bytes): Bytes
    requires |left| == |right|
  {
    seq(|left|, i requires 0 <= i < |left| => XorByte(left[i], right[i]))
  }

  lemma XorTwice(text: Bytes, stream: Bytes)
    requires |text| == |stream|
    ensures Xor(Xor(text, stream), stream) == text
  {
    forall i | 0 <= i < |text| ensures Xor(Xor(text, stream), stream)[i] == text[i] {
      XorByteTwice(text[i], stream[i]);
    }
  }

  // ---------------------------------------------------------------- records

  datatype Json =
    | Null
    | Bool(flag: bool)
    | Number(number: int)
    | Text(text: string)
    | List(items: seq<Json>)
    | Object(fields: map<string, Json>)

  type Expectation = map<string, Json>

  datatype Codec = Codec(
    encode: Expectation -> Option<Bytes>,
    decode: Bytes -> Option<Json>,
    base64: Bytes -> string,
    unbase64: string -> Option<Bytes>,
    unhex: Bytes -> Option<Bytes>,
    str: Json -> string)

  ghost predicate Faithful(c: Codec) {
    && (forall e :: c.encode(e).Some? ==> c.decode(c.encode(e).value) == Some(Object(e)))
    && (forall b :: c.unbase64(c.base64(b)) == Some(b))
    && (forall s :: c.str(Text(s)) == s)
  }

  datatype Record = Record(id: string, algorithm: string, nonce: string, ciphertext: string, tag: string,
                           commitment: string)

  datatype SealError =
    | InvalidKey
    | BadNonce
    | NotEncodable
    | TooLong
    | MissingId
    | UnsupportedAlgorithm
    | Malformed
    | AuthenticationFailed
    | CommitmentFailed
    | InvalidJson
    | IdMismatch

  predicate Blank(b: Byte) { b == 32 || 9 <= b <= 13 }

  function StripLeft(raw: Bytes): Bytes { if raw != [] && Blank(raw[0]) then StripLeft(raw[1..]) else raw }

  function StripRight(raw: Bytes): Bytes {
    if raw != [] && Blank(raw[|raw| - 1]) then StripRight(raw[..|raw| - 1]) else raw
  }

  const Base64Label: Bytes := [98, 97, 115, 101, 54, 52, 58]

  function Characters(raw: Bytes): string { seq(|raw|, i requires 0 <= i < |raw| => raw[i] as char) }

  /** A key is 32 raw bytes, hexadecimal, or `base64:` text, after stripping blanks. */
  function ParseKey(c: Codec, raw: Bytes): Option<Bytes> {
    var stripped := StripRight(StripLeft(raw));
    var key :=
      if Base64Label <= stripped then c.unbase64(Characters(stripped[|Base64Label|..]))
      else if |stripped| == KEY_BYTES then Some(stripped)
      else c.unhex(stripped);
    if key.Some? && |key.value| == KEY_BYTES then key else None
  }

  function TagOf(mac: (Bytes, Bytes) -> Bytes, key: Bytes, nonce: Bytes, ciphertext: Bytes): Bytes {
    mac(key, TagLabel + nonce + ciphertext)
  }

  function CommitmentOf(mac: (Bytes, Bytes) -> Bytes, key: Bytes, plaintext: Bytes): Bytes {
    mac(key, CommitmentLabel + plaintext)
  }

  function Encipher(mac: (Bytes, Bytes) -> Bytes, key: Bytes, nonce: Bytes, text: Bytes): Bytes
    requires Mac32(mac)
  {
    Xor(text, Stream(mac, key, nonce, |text|))
  }

  function SealRecord(c: Codec, mac: (Bytes, Bytes) -> Bytes, e: Expectation, rawKey: Bytes, nonce: Bytes)
    : Result<Record, SealError>
    requires Mac32(mac)
  {
    match ParseKey(c, rawKey)
    case None => Failure(InvalidKey)
    case Some(key) =>
      if |nonce| != NONCE_BYTES then Failure(BadNonce)
      else
        match c.encode(e)
        case None => Failure(NotEncodable)
        case Some(plaintext) =>
          if StreamTooLong(|plaintext|) then Failure(TooLong)
          else if "id" !in e then Failure(MissingId)
          else
            var ciphertext := Encipher(mac, key, nonce, plaintext);
            Success(Record(c.str(e["id"]), ALGORITHM, c.base64(nonce), c.base64(ciphertext),
                           c.base64(TagOf(mac, key, nonce, ciphertext)),
                           c.base64(CommitmentOf(mac, key, plaintext))))
  }

  /** The checks on the decrypted text, in order. */
  function OpenPlaintext(c: Codec, mac: (Bytes, Bytes) -> Bytes, key: Bytes, id: string, plaintext: Bytes,
                         commitment: Bytes)
    : Result<Expectation, SealError>
  {
    if commitment != CommitmentOf(mac, key, plaintext) then Failure(CommitmentFailed)
    else
      match c.decode(plaintext)
      case None => Failure(InvalidJson)
      case Some(value) =>
        if value.Object? && "id" in value.fields && value.fields["id"] == Text(id) then Success(value.fields)
        else Failure(IdMismatch)
  }

  function OpenRecord(c: Codec, mac: (Bytes, Bytes) -> Bytes, record: Record, rawKey: Bytes)
    : Result<Expectation, SealError>
    requires Mac32(mac)
  {
    match ParseKey(c, rawKey)
    case None => Failure(InvalidKey)
    case Some(key) =>
      if record.algorithm != ALGORITHM then Failure(UnsupportedAlgorithm)
      else
        var nonce, ciphertext := c.unbase64(record.nonce), c.unbase64(record.ciphertext);
        var tag, commitment := c.unbase64(record.tag), c.unbase64(record.commitment);
        if nonce.None? || ciphertext.None? || tag.None? || commitment.None? then Failure(Malformed)
        else if tag.value != TagOf(mac, key, nonce.value, ciphertext.value) then Failure(AuthenticationFailed)
        else if StreamTooLong(|ciphertext.value|) then Failure(TooLong)
        else OpenPlaintext(c, mac, key, record.id, Encipher(mac, key, nonce.value, ciphertext.value), commitment.value)
  }

  lemma EncipherTwice(mac: (Bytes, Bytes) -> Bytes, key: Bytes, nonce: Bytes, text: Bytes)
    requires Mac32(mac)
    ensures Encipher(mac, key, nonce, Encipher(mac, key, nonce, text)) == text
  {
    XorTwice(text, Stream(mac, key, nonce, |text|));
  }

  /** Whatever was sealed opens to itself exactly when its id is a string; otherwise the id check refuses it. */
  lemma SealThenOpen(c: Codec, mac: (Bytes, Bytes) -> Bytes, e: Expectation, rawKey: Bytes, nonce: Bytes)
    requires Mac32(mac) && Faithful(c)
    ensures var sealed := SealRecord(c, mac, e, rawKey, nonce);
      sealed.Success? ==>
        OpenRecord(c, mac, sealed.value, rawKey) == if e["id"].Text? then Success(e) else Failure(IdMismatch)
  {
    var sealed := SealRecord(c, mac, e, rawKey, nonce);
    if sealed.Success? {
      var key := ParseKey(c, rawKey).value;
      var plaintext := c.encode(e).value;
      EncipherTwice(mac, key, nonce, plaintext);
      hide Encipher, ParseKey;
    }
  }

  ghost predicate Collision(mac: (Bytes, Bytes) -> Bytes, key: Bytes, a: Bytes, b: Bytes) {
    a != b && mac(key, a) == mac(key, b)
  }

  /** A commitment binds: two records with one commitment open to one expectation, or exhibit a hash collision. */
  lemma CommitmentBinds(c: Codec, mac: (Bytes, Bytes) -> Bytes, a: Record, b: Record, rawKey: Bytes)
    requires Mac32(mac) && a.commitment == b.commitment
    requires OpenRecord(c, mac, a, rawKey).Success? && OpenRecord(c, mac, b, rawKey).Success?
    ensures
      || OpenRecord(c, mac, a, rawKey).value == OpenRecord(c, mac, b, rawKey).value
      || exists x, y :: Collision(mac, ParseKey(c, rawKey).value, x, y)
  {
    hide Encipher, ParseKey;
    var key := ParseKey(c, rawKey).value;
    var x := Encipher(mac, key, c.unbase64(a.nonce).value, c.unbase64(a.ciphertext).value);
    var y := Encipher(mac, key, c.unbase64(b.nonce).value, c.unbase64(b.ciphertext).value);
    assert mac(key, CommitmentLabel + x) == mac(key, CommitmentLabel + y);
    if CommitmentLabel + x == CommitmentLabel + y {
      assert x == (CommitmentLabel + x)[|CommitmentLabel|..] && y == (CommitmentLabel + y)[|CommitmentLabel|..];
    } else {
      assert Collision(mac, key, CommitmentLabel + x, CommitmentLabel + y);
    }
  }

  // ---------------------------------------------------------------- when sealing and opening succeed

  /** Sealing succeeds exactly for a valid key, a 16-byte nonce and an encodable expectation with an id. */
  lemma SealSucceeds(c: Codec, mac: (Bytes, Bytes) -> Bytes, e: Expectation, rawKey: Bytes, nonce: Bytes)
    requires Mac32(mac)
    ensures SealRecord(c, mac, e, rawKey, nonce).Success? <==>
      && ParseKey(c, rawKey).Some? && |nonce| == 16
      && c.encode(e).Some? && |c.encode(e).value| <= 32 * 0x1_0000_0000_0000_0000 && "id" in e
  {
    hide ParseKey, Encipher;
  }

  /**
   The key between blanks: the base64 text after its label, 32 raw bytes as they are, or hexadecimal; and 32
   bytes in any case.
   */
  lemma KeyForms(c: Codec, left: Bytes, core: Bytes, right: Bytes)
    requires core != [] && !Blank(core[0]) && !Blank(core[|core| - 1])
    requires (forall b :: b in left ==> Blank(b)) && forall b :: b in right ==> Blank(b)
    ensures
      var key :=
        if [98, 97, 115, 101, 54, 52, 58] <= core then c.unbase64(Characters(core[7..]))
        else if |core| == 32 then Some(core)
        else c.unhex(core);
      ParseKey(c, left + core + right) == if key.Some? && |key.value| == 32 then key else None
  {
    StripsLeft(left, core + right);
    assert left + (core + right) == left + core + right;
    StripsRight(core, right);
  }

  lemma {:induction false} StripsLeft(left: Bytes, rest: Bytes)
    requires (forall b :: b in left ==> Blank(b)) && rest != [] && !Blank(rest[0])
    ensures StripLeft(left + rest) == rest
  {
    if left == [] {
      assert left + rest == rest;
    } else {
      assert left[0] in left && (left + rest)[1..] == left[1..] + rest;
      StripsLeft(left[1..], rest);
    }
  }

  lemma {:induction false} StripsRight(rest: Bytes, right: Bytes)
    requires (forall b :: b in right ==> Blank(b)) && rest != [] && !Blank(rest[|rest| - 1])
    ensures StripRight(rest + right) == rest
  {
    if right == [] {
      assert rest + right == rest;
    } else {
      var n := |right| - 1;
      assert right[n] in right && (rest + right)[..|rest| + n] == rest + right[..n];
      StripsRight(rest, right[..n]);
    }
  }

  /** What a sealed record holds, byte by byte, once its texts are decoded. */
  lemma SealedBytes(c: Codec, mac: (Bytes, Bytes) -> Bytes, e: Expectation, rawKey: Bytes, nonce: Bytes)
    requires Mac32(mac) && Faithful(c) && SealRecord(c, mac, e, rawKey, nonce).Success?
    ensures var record, key := SealRecord(c, mac, e, rawKey, nonce).value, ParseKey(c, rawKey).value;
      && record.algorithm == "hmac-sha256-xor-v1" && c.unbase64(record.nonce) == Some(nonce)
      && c.unbase64(record.ciphertext).Some?
      && var plaintext, ciphertext := c.encode(e).value, c.unbase64(record.ciphertext).value;
      && |ciphertext| == |plaintext|
      && (forall i :: 0 <= i < |plaintext| ==>
            ciphertext[i] == XorByte(
              plaintext[i],
              mac(key, [115, 116, 114, 101, 97, 109, 0] + nonce + BigEndian(i / 32, 8))[i % 32]))
      && c.unbase64(record.tag) == Some(mac(key, [116, 97, 103, 0] + nonce + ciphertext))
      && c.unbase64(record.commitment) ==
           Some(mac(key, [99, 111, 109, 109, 105, 116, 109, 101, 110, 116, 0] + plaintext))
  {
    hide ParseKey, XorByte, BigEndian;
  }

  /** A record opens only under the tag of its nonce and ciphertext. */
  lemma OpenedIsAuthentic(c: Codec, mac: (Bytes, Bytes) -> Bytes, record: Record, rawKey: Bytes)
    requires Mac32(mac) && OpenRecord(c, mac, record, rawKey).Success?
    ensures ParseKey(c, rawKey).Some? && record.algorithm == "hmac-sha256-xor-v1"
    ensures c.unbase64(record.nonce).Some? && c.unbase64(record.ciphertext).Some?
    ensures c.unbase64(record.tag) == Some(mac(
      ParseKey(c, rawKey).value,
      [116, 97, 103, 0] + c.unbase64(record.nonce).value + c.unbase64(record.ciphertext).value))
  {
    hide ParseKey, Encipher;
  }

  /** Two records that open under one tag with nonces of one length hold the same ciphertext, or exhibit a collision. */
  lemma TagBinds(c: Codec, mac: (Bytes, Bytes) -> Bytes, a: Record, b: Record, rawKey: Bytes)
    requires Mac32(mac) && a.tag == b.tag
    requires OpenRecord(c, mac, a, rawKey).Success? && OpenRecord(c, mac, b, rawKey).Success?
    requires |c.unbase64(a.nonce).GetOr([])| == |c.unbase64(b.nonce).GetOr([])|
    ensures
      || (c.unbase64(a.nonce) == c.unbase64(b.nonce) && c.unbase64(a.ciphertext) == c.unbase64(b.ciphertext))
      || exists x, y :: Collision(mac, ParseKey(c, rawKey).value, x, y)
  {
    OpenedIsAuthentic(c, mac, a, rawKey);
    OpenedIsAuthentic(c, mac, b, rawKey);
    hide OpenRecord, ParseKey;
    var prefix: Bytes := [116, 97, 103, 0];
    var m, n := c.unbase64(a.nonce).value, c.unbase64(b.nonce).value;
    var x, y := c.unbase64(a.ciphertext).value, c.unbase64(b.ciphertext).value;
    if prefix + m + x == prefix + n + y {
      assert m == (prefix + m + x)[4..4 + |m|] && n == (prefix + n + y)[4..4 + |m|];
      assert x == (prefix + m + x)[4 + |m|..] && y == (prefix + n + y)[4 + |m|..];
    } else {
      assert Collision(mac, ParseKey(c, rawKey).value, prefix + m + x, prefix + n + y);
    }
  }
}
