/**
 End-to-end encryption of a relayed stream: the handshake, the two directional
 session keys, and the counter-nonce sealer and opener. The key exchange, the
 key derivation and the AEAD are parameters; what is assumed of them is stated
 where it is used (section 6.1 of RFC 7748, section 2 of RFC 5869 and section
 2.8 of RFC 8439).
 */
module E2e {
  import opened Common

  type Key = Bytes
  type Secret = Bytes

  const HANDSHAKE_MAGIC: Bytes := [0x41, 0x50, 0x45, 0x31]
  const HANDSHAKE_LEN: nat := 36
  const I2R: string := "aperio-e2e-v1 initiator->responder"
  const R2I: string := "aperio-e2e-v1 responder->initiator"

  datatype Role = Initiator | Responder

  /** The libraries the handshake and the session are built from. */
  datatype Crypto = Crypto(
    publicKey: Secret -> Bytes,
    agree: (Secret, Bytes) -> Bytes,
    derive: (Bytes, Bytes, string) -> Key,
    seal: (Key, Bytes, Bytes) -> Option<Bytes>,
    open: (Key, Bytes, Bytes) -> Option<Bytes>)

  /** Public keys are 32 bytes and the exchange commutes. */
  ghost predicate Exchanges(c: Crypto) {
    && (forall a :: |c.publicKey(a)| == 32)
    && (forall a, b :: c.agree(a, c.publicKey(b)) == c.agree(b, c.publicKey(a)))
  }

  /** What was sealed opens, under the same key and nonce, to what was sealed. */
  ghost predicate Opens(c: Crypto) {
    forall k, n, p :: c.seal(k, n, p).Some? ==> c.open(k, n, c.seal(k, n, p).value) == Some(p)
  }

  /** Keys derived under the two labels never coincide. */
  ghost predicate LabelsApart(c: Crypto) {
    forall psk, psk', shared, shared' :: c.derive(psk, shared, I2R) != c.derive(psk', shared', R2I)
  }

  // ---- The handshake ---------------------------------------------------------------

  datatype Session = Session(sendKey: Key, recvKey: Key)

  function HandshakeFrame(c: Crypto, secret: Secret): Bytes {
    HANDSHAKE_MAGIC + c.publicKey(secret)
  }

  /** `Handshake::complete`; `psk` is the pre-shared key's bytes, empty when there is none. */
  function Complete(c: Crypto, role: Role, secret: Secret, psk: Bytes, peer: Bytes): Option<Session> {
    if |peer| != HANDSHAKE_LEN || peer[..4] != HANDSHAKE_MAGIC then None
    else
      var shared := c.agree(secret, peer[4..]);
      var i2r := c.derive(psk, shared, I2R);
      var r2i := c.derive(psk, shared, R2I);
      match role
      case Initiator => Some(Session(i2r, r2i))
      case Responder => Some(Session(r2i, i2r))
  }

  /** A frame is refused exactly when it is not 36 bytes or does not open with the four magic ones. */
  lemma RefusedExactlyWhen(c: Crypto, role: Role, secret: Secret, psk: Bytes, peer: Bytes)
    ensures Complete(c, role, secret, psk, peer).None?
       <==> |peer| != 36 || !(peer[0] == 0x41 && peer[1] == 0x50 && peer[2] == 0x45 && peer[3] == 0x31)
  {
    if |peer| == 36 {
      assert peer[..4] == [peer[0], peer[1], peer[2], peer[3]];
    }
  }

  /**
   Two ends that swap frames under one pre-shared key end up with crossed keys,
   derived from the secret they agreed on under that key and their direction's label.
   */
  lemma KeysCross(c: Crypto, a: Secret, b: Secret, psk: Bytes)
    requires Exchanges(c)
    ensures var i := Complete(c, Initiator, a, psk, HandshakeFrame(c, b));
            var r := Complete(c, Responder, b, psk, HandshakeFrame(c, a));
            var shared := c.agree(a, c.publicKey(b));
            && i.Some? && r.Some? && i.value.sendKey == r.value.recvKey && i.value.recvKey == r.value.sendKey
            && i.value.sendKey == c.derive(psk, shared, "aperio-e2e-v1 initiator->responder")
            && r.value.sendKey == c.derive(psk, shared, "aperio-e2e-v1 responder->initiator")
  {
    assert HandshakeFrame(c, a)[..4] == HANDSHAKE_MAGIC && HandshakeFrame(c, a)[4..] == c.publicKey(a);
    assert HandshakeFrame(c, b)[..4] == HANDSHAKE_MAGIC && HandshakeFrame(c, b)[4..] == c.publicKey(b);
  }

  /** Whatever frames each end was handed, its two keys differ, and no two ends send under one. */
  lemma DirectionsApart(c: Crypto, a: Secret, b: Secret, pskI: Bytes, pskR: Bytes, toI: Bytes, toR: Bytes)
    requires LabelsApart(c)
    requires Complete(c, Initiator, a, pskI, toI).Some? && Complete(c, Responder, b, pskR, toR).Some?
    ensures var i := Complete(c, Initiator, a, pskI, toI).value;
            var r := Complete(c, Responder, b, pskR, toR).value;
            i.sendKey != r.sendKey && i.sendKey != i.recvKey && r.sendKey != r.recvKey
  {
    var si, sr := c.agree(a, toI[4..]), c.agree(b, toR[4..]);
    assert c.derive(pskI, si, I2R) != c.derive(pskI, si, R2I);
    assert c.derive(pskR, sr, I2R) != c.derive(pskR, sr, R2I);
    assert c.derive(pskI, si, I2R) != c.derive(pskR, sr, R2I);
  }

  /** Under these two pre-shared keys no derived key is ever the same. */
  ghost predicate PsksApart(c: Crypto, pskI: Bytes, pskR: Bytes) {
    forall s, s', name :: c.derive(pskI, s, name) != c.derive(pskR, s', name)
  }

  /** Ends with different pre-shared keys never share one, whatever frames they were handed. */
  lemma WrongPskMismatches(c: Crypto, a: Secret, b: Secret, pskI: Bytes, pskR: Bytes, toI: Bytes, toR: Bytes)
    requires PsksApart(c, pskI, pskR)
    requires Complete(c, Initiator, a, pskI, toI).Some? && Complete(c, Responder, b, pskR, toR).Some?
    ensures var i := Complete(c, Initiator, a, pskI, toI).value;
            var r := Complete(c, Responder, b, pskR, toR).value;
            i.sendKey != r.recvKey && i.recvKey != r.sendKey
  {
    var si, sr := c.agree(a, toI[4..]), c.agree(b, toR[4..]);
    assert c.derive(pskI, si, I2R) != c.derive(pskR, sr, I2R);
    assert c.derive(pskI, si, R2I) != c.derive(pskR, sr, R2I);
  }

  // ---- Nonces -----------------------------------------------------------------------

  function LittleEndian(n: nat, width: nat): Bytes {
    if width == 0 then [] else [n % 256] + LittleEndian(n / 256, width - 1)
  }

  function FromLittleEndian(bs: Bytes): nat {
    if bs == [] then 0 else bs[0] as int + 256 * FromLittleEndian(bs[1..])
  }

  function Pow256(k: nat): (p: nat)
    ensures p >= 1
  {
    if k == 0 then 1 else 256 * Pow256(k - 1)
  }

  lemma {:induction false} LittleEndianRoundTrip(n: nat, width: nat)
    requires n < Pow256(width)
    ensures |LittleEndian(n, width)| == width && FromLittleEndian(LittleEndian(n, width)) == n
  {
    if width > 0 {
      assert n / 256 < Pow256(width - 1);
      LittleEndianRoundTrip(n / 256, width - 1);
      assert LittleEndian(n, width)[1..] == LittleEndian(n / 256, width - 1);
    }
  }

  /** `counter_nonce`: eight counter bytes, little-endian, and four zeros. */
  function CounterNonce(counter: nat): Bytes {
    LittleEndian(counter, 8) + [0, 0, 0, 0]
  }

  /** Different 64-bit counters give different 96-bit nonces. */
  lemma NoncesDiffer(i: nat, j: nat)
    requires i < U64 && j < U64
    ensures |CounterNonce(i)| == 12
    ensures FromLittleEndian(CounterNonce(i)[..8]) == i && CounterNonce(i)[8..] == [0, 0, 0, 0]
    ensures CounterNonce(i) == CounterNonce(j) <==> i == j
  {
    assert Pow256(8) == 256 * Pow256(7) && Pow256(7) == 256 * Pow256(6) && Pow256(6) == 256 * Pow256(5);
    assert Pow256(5) == 256 * Pow256(4) && Pow256(4) == 256 * Pow256(3) && Pow256(3) == 256 * Pow256(2);
    assert Pow256(2) == 65536;
    LittleEndianRoundTrip(i, 8);
    LittleEndianRoundTrip(j, 8);
    assert CounterNonce(i)[..8] == LittleEndian(i, 8) && CounterNonce(j)[..8] == LittleEndian(j, 8);
  }

  // ---- The two halves of a session ------------------------------------------------------

  /** The sending half. The nonce of the last counter value is never used. */
  class Sealer {
    const crypto: Crypto
    const key: Key
    var counter: nat

    constructor (crypto: Crypto, key: Key)
      ensures this.crypto == crypto && this.key == key && counter == 0
    {
      this.crypto := crypto;
      this.key := key;
      counter := 0;
    }

    /** `seal`: one nonce per call, and a refusal for ever at the counter's end. */
    method Seal(plaintext: Bytes) returns (r: Option<Bytes>)
      requires counter < U64
      modifies this
      ensures counter == NextCounter(old(counter))
      ensures r == SealAt(crypto, key, old(counter), plaintext)
      ensures old(counter) < U64 - 1 ==> counter == old(counter) + 1
      ensures old(counter) == U64 - 1 ==> r == None && counter == U64 - 1
    {
      var nonce := CounterNonce(counter);
      if counter + 1 == U64 {
        return None;
      }
      counter := counter + 1;
      r := crypto.seal(key, nonce, plaintext);
    }
  }

  /** The receiving half. */
  class Opener {
    const crypto: Crypto
    const key: Key
    var counter: nat

    constructor (crypto: Crypto, key: Key)
      ensures this.crypto == crypto && this.key == key && counter == 0
    {
      this.crypto := crypto;
      this.key := key;
      counter := 0;
    }

    /** `open`: one nonce per call, spent whether or not the frame opens. */
    method Open(ciphertext: Bytes) returns (r: Option<Bytes>)
      requires counter < U64
      modifies this
      ensures counter == NextCounter(old(counter))
      ensures r == OpenAt(crypto, key, old(counter), ciphertext)
      ensures old(counter) < U64 - 1 ==> counter == old(counter) + 1
      ensures old(counter) == U64 - 1 ==> r == None && counter == U64 - 1
    {
      var nonce := CounterNonce(counter);
      if counter + 1 == U64 {
        return None;
      }
      counter := counter + 1;
      r := crypto.open(key, nonce, ciphertext);
    }
  }

  /** `checked_add(1)`: the counter stays put at its end. */
  function NextCounter(counter: nat): nat {
    if counter + 1 >= U64 then counter else counter + 1
  }

  function SealAt(c: Crypto, key: Key, counter: nat, plaintext: Bytes): Option<Bytes> {
    if counter + 1 >= U64 then None else c.seal(key, CounterNonce(counter), plaintext)
  }

  function OpenAt(c: Crypto, key: Key, counter: nat, ciphertext: Bytes): Option<Bytes> {
    if counter + 1 >= U64 then None else c.open(key, CounterNonce(counter), ciphertext)
  }
}
