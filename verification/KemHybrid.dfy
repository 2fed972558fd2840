/**
 The hybrid KEM that establishes sessions (crypto/kemhybrid/hybrid.go): X25519 and ML-KEM-768 side by side, with the
 handshake transcript mixed into the derived key.
 */
module KemHybrid {
  import opened Wrappers
  import opened Bytes
  import opened Symbolic
  import opened Ratchet
  import opened KeyChecks

  const PUBLIC_KEY_SIZE := X25519_SIZE + MLKEM_PUBLIC_SIZE
  const CIPHERTEXT_SIZE := X25519_SIZE + MLKEM_CIPHERTEXT_SIZE

  datatype RawKemKey = RawKemKey(x25519: bytes, mlkem: bytes) {
    function Marshal(): bytes {
      x25519 + mlkem
    }
  }

  /** A public key as parsed. */
  type KemKey = k: RawKemKey | |k.x25519| == X25519_SIZE && |k.mlkem| == MLKEM_PUBLIC_SIZE && Normalised(k.mlkem)
    witness RawKemKey(BasePoint(), seq(MLKEM_PUBLIC_SIZE, _ => 0))

  /** A public key as generated, and also the name of the private key that belongs to it. */
  type KeyPair = k: KemKey | !LowOrder(k.x25519)
    witness RawKemKey(BasePoint(), seq(MLKEM_PUBLIC_SIZE, _ => 0))

  datatype RawKemCiphertext = RawKemCiphertext(ephemeral: bytes, mlkem: bytes) {
    function Marshal(): bytes {
      ephemeral + mlkem
    }
  }

  /** The ephemeral key is a parsed X25519 key; the ML-KEM part is a slice of any length. */
  type KemCiphertext = c: RawKemCiphertext | |c.ephemeral| == X25519_SIZE
    witness RawKemCiphertext(seq(X25519_SIZE, _ => 0), [])

  function UnmarshalPublicKey(buf: bytes): Result<KemKey, CodecError> {
    if |buf| != PUBLIC_KEY_SIZE then Failure(BadLength)
    else if !Normalised(buf[X25519_SIZE..]) then Failure(NotNormalised)
    else Success(RawKemKey(buf[..X25519_SIZE], buf[X25519_SIZE..]))
  }

  function UnmarshalCiphertext(buf: bytes): Result<KemCiphertext, CodecError> {
    if |buf| != CIPHERTEXT_SIZE then Failure(BadLength)
    else Success(RawKemCiphertext(buf[..X25519_SIZE], buf[X25519_SIZE..]))
  }

  /** Public keys and their encodings correspond one to one. */
  lemma {:induction false} PublicKeyCodec(k: KemKey, buf: bytes)
    ensures UnmarshalPublicKey(buf) == Success(k) <==> k.Marshal() == buf
  {
    if k.Marshal() == buf {
      assert buf[..X25519_SIZE] == k.x25519 && buf[X25519_SIZE..] == k.mlkem;
    }
    if UnmarshalPublicKey(buf) == Success(k) {
      assert buf == buf[..X25519_SIZE] + buf[X25519_SIZE..];
    }
  }

  /** So do ciphertexts whose ML-KEM part has the algorithm's size and their encodings. */
  lemma {:induction false} CiphertextCodec(c: KemCiphertext, buf: bytes)
    ensures UnmarshalCiphertext(buf) == Success(c) <==> c.Marshal() == buf && |c.mlkem| == MLKEM_CIPHERTEXT_SIZE
  {
    if c.Marshal() == buf && |c.mlkem| == MLKEM_CIPHERTEXT_SIZE {
      assert buf[..X25519_SIZE] == c.ephemeral && buf[X25519_SIZE..] == c.mlkem;
    }
    if UnmarshalCiphertext(buf) == Success(c) {
      assert buf == buf[..X25519_SIZE] + buf[X25519_SIZE..];
    }
  }

  /** What one encapsulation draws: an ephemeral X25519 key, by its public half, and an ML-KEM ciphertext. */
  datatype RawDraw = RawDraw(ephemeral: bytes, mlkemCt: bytes)

  type Draw = d: RawDraw | |d.ephemeral| == X25519_SIZE && !LowOrder(d.ephemeral)
    && |d.mlkemCt| == MLKEM_CIPHERTEXT_SIZE
    witness RawDraw(BasePoint(), seq(MLKEM_CIPHERTEXT_SIZE, _ => 0))

  datatype KemError =
    | EncapsulationRefused    // ECDH refuses the public key
    | DecapsulationFailed

  /** The encapsulation to a key that ECDH accepts. */
  function Encapsulated(pub: KeyPair, transcript: bytes, d: Draw): (KemCiphertext, Key) {
    (RawKemCiphertext(d.ephemeral, d.mlkemCt),
     Session(Dh(d.ephemeral, pub.x25519), KemSecret(pub.mlkem, d.mlkemCt), transcript))
  }

  function Encapsulate(pub: KemKey, transcript: bytes, d: Draw): Result<(KemCiphertext, Key), KemError> {
    if LowOrder(pub.x25519) then Failure(EncapsulationRefused) else Success(Encapsulated(pub, transcript, d))
  }

  function Decapsulate(priv: KeyPair, ct: KemCiphertext, transcript: bytes): Result<Key, KemError> {
    if |ct.mlkem| != MLKEM_CIPHERTEXT_SIZE then Failure(DecapsulationFailed)
    else if LowOrder(ct.ephemeral) then Failure(DecapsulationFailed)
    else Success(Session(Dh(priv.x25519, ct.ephemeral), KemSecret(priv.mlkem, ct.mlkem), transcript))
  }

  /**
   Encapsulation fails exactly for keys that ECDH refuses. Decapsulation never fails on an honest ciphertext, and yields
   the initiator's key for its addressee and transcript only.
   */
  lemma {:induction false} KeysAgreeExactly(pub: KemKey, transcript: bytes, d: Draw, priv: KeyPair, transcript': bytes)
    ensures Encapsulate(pub, transcript, d).Failure? <==> LowOrder(pub.x25519)
    ensures Encapsulate(pub, transcript, d).Success? ==>
              var (ct, key) := Encapsulate(pub, transcript, d).value;
              && Decapsulate(priv, ct, transcript').Success?
              && (Decapsulate(priv, ct, transcript') == Success(key) <==> priv == pub && transcript' == transcript)
  {
    hide LowOrder;
    if Encapsulate(pub, transcript, d).Success? {
      var (ct, key) := Encapsulate(pub, transcript, d).value;
      assert Dh(d.ephemeral, pub.x25519) == Dh(pub.x25519, d.ephemeral);
      if Decapsulate(priv, ct, transcript') == Success(key) {
        DhAgrees(d.ephemeral, pub.x25519, priv.x25519);
      }
    }
  }

  /** Decapsulation fails exactly for a ciphertext of the wrong size or an ephemeral key that ECDH refuses. */
  lemma {:induction false} DecapsulationFailsExactly(priv: KeyPair, ct: KemCiphertext, transcript: bytes)
    ensures Decapsulate(priv, ct, transcript).Failure? <==> |ct.Marshal()| != CIPHERTEXT_SIZE || LowOrder(ct.ephemeral)
  {
    hide LowOrder;
  }

  /** An exchange with one fixed end determines the other. */
  lemma DhAgrees(e: bytes, a: bytes, b: bytes)
    requires Dh(e, a) == Dh(b, e)
    ensures a == b
  {
    assert a in {b, e} by { assert a in {e, a}; }
    assert b in {e, a} by { assert b in {b, e}; }
  }
}
