/** Hybrid identities (crypto/identity/identity.go): a signature is valid when both of its components are. */
module Identity {
  import opened Bytes

  const ED25519_SIZE := 32
  const MLDSA_SIZE := 1952

  datatype RawPublicKey = RawPublicKey(ed25519: bytes, mldsa: bytes) {
    function Marshal(): bytes {
      ed25519 + mldsa
    }
  }

  /** Keys as generated or unmarshalled: both components have their algorithm's size. */
  type PublicKey = k: RawPublicKey | |k.ed25519| == ED25519_SIZE && |k.mldsa| == MLDSA_SIZE
    witness RawPublicKey(seq(ED25519_SIZE, _ => 0), seq(MLDSA_SIZE, _ => 0))

  const MARSHALLED_SIZE := ED25519_SIZE + MLDSA_SIZE

  /** What each component was made with and over. */
  datatype Signature = Signature(edSigner: bytes, edMessage: bytes, mldsaSigner: bytes, mldsaMessage: bytes)

  function Sign(signer: PublicKey, msg: bytes): Signature {
    Signature(signer.ed25519, msg, signer.mldsa, msg)
  }

  predicate Verify(pub: PublicKey, msg: bytes, sig: Signature) {
    sig.edSigner == pub.ed25519 && sig.edMessage == msg && sig.mldsaSigner == pub.mldsa && sig.mldsaMessage == msg
  }

  lemma {:induction false} MarshalInjective(a: PublicKey, b: PublicKey)
    requires a.Marshal() == b.Marshal()
    ensures a == b
  {
    ConcatInjective(a.ed25519, a.mldsa, b.ed25519, b.mldsa);
  }
}
