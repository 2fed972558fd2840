/**
 The cryptography of the ratchet as terms (crypto/ratchet/kdf.go, aead.go; crypto/kemhybrid's combiner).

 A private key is named by its public key, so both ends of a Diffie-Hellman exchange compute the same unordered pair;
 an ML-KEM secret is determined by the public key it was made for and the ciphertext. Key derivation is a free
 constructor: two derivations agree exactly when all their inputs do.
 */
module Symbolic {
  import opened Wrappers
  import opened Bytes

  datatype DhSecret = DhSecret(ends: set<bytes>)

  datatype KemSecret = KemSecret(pub: bytes, ct: bytes)

  datatype Key =
    | Nil                                                             // Go's nil slice: no such chain yet
    | Session(dh: DhSecret, kem: KemSecret, transcript: bytes)        // the hybrid handshake's session key
    | RootOf(salt: Key, dh: DhSecret, inject: Option<KemSecret>)      // first half of rootKDF's output
    | ChainOf(salt: Key, dh: DhSecret, inject: Option<KemSecret>)     // second half of rootKDF's output
    | NextOf(chain: Key)                                              // HMAC(ck, 0x02)
    | MsgOf(chain: Key)                                               // HMAC(ck, 0x01)

  /** X25519: the holder of `self`'s private key against the public key `remote`. */
  function Dh(self: bytes, remote: bytes): DhSecret {
    DhSecret({self, remote})
  }

  /** The n-fold application of HMAC(., 0x02). */
  function Iter(ck: Key, n: nat): Key {
    if n == 0 then ck else NextOf(Iter(ck, n - 1))
  }

  /** A ChaCha20-Poly1305 box under the all-zero nonce. */
  datatype Sealed = Sealed(key: Key, ad: bytes, plaintext: bytes)

  function Open(key: Key, box: Sealed, ad: bytes): Option<bytes> {
    if box.key == key && box.ad == ad then Some(box.plaintext) else None
  }

  lemma {:induction false} IterAdd(ck: Key, m: nat, n: nat)
    ensures Iter(Iter(ck, m), n) == Iter(ck, m + n)
  {
    if n == 0 {
    } else {
      IterAdd(ck, m, n - 1);
    }
  }

  /** How many derivations a term is deep along the key that is being ratcheted. */
  function Depth(k: Key): nat {
    match k
    case Nil => 0
    case Session(_, _, _) => 0
    case RootOf(s, _, _) => 1 + Depth(s)
    case ChainOf(s, _, _) => 1 + Depth(s)
    case NextOf(c) => 1 + Depth(c)
    case MsgOf(c) => 1 + Depth(c)
  }

  /** Two chains that start at rootKDF outputs meet only if they start at the same output, at the same position. */
  lemma {:induction false} IterInjective(a: Key, m: nat, b: Key, n: nat)
    requires a.ChainOf? && b.ChainOf?
    ensures Iter(a, m) == Iter(b, n) <==> a == b && m == n
  {
    if m == 0 || n == 0 {
    } else {
      IterInjective(a, m - 1, b, n - 1);
    }
  }
}
