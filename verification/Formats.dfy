/**
 The formats byte by byte, worked out by hand on examples: the orders, widths and constants on which two implementations
 would have to agree.
 */
module Formats {
  import opened Wrappers
  import opened Bytes
  import opened RatchetHeader
  import opened Ratchet
  import opened Identity
  import opened Merkle
  import opened KemHybrid
  import opened Wire
  import Prekey
  import TransLog
  import Session

  /** Numbers stand with their highest byte first. */
  lemma Numbers()
    ensures PutU32(0x01020304) == [1, 2, 3, 4] && PutU32(-1) == [255, 255, 255, 255]
    ensures PutU64(0x0102030405060708) == [1, 2, 3, 4, 5, 6, 7, 8]
  {
    PutU32Digits(0x01020304);
    PutU32Digits(-1);
    PutU32Digits(0x05060708);
  }

  lemma SmallNumber(n: int)
    requires 0 <= n < 0x1_0000
    ensures PutU32(n) == [0, 0, (n / 0x100) as byte, (n % 0x100) as byte]
  {
    PutU32Digits(n);
  }

  /** Peer key, pn, n, advertised key, ciphertext. */
  lemma {:induction false} HeaderBytes()
    ensures Header([7, 8], 1, 2, None, Some([9])).Marshal()
         == [0, 0, 0, 2, 7, 8, 0, 0, 0, 1, 0, 0, 0, 2, 0, 0, 0, 0, 0, 0, 0, 1, 9]
  {
    SmallNumber(2);
    SmallNumber(1);
    SmallNumber(0);
    hide PutU32;
  }

  /** The associated data comes first, then the header. */
  lemma {:induction false} AssociatedDataBytes(hdr: Header)
    ensures AdWithHeader(hdr, [5]) == [5] + hdr.Marshal()
    ensures AdWithHeader(hdr, [5])[0] == 5
  {
  }

  /** A tag, the prefixed header, the prefixed box. */
  lemma {:induction false} SubsequentBytes(hdr: Header)
    requires |hdr.Marshal()| == 300
    ensures Subsequent(SubsequentMessage(hdr, [6])).Marshal()
            == [2] + [0, 0, 1, 44] + hdr.Marshal() + ([0, 0, 0, 1] + [6])
  {
    hide PutU32, PutField, Header.Marshal;
    FieldBytes(hdr.Marshal());
    FieldBytes([6]);
    Tagged(PutField(hdr.Marshal()), [0, 0, 1, 44], hdr.Marshal(), PutField([6]));
  }

  lemma Tagged(field: bytes, length: bytes, data: bytes, rest: bytes)
    requires field == length + data
    ensures [2] + (field + rest) == [2] + length + data + rest
  {
  }

  /** A tag, the prefixed identity, the prefixed KEM ciphertext, the slot, the flag, and a subsequent message's body. */
  lemma {:induction false} InitialBytes(m: InitialMessage)
    requires m.prekeyIndex == 258 && |m.kemCiphertext.mlkem| == 1088 && m.isLastResort
    ensures Initial(m).Marshal() == [1] + (IdentityField(m) + (KemField(m) + ([0, 0, 1, 2] + ([1] + Body(m)))))
  {
    hide *;
    IdentityFieldIs(m);
    KemFieldIs(m);
    SmallNumber(258);
    Assembled(m, IdentityField(m), KemField(m), [0, 0, 1, 2], Body(m));
  }

  lemma Assembled(m: InitialMessage, identity: bytes, kem: bytes, index: bytes, body: bytes)
    requires PutField(m.senderIdentity.Marshal()) == identity && PutField(m.kemCiphertext.Marshal()) == kem
    requires PutU32(m.prekeyIndex) == index && Body(m) == body && m.isLastResort
    ensures Initial(m).Marshal() == [1] + (identity + (kem + (index + ([1] + body))))
  {
    hide PutU32, PutField, SubsequentMessage.Marshal, RawPublicKey.Marshal, RawKemCiphertext.Marshal;
    assert m.Rest() == SubsequentMessage(m.header, m.ciphertext);
    assert [m.Flag()] == [1];
  }

  lemma IdentityFieldIs(m: InitialMessage)
    ensures PutField(m.senderIdentity.Marshal()) == IdentityField(m)
  {
    FieldBytes(m.senderIdentity.Marshal());
    hide PutField;
  }

  lemma KemFieldIs(m: InitialMessage)
    requires |m.kemCiphertext.mlkem| == 1088
    ensures PutField(m.kemCiphertext.Marshal()) == KemField(m)
  {
    FieldBytes(m.kemCiphertext.Marshal());
    hide PutField;
  }

  function IdentityField(m: InitialMessage): bytes {
    [0, 0, 7, 192] + (m.senderIdentity.ed25519 + m.senderIdentity.mldsa)
  }

  function KemField(m: InitialMessage): bytes {
    [0, 0, 4, 96] + (m.kemCiphertext.ephemeral + m.kemCiphertext.mlkem)
  }

  function Body(m: InitialMessage): bytes {
    SubsequentMessage(m.header, m.ciphertext).Marshal()
  }

  lemma FieldBytes(data: bytes)
    requires |data| < 0x1_0000
    ensures PutField(data) == [0, 0, (|data| / 0x100) as byte, (|data| % 0x100) as byte] + data
  {
    SmallNumber(|data|);
    hide PutU32;
  }

  /** Prekey leaves, last-resort messages and what is signed for them. */
  lemma {:induction false} PrekeyBytes(pub: bytes)
    ensures Prekey.LeafData(pub, 258) == pub + [0, 0, 1, 2]
    ensures Prekey.LastResortMessage(pub) == Ascii("pqchat-v1-last-resort-prekey") + pub
  {
    SmallNumber(258);
    hide PutU32;
  }

  /** Log leaves and what is signed for a tree head. */
  lemma {:induction false} LogBytes(k: PublicKey, root: Hash, now: int)
    ensures TransLog.LeafData(TransLog.Entry(258, [97, 98], k, now))
            == [0, 0, 0, 2, 97, 98, 0, 0, 1, 2] + k.ed25519 + k.mldsa
    ensures TransLog.SigningBytes(258, root, 772) == [0, 0, 1, 2] + root.raw + [0, 0, 0, 0, 0, 0, 3, 4]
  {
    SmallNumber(2);
    SmallNumber(258);
    SmallNumber(772);
    SmallNumber(0);
    hide PutU32;
  }

  /** Transcripts: the initiator, the responder, and the slot or the key. */
  lemma {:induction false} TranscriptBytes(a: PublicKey, b: PublicKey, bundle: Prekey.Bundle, lr: Prekey.LastResort)
    requires bundle.index == 258
    ensures Session.BuildTranscript(a, b, bundle)
         == a.ed25519 + a.mldsa + b.ed25519 + b.mldsa + bundle.root.raw + [0, 0, 1, 2]
    ensures Session.BuildLastResortTranscript(a, b, lr) == a.ed25519 + a.mldsa + b.ed25519 + b.mldsa + lr.publicKey
  {
    SmallNumber(258);
    hide PutU32;
  }

  /** What the tree hashes. */
  lemma {:induction false} TreeBytes(l: Hash, r: Hash)
    ensures LeafInput([7]) == [0, 7]
    ensures NodeInput(l, r)[..33] == [1] + l.raw && NodeInput(l, r)[33..] == r.raw
    ensures PaddingLeaf("translog", 12) == Ascii("pqchat-merkle-padding-leaf-translog-12")
  {
    assert Decimal(12) == Decimal(1) + [50];
  }
}
