/** Everything that an identity key signs (crypto/prekey/prekey.go, translog/sth.go). */
module SignedMessages {
  import opened Bytes
  import opened Identity
  import opened Merkle
  import opened KemHybrid
  import opened Prekey
  import opened TransLog

  /**
   The three things an identity key signs, batch roots, tree heads and last-resort keys of the right size, are never
   the same bytes, so no signature on one of them passes for another.
   */
  lemma {:induction false} SignaturesNotConfused(root: Hash, size: int, head: Hash, time: int, publicKey: bytes)
    requires |publicKey| == PUBLIC_KEY_SIZE
    ensures root.raw != SigningBytes(size, head, time)
    ensures root.raw != LastResortMessage(publicKey)
    ensures SigningBytes(size, head, time) != LastResortMessage(publicKey)
  {
    assert |SigningBytes(size, head, time)| == HASH_SIZE + 12;
    assert |LastResortMessage(publicKey)| > PUBLIC_KEY_SIZE;
  }

  /**
   The root of an issued batch is never the root of a log, whatever the two hold, unless a collision of the hash is at
   hand; so no signature on the one vouches for the other's leaves.
   */
  lemma {:induction false} BatchRootIsNoLogRoot(h: HashFn, issuer: PublicKey, b: Batch, entries: seq<Entry>)
    requires b.IssuedBy(h, issuer) && b.root == EntriesRoot(h, entries)
    ensures Collision(h,
                      RootClash(h, Prekey.MERKLE_DOMAIN, BatchLeaves(b.pubBytes), TransLog.MERKLE_DOMAIN,
                                Leaves(entries)))
  {
    hide TreeRoot, RootClash, Collision, PaddingLeaf, Padded, PutU32;
    var la, lb := BatchLeaves(b.pubBytes), Leaves(entries);
    assert la[0] == Prekey.LeafData(b.pubBytes[0], 0);
    FirstLeaves(b.pubBytes[0], entries);
    RootBinding(h, Prekey.MERKLE_DOMAIN, la, TransLog.MERKLE_DOMAIN, lb);
    if Padded(Prekey.MERKLE_DOMAIN, la) == Padded(TransLog.MERKLE_DOMAIN, lb) {
      PaddedAt(Prekey.MERKLE_DOMAIN, la, 0);
      PaddedAt(TransLog.MERKLE_DOMAIN, lb, 0);
    }
  }

  /** A prekey's leaf is neither a registration nor padding of the log. */
  lemma FirstLeaves(pubBytes: bytes, entries: seq<Entry>)
    requires |pubBytes| == PUBLIC_KEY_SIZE
    ensures Prekey.LeafData(pubBytes, 0) != PaddedLeaf(TransLog.MERKLE_DOMAIN, Leaves(entries), 0)
  {
    hide PutU32;
    if entries != [] { assert |TransLog.LeafData(entries[0])| >= 8 + MARSHALLED_SIZE; }
    assert |PaddingLeaf(TransLog.MERKLE_DOMAIN, 0)| <= 100;
  }
}
