/**
 Signed prekeys (crypto/prekey/prekey.go): batches of one-time keys under a signed Merkle root, and the last-resort key.
 */
module Prekey {
  import opened Wrappers
  import opened Bytes
  import opened Identity
  import opened KemHybrid
  import opened Merkle
  import opened KeyChecks

  const MERKLE_DOMAIN := "prekey-batch"
  const LAST_RESORT_TAG := "pqchat-v1-last-resort-prekey"

  datatype PrekeyError = BatchSizeNotPositive | IndexOutOfRange | SignatureInvalid | InvalidInclusionProof

  function LeafData(pubBytes: bytes, index: int): bytes {
    pubBytes + PutU32(index)
  }

  datatype Bundle = Bundle(
    publicKey: bytes,
    index: int,
    batchSize: int,
    proof: seq<Hash>,
    root: Hash,
    rootSignature: Signature
  )

  /** The private keys are named by their public halves. */
  datatype Batch = Batch(privates: seq<KeyPair>, pubBytes: seq<bytes>, tree: Tree, root: Hash, rootSig: Signature) {
    /** A batch that `issuer` generated. */
    ghost predicate IssuedBy(h: HashFn, issuer: PublicKey) {
      && 0 < |privates|
      && |pubBytes| == |privates| && (forall i :: 0 <= i < |privates| ==> pubBytes[i] == privates[i].Marshal())
      && tree.Of(h, MERKLE_DOMAIN, BatchLeaves(pubBytes))
      && root == TreeRoot(h, MERKLE_DOMAIN, BatchLeaves(pubBytes))
      && rootSig == Sign(issuer, root.raw)
    }
  }

  function BatchLeaves(pubBytes: seq<bytes>): (leaves: seq<bytes>)
    ensures |leaves| == |pubBytes|
  {
    seq(|pubBytes|, i requires 0 <= i < |pubBytes| => LeafData(pubBytes[i], i))
  }

  /** GenerateBatch's loop; draw(i) is the i-th key pair that the generator yields. */
  method DrawKeys(size: nat, draw: nat -> KeyPair)
    returns (keys: seq<KeyPair>, pubBytes: seq<bytes>, leaves: seq<bytes>)
    ensures keys == seq(size, i requires 0 <= i => draw(i))
    ensures |pubBytes| == size && (forall i :: 0 <= i < size ==> pubBytes[i] == keys[i].Marshal())
    ensures leaves == BatchLeaves(pubBytes)
  {
    hide LeafData, RawKemKey.Marshal, LowOrder, Normalised;
    var privates := new KeyPair[size](_ => draw(0));
    var pubs, data := new bytes[size](_ => []), new bytes[size](_ => []);
    for i := 0 to size
      invariant forall k {:trigger privates[k]} :: 0 <= k < i ==> privates[k] == draw(k)
      invariant forall k {:trigger pubs[k]} :: 0 <= k < i ==> pubs[k] == draw(k).Marshal()
      invariant forall k {:trigger data[k]} :: 0 <= k < i ==> data[k] == LeafData(draw(k).Marshal(), k)
    {
      var priv := draw(i);
      var pub := priv.Marshal();
      privates[i], pubs[i], data[i] := priv, pub, LeafData(pub, i);
    }
    keys, pubBytes, leaves := privates[..], pubs[..], data[..];
  }

  method GenerateBatch(h: HashFn, id: PublicKey, size: int, draw: nat -> KeyPair)
    returns (r: Result<Batch, PrekeyError>)
    requires size <= MAX_LEAVES
    ensures size <= 0 ==> r == Failure(BatchSizeNotPositive)
    ensures size > 0 ==> r.Success? && r.value.IssuedBy(h, id)
    ensures size > 0 ==> r.value.privates == seq(size, i requires 0 <= i => draw(i))
  {
    if size <= 0 {
      return Failure(BatchSizeNotPositive);
    }
    hide LeafData, RawKemKey.Marshal, Tree.Of, TreeRoot, Sign;
    var privates, pubBytes, leaves := DrawKeys(size, draw);
    var tree := BuildTree(h, MERKLE_DOMAIN, leaves);
    RootIsRoot(h, MERKLE_DOMAIN, leaves, tree);
    r := Success(Batch(privates, pubBytes, tree, tree.Root(), Sign(id, tree.Root().raw)));
  }

  /** The bundle of the batch's key at an index. */
  ghost function HonestBundle(h: HashFn, b: Batch, index: nat): Bundle
    requires index < |b.pubBytes|
  {
    DepthIsCeilLog2(|b.pubBytes|);
    Bundle(b.pubBytes[index], index, |b.privates|,
           AuditPath(h, Base(h, MERKLE_DOMAIN, BatchLeaves(b.pubBytes)), Depth(|b.pubBytes|), index), b.root, b.rootSig)
  }

  /** Batch.Bundle. */
  method BundleAt(h: HashFn, ghost issuer: PublicKey, b: Batch, index: int) returns (r: Result<Bundle, PrekeyError>)
    requires b.IssuedBy(h, issuer)
    ensures !(0 <= index < |b.privates|) ==> r == Failure(IndexOutOfRange)
    ensures 0 <= index < |b.privates| ==> r == Success(HonestBundle(h, b, index))
  {
    if index < 0 || index >= |b.privates| {
      return Failure(IndexOutOfRange);
    }
    var proof := InclusionProof(h, MERKLE_DOMAIN, BatchLeaves(b.pubBytes), b.tree, index);
    r := Success(Bundle(b.pubBytes[index], index, |b.privates|, proof.value, b.root, b.rootSig));
  }

  /** What is wrong with the bundle, if anything. */
  function VerifyBundle(h: HashFn, issuer: PublicKey, bundle: Bundle): Option<PrekeyError> {
    if !Verify(issuer, bundle.root.raw, bundle.rootSignature) then Some(SignatureInvalid)
    else if !Accepts(h, LeafData(bundle.publicKey, bundle.index), bundle.index, bundle.batchSize, bundle.proof,
                     bundle.root)
    then Some(InvalidInclusionProof)
    else None
  }

  /** Every bundle of every batch verifies. */
  lemma {:induction false} BundleVerifies(h: HashFn, issuer: PublicKey, b: Batch, index: nat)
    requires b.IssuedBy(h, issuer) && index < |b.privates|
    ensures VerifyBundle(h, issuer, HonestBundle(h, b, index)) == None
  {
    hide PaddingLeaf, PutU32, Accepts;
    var leaves := BatchLeaves(b.pubBytes);
    Completeness(h, MERKLE_DOMAIN, leaves, index);
    assert leaves[index] == LeafData(b.pubBytes[index], index);
  }

  /** A key of the right size, with its index, is never encoded as a padding leaf. */
  lemma {:induction false} LeafIsNoPadding(pubBytes: bytes, index: int, i: nat)
    requires |pubBytes| == PUBLIC_KEY_SIZE && i < 2 * MAX_LEAVES
    ensures LeafData(pubBytes, index) != PaddingLeaf(MERKLE_DOMAIN, i)
  {
    Pow10Of19();
    DecimalLength(i, 19);
    hide PutU32, Decimal;
    assert |PaddingLeaf(MERKLE_DOMAIN, i)| <= 100;
  }

  /**
   What a bundle can show under the root of an issued batch: the key at that index of the batch, with its honest proof,
   or else a collision of the hash.
   */
  lemma {:induction false} BundleBinding(h: HashFn, issuer: PublicKey, b: Batch, bundle: Bundle)
    requires b.IssuedBy(h, issuer) && |b.privates| <= MAX_LEAVES
    requires VerifyBundle(h, issuer, bundle) == None && bundle.root == b.root
             && UnmarshalPublicKey(bundle.publicKey).Success?
    ensures 0 <= bundle.index < Pow2(|bundle.proof|)
    ensures
      || (&& bundle.index < |b.privates|
          && UnmarshalPublicKey(bundle.publicKey) == Success(b.privates[bundle.index])
          && bundle == HonestBundle(h, b, bundle.index).(batchSize := bundle.batchSize)
          && Depth(bundle.batchSize) == Depth(|b.privates|))
      || Collision(h, ProofClash(h, MERKLE_DOMAIN, BatchLeaves(b.pubBytes), LeafData(bundle.publicKey, bundle.index),
                                 bundle.index, bundle.proof))
  {
    hide PaddingLeaf, PutU32, ProofClash, Collision, Climb, AuditPath, Base, RootOf;
    var leaves, data := BatchLeaves(b.pubBytes), LeafData(bundle.publicKey, bundle.index);
    Soundness(h, MERKLE_DOMAIN, leaves, data, bundle.index, bundle.batchSize, bundle.proof);
    if IsHonest(h, MERKLE_DOMAIN, leaves, data, bundle.index, bundle.proof) {
      DepthBound(|leaves|);
      if bundle.index >= |leaves| {
        LeafIsNoPadding(bundle.publicKey, bundle.index, bundle.index);
        assert false;
      }
      assert data == LeafData(b.pubBytes[bundle.index], bundle.index);
      ConcatInjective(bundle.publicKey, PutU32(bundle.index), b.pubBytes[bundle.index], PutU32(bundle.index));
      PublicKeyCodec(b.privates[bundle.index], bundle.publicKey);
    }
  }

  lemma DepthBound(n: int)
    requires n <= MAX_LEAVES
    ensures Pow2(Depth(n)) <= MAX_LEAVES
  {
    DepthIsCeilLog2(n);
    Pow2Of62();
    if Depth(n) > 62 { Pow2Monotone(62, Depth(n) - 1); }
    Pow2Monotone(Depth(n), 62);
  }

  // ---------------------------------------------------------------- the last-resort key

  datatype LastResort = LastResort(publicKey: bytes, signature: Signature)

  function LastResortMessage(publicKey: bytes): bytes {
    Ascii(LAST_RESORT_TAG) + publicKey
  }

  /** GenerateLastResort, for the key pair it draws. */
  function SignLastResort(id: PublicKey, priv: KeyPair): LastResort {
    LastResort(priv.Marshal(), Sign(id, LastResortMessage(priv.Marshal())))
  }

  function VerifyLastResort(issuer: PublicKey, lr: LastResort): Option<PrekeyError> {
    if Verify(issuer, LastResortMessage(lr.publicKey), lr.signature) then None else Some(SignatureInvalid)
  }

  /** A last-resort key verifies for the identity that signed it and no other, and only with the key that was signed. */
  lemma {:induction false} LastResortExact(signer: PublicKey, priv: KeyPair, issuer: PublicKey, publicKey: bytes)
    ensures VerifyLastResort(issuer, SignLastResort(signer, priv).(publicKey := publicKey)) == None
       <==> issuer == signer && publicKey == priv.Marshal()
  {
    var msg, msg' := LastResortMessage(priv.Marshal()), LastResortMessage(publicKey);
    if msg == msg' { ConcatInjective(Ascii(LAST_RESORT_TAG), priv.Marshal(), Ascii(LAST_RESORT_TAG), publicKey); }
  }
}
