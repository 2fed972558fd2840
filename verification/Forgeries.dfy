/**
 Packets that nobody sent: altered, reflected or made up. Under keys it does not have, a network can make a party open
 nothing but the peer's own letters, unaltered and once; but what a header does to the party before the box is tried is
 not undone.
 */
module Forgeries {
  import opened Wrappers
  import opened Bytes
  import opened Symbolic
  import opened RatchetHeader
  import opened Ratchet
  import opened Conversation
  import opened Agreement
  import opened Runs
  import opened KeyChecks

  // ---------------------------------------------------------------- boxes of the log in other packets

  /** A box opens only with the header and the associated data it was sealed with. */
  lemma {:induction false} HeaderIsBound(p: Party, hdr: Header, ad: bytes, pkt: Packet, ad': bytes)
    requires p.Valid() && hdr.Encodable() && pkt.hdr.Encodable()
    requires pkt.box.ad == AdWithHeader(hdr, ad) && |ad'| == |ad|
    requires Decrypt(p, pkt, ad').1.Success?
    ensures pkt.hdr == hdr && ad' == ad
  {
    BoxMatches(p, pkt, ad');
    hide Decrypt, Header.Marshal, Header.Encodable;
    ConcatInjective(ad', pkt.hdr.Marshal(), ad, hdr.Marshal());
    HeaderCodec(hdr, hdr.Marshal());
    HeaderCodec(pkt.hdr, hdr.Marshal());
  }

  lemma BoxMatches(p: Party, pkt: Packet, ad: bytes)
    requires p.Valid() && pkt.hdr.pn < U32 && pkt.hdr.n < U32 && Decrypt(p, pkt, ad).1.Success?
    ensures pkt.box.ad == AdWithHeader(pkt.hdr, ad)
  {
    hide Advance, AdWithHeader;
  }

  /** One party's side of ReflectedFails. */
  lemma OwnLetterFails(peer: Who, p: Party, log: seq<Epoch>, decrypted: set<LetterId>, s: int, r: int, e: nat, n: nat)
    requires LogInv(log) && SideInv(p, log, decrypted, s, r, peer) && Sent(log, e, n) && log[e].creator != peer
             && e <= s
    requires Wireable(log[e].letters[n])
    ensures Decrypt(p, log[e].letters[n].pkt, log[e].letters[n].ad).1.Failure?
  {
    hide HeadsInv, AdWithHeader, Decrypt, LowOrder, BadKemKey;
    var l := log[e].letters[n];
    assert EpochInv(log, e) && LetterInv(log[e], n);
    assert l.pkt.hdr == HeaderAt(log[e], n) && l.pkt.box.key == MsgOf(Iter(log[e].chain, n));
    assert (log[e].dh, n) !in p.skipped;
    assert IsNewRatchetKey(p, l.pkt.hdr);
    assert log[e].chain.ChainOf? && log[e].chain.salt == log[e - 1].root && p.root == log[Max(s, r)].root;
    hide LogInv, MailInv, PartyInv, EpochInv;
    RootDepth(log, e - 1);
    RootDepth(log, Max(s, r));
    StaleKeyFails(p, l.pkt, l.ad, log[e].chain);
  }

  /** A letter that comes back to its own sender does not open. */
  lemma {:induction false} ReflectedFails(y: Sys, e: nat, n: nat)
    requires Reachable(y) && Sent(y.log, e, n)
    ensures Runnable(y)
    ensures var l := y.log[e].letters[n]; Decrypt(y.Get(y.log[e].creator), l.pkt, l.ad).1.Failure?
  {
    hide Reachable, Runnable, Decrypt, RolesInv, SideInv, LogInv;
    ReachableInv(y);
    LetterFits(y.log, e, n);
    var who := y.log[e].creator;
    var s, r := SideOf(y, who);
    assert e <= s;
    OwnLetterFails(who.Other(), y.Get(who), y.log, y.decrypted, s, r, e, n);
  }

  lemma LetterEncodable(log: seq<Epoch>, e: nat, n: nat)
    requires LogInv(log) && Sent(log, e, n)
    ensures var l := log[e].letters[n]; l.pkt.hdr.Encodable() && l.pkt.box.ad == AdWithHeader(l.pkt.hdr, l.ad)
  {
    hide AdWithHeader;
    LetterFits(log, e, n);
    assert EpochInv(log, e) && LetterInv(log[e], n);
  }

  /**
   Authenticity against everyone who cannot forge a box: whatever header and associated data, of the same length, a box
   that was ever sealed is presented with, the party that opens it is the one it was sealed for, the header and the data
   are the sender's own, and it opens for the first time.
   */
  lemma {:induction false} OpensOnlyGenuine(y: Sys, who: Who, e: nat, n: nat, hdr: Header, ad: bytes)
    requires Reachable(y) && Sent(y.log, e, n) && hdr.Encodable() && |ad| == |y.log[e].letters[n].ad|
    ensures y.Get(who).Valid()
    ensures var l := y.log[e].letters[n];
      Decrypt(y.Get(who), Packet(hdr, l.pkt.box), ad).1.Success? ==>
        && hdr == l.pkt.hdr && ad == l.ad && y.log[e].creator == who.Other() && (e, n) !in y.decrypted
        && Decrypt(y.Get(who), Packet(hdr, l.pkt.box), ad).1 == Success(l.plaintext)
  {
    hide Reachable, Runnable, Decrypt, Inv, Header.Encodable, AdWithHeader, InWindow, LogInv;
    ReachableInv(y);
    ReachableLog(y);
    RunnableBoth(y);
    var l := y.log[e].letters[n];
    LetterEncodable(y.log, e, n);
    EncodableFits(hdr);
    if Decrypt(y.Get(who), Packet(hdr, l.pkt.box), ad).1.Success? {
      HeaderIsBound(y.Get(who), l.pkt.hdr, l.ad, Packet(hdr, l.pkt.box), ad);
      ReflectedFails(y, e, n);
      DecryptsExactly(y, e, n);
    }
  }

  lemma ReachableLog(y: Sys)
    requires Inv(y)
    ensures LogInv(y.log)
  {
    hide LogInv, RolesInv;
  }

  lemma RunnableBoth(y: Sys)
    requires Runnable(y)
    ensures y.alice.Valid() && y.bob.Valid()
  {
  }

  lemma EncodableFits(hdr: Header)
    requires hdr.Encodable()
    ensures hdr.pn < U32 && hdr.n < U32
  {
  }

  // ---------------------------------------------------------------- a genuine header with another box

  /** What a packet does to a party depends on its header alone. */
  lemma HeaderDecides(p: Party, pkt: Packet, ad: bytes, box: Sealed, ad': bytes)
    requires p.Valid() && pkt.hdr.pn < U32 && pkt.hdr.n < U32
    ensures Decrypt(p, Packet(pkt.hdr, box), ad').0 == Decrypt(p, pkt, ad).0
  {
    hide Advance, AdWithHeader, Opened;
  }

  /**
   One spoiled copy costs the letter: if a letter that would open is preceded by its own header on a box that does not,
   then that fails, the party has come as far as if the letter itself had arrived, and the letter does not open any
   more.
   */
  lemma {:induction false} SpoiledCopyCostsLetter(y: Sys, e: nat, n: nat, box: Sealed, ad: bytes)
    requires Reachable(y) && MayDeliver(y, e, n) && Runnable(y) && DeliverStep(y, e, n).1.Success?
    requires var l, p := y.log[e].letters[n], y.Get(y.log[e].creator.Other());
      Decrypt(p, Packet(l.pkt.hdr, box), ad).1.Failure?
    ensures var l, who := y.log[e].letters[n], y.log[e].creator.Other();
      var q := Decrypt(y.Get(who), Packet(l.pkt.hdr, box), ad).0;
      && q == DeliverStep(y, e, n).0.Get(who)
      && Decrypt(q, l.pkt, l.ad).1.Failure?
  {
    var l, who := y.log[e].letters[n], y.log[e].creator.Other();
    var y' := DeliverStep(y, e, n).0;
    assert y'.log == y.log && (e, n) in y'.decrypted;
    hide Reachable, Runnable, Decrypt;
    HeaderDecides(y.Get(who), l.pkt, l.ad, box, ad);
    StepReachable(y, Deliver(e, n));
    DecryptsExactly(y', e, n);
  }

  // ---------------------------------------------------------------- made-up headers

  /** The old chain can be read as far as the header asks. */
  predicate ReadsUp(p: Party, hdr: Header) {
    p.chainRecv == Nil || hdr.pn - p.nRecv <= 1000
  }

  /** A ciphertext, if there is one, that can be decapsulated. */
  predicate Answerable(p: Party, hdr: Header) {
    hdr.mlkemCiphertext.Some? ==> p.selfPendingKem.Some? && |hdr.mlkemCiphertext.value| == 1088
  }

  /** The header is taken for the start of a new chain: its key is adopted. */
  predicate Adopts(p: Party, hdr: Header) {
    ReadsUp(p, hdr) && |hdr.dhPub| == 32 && Answerable(p, hdr)
  }

  lemma SkipBefore(p: Party, hdr: Header)
    requires p.Valid() && hdr.pn < U32
    ensures var (o, e) := if p.dhRemote.Some? then SkipTo(p, hdr.pn) else (p, None);
      && o == p.(chainRecv := o.chainRecv, nRecv := o.nRecv, skipped := o.skipped)
      && e == if ReadsUp(p, hdr) then None else Some(SkipTooLarge)
  {
    hide Stored, Iter;
  }

  lemma SkipAfter(q: Party, n: nat)
    requires q.Valid() && n < U32 && q.nRecv == 0 && q.chainRecv != Nil
    ensures SkipTo(q, n).1 == if n <= 1000 then None else Some(SkipTooLarge)
    ensures SkipTo(q, n).0 == q.(chainRecv := SkipTo(q, n).0.chainRecv, nRecv := SkipTo(q, n).0.nRecv,
                                 skipped := SkipTo(q, n).0.skipped)
  {
    hide Stored, Iter;
  }

  /** dhRatchetStep on any header. */
  lemma DhStepOnAny(o: Party, p: Party, hdr: Header, q: Party, e: Option<RatchetError>)
    requires o.Valid() && o == p.(chainRecv := o.chainRecv, nRecv := o.nRecv, skipped := o.skipped)
    requires (q, e) == DhStep(o, hdr)
    ensures e == if |hdr.dhPub| != 32 then Some(BadPublicKey)
                 else if hdr.mlkemCiphertext.Some? && p.selfPendingKem.None? then Some(UnexpectedKEMCT)
                 else if !Answerable(p, hdr) then Some(LibraryPanics)
                 else if LowOrder(hdr.dhPub) then Some(LowOrderKey)
                 else if BadKemKey(hdr.mlkemPub) then Some(BadPublicKey) else None
    ensures if |hdr.dhPub| == 32 && Answerable(p, hdr)
            then q.dhRemote == Some(hdr.dhPub)
                 && q.selfPendingKem == (if hdr.mlkemCiphertext.Some? then None else p.selfPendingKem)
            else q == o
    ensures q.root != p.root <==> |hdr.dhPub| == 32 && Answerable(p, hdr) && !LowOrder(hdr.dhPub)
    ensures q.root != p.root ==> q.nRecv == 0 && q.chainRecv != Nil
    ensures q.needsNewSendingChain == (p.needsNewSendingChain || e.None?)
    ensures q.peerAdvertisedKem == if e.None? && hdr.mlkemPub.Some? then hdr.mlkemPub else p.peerAdvertisedKem
  {
    hide LowOrder, Normalised;
    assert Depth(RootOf(p.root, Dh(p.dhSelf, hdr.dhPub), None)) != Depth(p.root);
  }

  /**
   What a made-up header does, whatever box comes with it, to any party for which its key is new and nothing is filed.
   The root key moves if and only if the key is adopted and ECDH accepts it, even if the box then fails or the
   advertised ML-KEM key is refused. A ciphertext that can be decapsulated spends the pending key, even if ECDH then
   refuses. Each error has its exact cause.
   */
  lemma {:induction false} MadeUpHeaderExactly(p: Party, pkt: Packet, ad: bytes, q: Party,
                                               res: Result<bytes, RatchetError>)
    requires p.Valid() && pkt.hdr.pn < U32 && pkt.hdr.n < U32 && IsNewRatchetKey(p, pkt.hdr)
    requires (pkt.hdr.dhPub, pkt.hdr.n) !in p.skipped && (q, res) == Decrypt(p, pkt, ad)
    ensures q.root != p.root <==> Adopts(p, pkt.hdr) && !LowOrder(pkt.hdr.dhPub)
    ensures q.dhRemote == if Adopts(p, pkt.hdr) then Some(pkt.hdr.dhPub) else p.dhRemote
    ensures q.selfPendingKem == if Adopts(p, pkt.hdr) && pkt.hdr.mlkemCiphertext.Some? then None else p.selfPendingKem
    ensures var starts := Adopts(p, pkt.hdr) && !LowOrder(pkt.hdr.dhPub) && !BadKemKey(pkt.hdr.mlkemPub);
      && q.needsNewSendingChain == (p.needsNewSendingChain || starts)
      && q.peerAdvertisedKem == (if starts && pkt.hdr.mlkemPub.Some? then pkt.hdr.mlkemPub else p.peerAdvertisedKem)
      && (res.Success? || res == Failure(AuthenticationFailed) <==> starts && pkt.hdr.n <= 1000)
      && (res == Failure(SkipTooLarge) <==> !ReadsUp(p, pkt.hdr) || (starts && pkt.hdr.n > 1000))
    ensures res == Failure(LowOrderKey) <==> Adopts(p, pkt.hdr) && LowOrder(pkt.hdr.dhPub)
    ensures res == Failure(BadPublicKey) <==>
              && ReadsUp(p, pkt.hdr)
              && (|pkt.hdr.dhPub| != 32
                  || (Adopts(p, pkt.hdr) && !LowOrder(pkt.hdr.dhPub) && BadKemKey(pkt.hdr.mlkemPub)))
    ensures res == Failure(UnexpectedKEMCT) <==>
              ReadsUp(p, pkt.hdr) && |pkt.hdr.dhPub| == 32 && pkt.hdr.mlkemCiphertext.Some? && p.selfPendingKem.None?
  {
    hide LowOrder, BadKemKey, SkipTo, DhStep, Decrypt, AdWithHeader;
    var hdr := pkt.hdr;
    var (o, e0) := if p.dhRemote.Some? then SkipTo(p, hdr.pn) else (p, None);
    var (q1, e1) := DhStep(o, hdr);
    var (q2, e2) := SkipTo(q1, hdr.n);
    DecryptNew(p, pkt, ad, o, e0, q1, e1, q2, e2);
    SkipBefore(p, hdr);
    DhStepOnAny(o, p, hdr, q1, e1);
    if e1.None? { SkipAfter(q1, hdr.n); }
  }

  /**
   A header with a key that ECDH refuses, which anyone can make up, silences a party that owes a chain: nothing it sends
   is sealed any more. A party that does not owe one still sends on its old chain.
   */
  lemma {:induction false} LowOrderHeaderSilences(p: Party, pkt: Packet, ad: bytes, c: Coins, plaintext: bytes,
                                                  ad': bytes)
    requires p.Valid() && pkt.hdr.pn < U32 && pkt.hdr.n < U32 && IsNewRatchetKey(p, pkt.hdr)
    requires (pkt.hdr.dhPub, pkt.hdr.n) !in p.skipped && Adopts(p, pkt.hdr) && LowOrder(pkt.hdr.dhPub)
    ensures var (q, res) := Decrypt(p, pkt, ad);
      && res == Failure(LowOrderKey)
      && (TryEncrypt(q, c, plaintext, ad').1.Failure? <==> p.needsNewSendingChain)
      && (p.needsNewSendingChain ==> TryEncrypt(q, c, plaintext, ad').0 == q.(dhSelf := c.dh))
  {
    hide LowOrder, BadKemKey, Decrypt, Adopts, Encrypt;
    var (q, res) := Decrypt(p, pkt, ad);
    MadeUpHeaderExactly(p, pkt, ad, q, res);
  }
}
