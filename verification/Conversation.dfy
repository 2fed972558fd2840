/**
 Two ratchet parties, the network between them, and the steps they can take.

 The network never forgets: `log` records every sending chain ever started, oldest first, with every letter sealed on
 it, and `decrypted` the letters that were successfully decrypted. Any letter that was sent may be handed to its
 addressee at any later time, in any order, or never. Entry 0 of the log is the responder's prekey, a chain on which
 nothing is ever sent.
 */
module Conversation {
  import opened Wrappers
  import opened Bytes
  import opened Symbolic
  import opened RatchetHeader
  import opened Ratchet
  import opened KeyChecks

  datatype Who = Alice | Bob {
    function Other(): Who {
      if this == Alice then Bob else Alice
    }
  }

  datatype Letter = Letter(pkt: Packet, plaintext: bytes, ad: bytes)

  datatype Epoch = Epoch(
    creator: Who,
    dh: bytes,
    inject: Option<KemSecret>,    // the encapsulation mixed into this epoch's keys
    adv: Option<bytes>,           // the ML-KEM key advertised on its first letter
    pn: nat,
    root: Key,
    chain: Key,
    letters: seq<Letter>
  )

  type LetterId = (nat, nat)

  datatype Sys = Sys(alice: Party, bob: Party, log: seq<Epoch>, decrypted: set<LetterId>) {
    function Get(who: Who): Party {
      if who == Alice then alice else bob
    }

    function Put(who: Who, p: Party): Sys {
      if who == Alice then this.(alice := p) else this.(bob := p)
    }
  }

  datatype Event =
    | Send(who: Who, coins: Coins, plaintext: bytes, ad: bytes)
    | Deliver(epoch: nat, n: nat)

  /** A fresh session; either side may have set its own injection threshold. */
  function Start(sessionKey: Key, bobPub: bytes, aliceDh: bytes, aliceThreshold: int, bobThreshold: int): Sys {
    var a := AliceStart(sessionKey, bobPub, aliceDh);
    Sys(a.(threshold := aliceThreshold),
        BobStart(sessionKey, bobPub).(threshold := bobThreshold),
        [Epoch(Bob, bobPub, None, None, 0, sessionKey, Nil, []),
         Epoch(Alice, aliceDh, None, None, 0, a.root, a.chainSend, [])], {})
  }

  /** The newest epoch that `who` created. */
  function SendEpoch(log: seq<Epoch>, who: Who): int {
    if |log| > 0 && log[|log| - 1].creator == who then |log| - 1 else |log| - 2
  }

  /** Both parties are well formed and every letter of the log can be put on the wire. */
  ghost predicate Runnable(y: Sys) {
    && y.alice.Valid() && y.bob.Valid()
    && |y.log| >= 2
    && forall e, n :: 0 <= e < |y.log| && 0 <= n < |y.log[e].letters| ==> Wireable(y.log[e].letters[n])
  }

  predicate Wireable(l: Letter) {
    l.pkt.hdr.pn < U32 && l.pkt.hdr.n < U32
  }

  predicate Sent(log: seq<Epoch>, e: nat, n: nat) {
    e < |log| && n < |log[e].letters|
  }

  function SendStep(y: Sys, who: Who, c: Coins, plaintext: bytes, ad: bytes): Sys
    requires y.Get(who).Valid() && |y.log| >= 2
  {
    var p := y.Get(who);
    var (q, pkt) := Encrypt(p, c, plaintext, ad);
    var l := Letter(pkt, plaintext, ad);
    var s := SendEpoch(y.log, who);
    var log' :=
      if p.needsNewSendingChain then
        y.log + [Epoch(who, q.dhSelf, Encapsulation(p, c), pkt.hdr.mlkemPub, q.pn, q.root, Prepare(p, c).0.chainSend,
                       [l])]
      else
        y.log[s := y.log[s].(letters := y.log[s].letters + [l])];
    y.Put(who, q).(log := log')
  }

  function DeliverStep(y: Sys, e: nat, n: nat): (Sys, Result<bytes, RatchetError>)
    requires Runnable(y) && Sent(y.log, e, n)
  {
    var who := y.log[e].creator.Other();
    var l := y.log[e].letters[n];
    var (q, r) := Decrypt(y.Get(who), l.pkt, l.ad);
    (y.Put(who, q).(decrypted := if r.Success? then y.decrypted + {(e, n)} else y.decrypted), r)
  }

  /** The header that letter n of an epoch carries: the KEM fields travel on the first letter only. */
  function HeaderAt(ep: Epoch, n: nat): Header {
    Header(ep.dh, ep.pn, n, if n == 0 then ep.adv else None, if n == 0 then CiphertextOf(ep.inject) else None)
  }

  /** The key of letter n of an epoch. */
  function MessageKey(ep: Epoch, n: nat): Key {
    MsgOf(Iter(ep.chain, n))
  }

  /**
   On a chain that starts by answering an advertisement, nothing is delivered before the first letter was decrypted.
   */
  predicate HeadFirst(log: seq<Epoch>, decrypted: set<LetterId>, e: nat, n: nat)
    requires Sent(log, e, n)
  {
    log[e].inject.Some? && n > 0 ==> (e, 0) in decrypted
  }

  /**
   What is asked of the world: fresh keys, counters that do not wrap, and a responder who waits for the first letter.
   */
  ghost predicate MaySend(y: Sys, who: Who, c: Coins) {
    var p := y.Get(who);
    if p.needsNewSendingChain then c.Generated() && (forall i :: 0 <= i < |y.log| ==> y.log[i].dh != c.dh)
    else p.chainSend != Nil && p.nSend + 1 < U32
  }

  /**
   What is asked of the transport: no letter again once it was decrypted, and first letters first where it matters.
   */
  predicate MayDeliver(y: Sys, e: nat, n: nat) {
    Sent(y.log, e, n) && (e, n) !in y.decrypted && HeadFirst(y.log, y.decrypted, e, n)
  }

  /** The skip window, a thousand keys, read off the receiver and the header alone. */
  predicate InWindow(p: Party, hdr: Header) {
    || (hdr.dhPub, hdr.n) in p.skipped
    || (if IsNewRatchetKey(p, hdr)
        then (p.chainRecv == Nil || hdr.pn - p.nRecv <= 1000) && hdr.n <= 1000
        else hdr.n - p.nRecv <= 1000)
  }

  // ---------------------------------------------------------------- the invariant

  ghost predicate LetterInv(ep: Epoch, n: nat)
    requires n < |ep.letters|
  {
    var l := ep.letters[n];
    l.pkt == Packet(HeaderAt(ep, n), Sealed(MessageKey(ep, n), AdWithHeader(HeaderAt(ep, n), l.ad), l.plaintext))
  }

  ghost predicate EpochInv(log: seq<Epoch>, i: nat)
    requires i < |log|
  {
    var ep := log[i];
    && ep.creator == (if i % 2 == 0 then Bob else Alice)
    && |ep.dh| == X25519_SIZE && !LowOrder(ep.dh)
    && !BadKemKey(ep.adv) && !BadCiphertext(CiphertextOf(ep.inject))
    && |ep.letters| < U32
    && ep.pn == (if i >= 2 then |log[i - 2].letters| else 0)
    && (i == 0 ==> ep.chain == Nil && ep.letters == [])
    && (if i < 2 then ep.inject.None? && ep.adv.None? else |ep.letters| > 0)
    && (i > 0 ==>
          && ep.root == RootOf(log[i - 1].root, Dh(ep.dh, log[i - 1].dh), ep.inject)
          && ep.chain == ChainOf(log[i - 1].root, Dh(ep.dh, log[i - 1].dh), ep.inject)
          && (ep.inject.Some? ==> log[i - 1].adv == Some(ep.inject.value.pub)))
    && forall n :: 0 <= n < |ep.letters| ==> LetterInv(ep, n)
  }

  ghost predicate LogInv(log: seq<Epoch>) {
    && |log| >= 2
    && (forall i :: 0 <= i < |log| ==> EpochInv(log, i))
    && (forall i, j :: 0 <= i < j < |log| ==> log[i].dh != log[j].dh)
  }

  function Max(a: int, b: int): int {
    if a < b then b else a
  }

  /** Party p sends on epoch s and has last ratcheted to the peer's epoch r (-1: to none). */
  ghost predicate PartyInv(p: Party, log: seq<Epoch>, s: int, r: int) {
    && 0 <= s < |log| && -1 <= r < |log| && (r == s - 1 || r == s + 1)
    && p.Valid()
    && p.dhSelf == log[s].dh
    && p.root == log[Max(s, r)].root
    && p.nSend == |log[s].letters|
    && p.chainSend == Iter(log[s].chain, p.nSend)
    && p.pn == log[s].pn
    && p.needsNewSendingChain == (r > s)
    && p.dhRemote == (if r < 0 then None else Some(log[r].dh))
    && p.chainRecv == (if r < 0 then Nil else Iter(log[r].chain, p.nRecv))
    && p.nRecv <= (if r < 0 then 0 else |log[r].letters|)
    && (p.peerAdvertisedKem.Some? ==> r > s && p.peerAdvertisedKem == log[r].adv)
  }

  /** The receiver at epoch r has taken the key of letter n of epoch e off the peer's chain. */
  ghost predicate Passed(p: Party, log: seq<Epoch>, r: int, peer: Who, e: int, n: int) {
    && 0 <= e < |log| && 0 <= n < |log[e].letters|
    && log[e].creator == peer
    && (e < r || (e == r && n < p.nRecv))
  }

  /** The skipped map holds exactly the keys of letters passed and not decrypted. */
  ghost predicate MailInv(p: Party, log: seq<Epoch>, decrypted: set<LetterId>, r: int, peer: Who) {
    && (0 <= r < |log| ==> log[r].creator == peer)
    && (forall e: nat, n: nat :: Passed(p, log, r, peer, e, n) ==>
          && ((e, n) in decrypted <==> (log[e].dh, n) !in p.skipped)
          && ((e, n) !in decrypted ==> p.skipped[(log[e].dh, n)] == MessageKey(log[e], n)))
    && (forall k :: k in p.skipped ==> exists e: nat :: Passed(p, log, r, peer, e, k.1) && log[e].dh == k.0)
    && (forall e: nat, n: nat :: (e, n) in decrypted ==>
          e < |log| && (log[e].creator == peer ==> Passed(p, log, r, peer, e, n)))
  }

  /** Of every chain ratcheted to that answers an advertisement, the first letter has been decrypted. */
  ghost predicate HeadsInv(log: seq<Epoch>, decrypted: set<LetterId>, r: int, peer: Who) {
    forall e: nat :: e <= r && e < |log| && log[e].creator == peer && log[e].inject.Some? ==> (e, 0) in decrypted
  }

  /** Of the first k epochs, the newest on which `who` advertised a key, or -1. */
  function Advertised(log: seq<Epoch>, who: Who, k: nat): (a: int)
    requires k <= |log|
    ensures -1 <= a < k && (a >= 0 ==> log[a].creator == who && log[a].adv.Some?)
    ensures forall i :: a < i < k && log[i].creator == who ==> log[i].adv.None?
  {
    if k == 0 then -1
    else if log[k - 1].creator == who && log[k - 1].adv.Some? then k - 1
    else Advertised(log, who, k - 1)
  }

  /** The ML-KEM key whose private half `who` should hold: the last one it advertised, until the answer was opened. */
  function Pending(log: seq<Epoch>, decrypted: set<LetterId>, who: Who): Option<bytes> {
    var a := Advertised(log, who, |log|);
    if a < 0 || (a + 1 < |log| && log[a + 1].inject.Some? && (a + 1, 0) in decrypted) then None else log[a].adv
  }

  /**
   Of the first k epochs, the letters that `who` has sealed since it last advertised a key, the advertising one
   included.
   */
  function SealedSince(log: seq<Epoch>, who: Who, k: nat): nat
    requires k <= |log|
  {
    if k == 0 then 0
    else if log[k - 1].creator != who then SealedSince(log, who, k - 1)
    else |log[k - 1].letters| + (if log[k - 1].adv.Some? then 0 else SealedSince(log, who, k - 1))
  }

  /** What a party keeps for the injection schedule is what the log says. */
  ghost predicate InjectInv(p: Party, log: seq<Epoch>, decrypted: set<LetterId>, who: Who) {
    p.selfPendingKem == Pending(log, decrypted, who) && p.msgsSinceInject == SealedSince(log, who, |log|)
  }

  ghost predicate SideInv(p: Party, log: seq<Epoch>, decrypted: set<LetterId>, s: int, r: int, peer: Who) {
    && PartyInv(p, log, s, r)
    && MailInv(p, log, decrypted, r, peer)
    && HeadsInv(log, decrypted, r, peer)
  }

  /** The epoch that the creator's peer has last ratcheted to, `last` being the newest. */
  function PeerEpoch(p: Party, last: int): int {
    if p.needsNewSendingChain then last else last - 2
  }

  /** x created the newest epoch; o is still sending on the one before, and may or may not have seen the newest. */
  ghost predicate RolesInv(x: Party, o: Party, log: seq<Epoch>, decrypted: set<LetterId>) {
    var last := |log| - 1;
    && 0 < |log|
    && InjectInv(x, log, decrypted, log[last].creator) && InjectInv(o, log, decrypted, log[last].creator.Other())
    && SideInv(x, log, decrypted, last, last - 1, log[last].creator.Other())
    && SideInv(o, log, decrypted, last - 1, PeerEpoch(o, last), log[last].creator)
  }

  ghost predicate Inv(y: Sys) {
    && LogInv(y.log)
    && var x := y.log[|y.log| - 1].creator; RolesInv(y.Get(x), y.Get(x.Other()), y.log, y.decrypted)
  }

  lemma InvRunnable(y: Sys)
    requires Inv(y)
    ensures Runnable(y)
  {
    var c := y.log[|y.log| - 1].creator;
    hide LogInv, RolesInv, Wireable;
    RolesValid(y.Get(c), y.Get(c.Other()), y.log, y.decrypted);
    forall e, n | 0 <= e < |y.log| && 0 <= n < |y.log[e].letters|
      ensures Wireable(y.log[e].letters[n])
    {
      LetterFits(y.log, e, n);
    }
  }

  /** Counters of a log fit 32 bits. */
  lemma LetterFits(log: seq<Epoch>, e: nat, n: nat)
    requires LogInv(log) && Sent(log, e, n)
    ensures |log| >= 2 && Wireable(log[e].letters[n])
  {
    assert EpochInv(log, e) && LetterInv(log[e], n);
    if e >= 2 { assert EpochInv(log, e - 2); }
  }

  lemma RolesValid(x: Party, o: Party, log: seq<Epoch>, decrypted: set<LetterId>)
    requires RolesInv(x, o, log, decrypted)
    ensures x.Valid() && o.Valid()
  {
  }

  lemma {:induction false} StartInv(sessionKey: Key, bobPub: bytes, aliceDh: bytes, aliceThreshold: int,
                                    bobThreshold: int)
    requires |bobPub| == X25519_SIZE && |aliceDh| == X25519_SIZE && bobPub != aliceDh
    requires !LowOrder(bobPub) && !LowOrder(aliceDh)
    ensures Inv(Start(sessionKey, bobPub, aliceDh, aliceThreshold, bobThreshold))
  {
    var y := Start(sessionKey, bobPub, aliceDh, aliceThreshold, bobThreshold);
    assert EpochInv(y.log, 0) && EpochInv(y.log, 1);
    NothingSealed(y.log, Alice, 2);
    NothingSealed(y.log, Bob, 2);
    hide AliceStart, BobStart, LowOrder, SealedSince, Advertised;
  }

  lemma {:induction false} NothingSealed(log: seq<Epoch>, who: Who, k: nat)
    requires k <= |log| && forall i :: 0 <= i < k ==> log[i].letters == [] && log[i].adv.None?
    ensures SealedSince(log, who, k) == 0 && Advertised(log, who, k) == -1
  {
    if k == 0 {
    } else {
      NothingSealed(log, who, k - 1);
    }
  }
}
