/**
 What is lost when the transport breaks the rules. A failed attempt to open a letter is not rolled back, so overtaking
 the first letter of a chain that answers an advertisement loses the chain, repeating a letter of the current chain
 loses the next one, and repeating one of an older chain can end the conversation.
 */
module Hazards {
  import opened Wrappers
  import opened Bytes
  import opened Symbolic
  import opened RatchetHeader
  import opened Ratchet
  import opened Conversation
  import opened Agreement
  import opened Runs
  import opened KeyChecks

  /** The receiving chain that a header without a ciphertext leads to. */
  function PlainChain(p: Party, dh: bytes): Key {
    ChainOf(p.root, Dh(p.dhSelf, dh), None)
  }

  /** Letter m of an epoch as its creator seals it, whether it was sent already or is sent later. */
  function SealedAt(ep: Epoch, m: nat, plaintext: bytes, ad: bytes): Packet {
    Packet(HeaderAt(ep, m), Sealed(MessageKey(ep, m), AdWithHeader(HeaderAt(ep, m), ad), plaintext))
  }

  /** A letter of the epoch, sent or yet to be sent. */
  ghost predicate Belongs(l: Letter, ep: Epoch) {
    ep.pn < U32 && exists m: nat :: m < U32 && l.pkt == SealedAt(ep, m, l.plaintext, l.ad)
  }

  ghost predicate OnChain(k: Key, chain: Key) {
    exists j: nat :: k == Iter(chain, j)
  }

  /**
   A receiver that opens nothing of an epoch: it has taken a later letter's header for the start of the chain and
   derived another one, or it has yet to read more of the chain before than the skip window allows.
   */
  ghost predicate Deaf(q: Party, ep: Epoch, other: Key) {
    && q.Valid() && q.dhRemote.Some?
    && (if q.dhRemote.value == ep.dh
        then
          && OnChain(q.chainRecv, other)
          && forall k :: k in q.skipped && k.0 == ep.dh ==> exists j: nat :: q.skipped[k] == MsgOf(Iter(other, j))
        else
          && q.chainRecv != Nil && ep.pn - q.nRecv > MAX_SKIP
          && forall i: nat :: (ep.dh, i) !in q.skipped)
  }

  /** Adopting a key whose header carries nothing for or from ML-KEM. */
  lemma PlainStep(o: Party, hdr: Header)
    requires o.Valid() && RatchetKey(hdr.dhPub) && hdr.mlkemPub.None? && hdr.mlkemCiphertext.None?
    ensures DhStep(o, hdr).1.None?
    ensures DhStep(o, hdr).0 == o.(dhRemote := Some(hdr.dhPub), root := RootOf(o.root, Dh(o.dhSelf, hdr.dhPub), None),
                                   chainRecv := PlainChain(o, hdr.dhPub), nRecv := 0, needsNewSendingChain := true)
  {
    hide LowOrder;
  }

  /** What a later letter's header does to a receiver that has not ratcheted to its chain. */
  lemma LaterHeaderDeafens(p: Party, ep: Epoch, n: nat, pkt: Packet, ad: bytes)
    requires p.Valid() && ep.pn < U32 && 0 < n < U32 && pkt.hdr == HeaderAt(ep, n) && RatchetKey(ep.dh)
    requires IsNewRatchetKey(p, pkt.hdr) && forall i: nat :: (ep.dh, i) !in p.skipped
    ensures Deaf(Decrypt(p, pkt, ad).0, ep, PlainChain(p, ep.dh))
  {
    hide AdWithHeader, LowOrder, DhStep, Stored, Decrypt;
    var hdr, other := pkt.hdr, PlainChain(p, ep.dh);
    var (o, e0) := if p.dhRemote.Some? then SkipTo(p, hdr.pn) else (p, None);
    var (q1, e1) := DhStep(o, hdr);
    var (q2, e2) := SkipTo(q1, n);
    DecryptNew(p, pkt, ad, o, e0, q1, e1, q2, e2);
    if e0.None? {
      SkipToFrame(p, hdr.pn);
      NothingNewFiled(p, hdr.pn, o, ep.dh);
      PlainStep(o, hdr);
      assert q1.chainRecv == Iter(other, 0);
      DeafSkips(q1, ep, other, n);
      SkipToFrame(q1, n);
      var j: nat :| q2.chainRecv == Iter(other, j);
      assert TakeNext(q2).chainRecv == Iter(other, j + 1);
    }
  }

  /** Reading an old chain to its end files nothing under the new key. */
  lemma NothingNewFiled(p: Party, until: nat, q: Party, dh: bytes)
    requires p.Valid() && until < U32 && (p.dhRemote.Some? ==> p.dhRemote.value != dh)
    requires q == (if p.dhRemote.Some? then SkipTo(p, until).0 else p)
    requires forall i: nat :: (dh, i) !in p.skipped
    ensures forall i: nat :: (dh, i) !in q.skipped
  {
    forall i: nat
      ensures (dh, i) !in q.skipped
    {
      if p.dhRemote.Some? { StoredAt(p.dhRemote.value, p.chainRecv, p.nRecv, until, (dh, i)); }
    }
  }

  /** A deaf receiver opens no letter of the epoch, and stays deaf. */
  lemma DeafToEpoch(q: Party, ep: Epoch, other: Key, l: Letter)
    requires Deaf(q, ep, other) && Belongs(l, ep)
    requires ep.chain.ChainOf? && other.ChainOf? && other != ep.chain
    ensures Wireable(l) && Decrypt(q, l.pkt, l.ad).1.Failure? && Deaf(Decrypt(q, l.pkt, l.ad).0, ep, other)
  {
    var m: nat :| m < U32 && l.pkt == SealedAt(ep, m, l.plaintext, l.ad);
    hide AdWithHeader, Stored;
    if q.dhRemote.value == ep.dh {
      forall j: nat
        ensures Iter(other, j) != Iter(ep.chain, m)
      {
        IterInjective(ep.chain, m, other, j);
      }
      if (ep.dh, m) !in q.skipped {
        DeafSteps(q, ep, other, m, l.pkt, l.ad);
      }
    }
  }

  /** Reading ahead on the wrong chain files keys of that chain. */
  lemma DeafSkips(q: Party, ep: Epoch, other: Key, m: nat)
    requires Deaf(q, ep, other) && q.dhRemote.value == ep.dh && m < U32
    ensures OnChain(SkipTo(q, m).0.chainRecv, other) && Deaf(SkipTo(q, m).0, ep, other)
  {
    hide Stored;
    var q1 := SkipTo(q, m).0;
    if q1 != q {
      var j: nat :| q.chainRecv == Iter(other, j);
      IterAdd(other, j, m - q.nRecv);
      forall k | k in q1.skipped && k.0 == ep.dh
        ensures exists t: nat :: q1.skipped[k] == MsgOf(Iter(other, t))
      {
        StoredAt(ep.dh, q.chainRecv, q.nRecv, m, k);
        if k in Stored(ep.dh, q.chainRecv, q.nRecv, m) {
          IterAdd(other, j, k.1 - q.nRecv);
        }
      }
    }
  }

  /** On the wrong chain every step stays on it. */
  lemma DeafSteps(q: Party, ep: Epoch, other: Key, m: nat, pkt: Packet, ad: bytes)
    requires Deaf(q, ep, other) && q.dhRemote.value == ep.dh && m < U32 && ep.pn < U32
    requires pkt.hdr == HeaderAt(ep, m) && (ep.dh, m) !in q.skipped
    requires forall j: nat :: pkt.box.key != MsgOf(Iter(other, j))
    ensures Decrypt(q, pkt, ad).1.Failure? && Deaf(Decrypt(q, pkt, ad).0, ep, other)
  {
    hide AdWithHeader, SkipTo;
    var (q1, e) := SkipTo(q, m);
    DeafSkips(q, ep, other, m);
    SkipToFrame(q, m);
    var j: nat :| q1.chainRecv == Iter(other, j);
    assert TakeNext(q1).chainRecv == Iter(other, j + 1);
  }

  /** For one receiver: a later letter, handed over before the first, leaves it deaf to the epoch. */
  lemma OvertakenDeafens(peer: Who, p: Party, log: seq<Epoch>, decrypted: set<LetterId>, s: int, r: int, e: nat, n: nat)
    requires LogInv(log) && SideInv(p, log, decrypted, s, r, peer)
    requires Sent(log, e, n) && n > 0 && log[e].creator == peer && log[e].inject.Some? && (e, 0) !in decrypted
    requires Wireable(log[e].letters[n])
    ensures Deaf(Decrypt(p, log[e].letters[n].pkt, log[e].letters[n].ad).0, log[e], PlainChain(p, log[e].dh))
    ensures log[e].chain.ChainOf? && PlainChain(p, log[e].dh) != log[e].chain
  {
    var l := log[e].letters[n];
    assert EpochInv(log, e) && LetterInv(log[e], n);
    assert e > r;
    assert forall i: nat :: !Passed(p, log, r, peer, e, i);
    assert forall i: nat :: (log[e].dh, i) !in p.skipped;
    assert p.Valid() && l.pkt.hdr == HeaderAt(log[e], n) && RatchetKey(log[e].dh) && IsNewRatchetKey(p, l.pkt.hdr);
    hide *;
    LaterHeaderDeafens(p, log[e], n, l.pkt, l.ad);
  }

  lemma LetterBelongs(y: Sys, e: nat, m: nat)
    requires Inv(y) && Sent(y.log, e, m)
    ensures Belongs(y.log[e].letters[m], y.log[e])
  {
    LetterFits(y.log, e, m);
    hide RolesInv, AdWithHeader;
    assert EpochInv(y.log, e) && LetterInv(y.log[e], m);
    var l := y.log[e].letters[m];
    assert l.pkt == SealedAt(y.log[e], m, l.plaintext, l.ad);
  }

  /**
   In any reachable state: if the first letter of a chain that answers an advertisement has not been decrypted, and a
   later letter of the chain is handed over, then neither that letter nor, afterwards, the first letter opens.
   */
  lemma {:induction false} OvertakingLosesHead(y: Sys, e: nat, n: nat)
    requires Reachable(y) && Sent(y.log, e, n) && n > 0 && y.log[e].inject.Some? && (e, 0) !in y.decrypted
    ensures Runnable(y) && DeliverStep(y, e, n).1.Failure?
    ensures var y' := DeliverStep(y, e, n).0; Runnable(y') && DeliverStep(y', e, 0).1.Failure?
  {
    hide Reachable, Runnable, Decrypt, LogInv, SideInv, RolesInv, Deaf, Belongs;
    DecryptsExactly(y, e, n);
    ReachableInv(y);
    LetterWireable(y, e, n);
    var who := y.log[e].creator.Other();
    var s, r := SideOf(y, who);
    OvertakenDeafens(who.Other(), y.Get(who), y.log, y.decrypted, s, r, e, n);
    LetterBelongs(y, e, 0);
    var y' := DeliverStep(y, e, n).0;
    DeafToEpoch(y'.Get(who), y.log[e], PlainChain(y.Get(who), y.log[e].dh), y.log[e].letters[0]);
    RunnablePut(y, who, y'.Get(who), y');
  }

  /** What a receiver may do meanwhile: take another letter of the epoch, or send. */
  datatype Doing = Takes(l: Letter) | Seals(coins: Coins, plaintext: bytes, ad: bytes)

  function Do(p: Party, d: Doing): (q: Party)
    requires p.Valid() && (d.Takes? ==> Wireable(d.l))
    ensures q.Valid()
  {
    match d
    case Takes(l) => Decrypt(p, l.pkt, l.ad).0
    case Seals(c, plaintext, ad) => TryEncrypt(p, c, plaintext, ad).0
  }

  function DoAll(p: Party, ds: seq<Doing>): (q: Party)
    requires p.Valid() && forall d :: d in ds && d.Takes? ==> Wireable(d.l)
    ensures q.Valid()
    decreases |ds|
  {
    if ds == [] then p else DoAll(Do(p, ds[0]), ds[1..])
  }

  /** Sending does not help. */
  lemma DeafSeals(q: Party, ep: Epoch, other: Key, c: Coins, plaintext: bytes, ad: bytes)
    requires Deaf(q, ep, other)
    ensures Deaf(TryEncrypt(q, c, plaintext, ad).0, ep, other)
  {
    hide AdWithHeader, LowOrder;
    var q' := TryEncrypt(q, c, plaintext, ad).0;
    assert q'.dhRemote == q.dhRemote && q'.chainRecv == q.chainRecv && q'.nRecv == q.nRecv && q'.skipped == q.skipped;
  }

  lemma {:induction false} DeafForever(q: Party, ep: Epoch, other: Key, ds: seq<Doing>)
    requires Deaf(q, ep, other) && ep.chain.ChainOf? && other.ChainOf? && other != ep.chain
    requires forall d :: d in ds && d.Takes? ==> Belongs(d.l, ep) && Wireable(d.l)
    ensures q.Valid() && Deaf(DoAll(q, ds), ep, other)
    decreases |ds|
  {
    hide Decrypt, TryEncrypt, Belongs;
    if ds == [] {
    } else {
      var d := ds[0];
      match d {
        case Takes(l) => DeafToEpoch(q, ep, other, l);
        case Seals(c, plaintext, ad) => DeafSeals(q, ep, other, c, plaintext, ad);
      }
      DeafForever(Do(q, d), ep, other, ds[1..]);
    }
  }

  /**
   More than the first letter is lost: once a later letter was handed over before it, as happens when the relay has
   purged the first one, no letter of that chain opens any more, sent before or after, whatever the receiver takes or
   sends in between.
   */
  lemma {:induction false} OvertakingLosesChain(y: Sys, e: nat, n: nat, ds: seq<Doing>, l: Letter)
    requires Reachable(y) && Sent(y.log, e, n) && n > 0 && y.log[e].inject.Some? && (e, 0) !in y.decrypted
    requires Belongs(l, y.log[e]) && forall d :: d in ds && d.Takes? ==> Belongs(d.l, y.log[e]) && Wireable(d.l)
    ensures Runnable(y) && Receiver(DeliverStep(y, e, n).0, e).Valid() && Wireable(l)
    ensures Decrypt(DoAll(Receiver(DeliverStep(y, e, n).0, e), ds), l.pkt, l.ad).1.Failure?
  {
    hide Reachable, Runnable, Decrypt, LogInv, SideInv, RolesInv, Deaf, Belongs, DoAll;
    ReachableInv(y);
    LetterWireable(y, e, n);
    var who := y.log[e].creator.Other();
    var s, r := SideOf(y, who);
    OvertakenDeafens(who.Other(), y.Get(who), y.log, y.decrypted, s, r, e, n);
    var q, other := Receiver(DeliverStep(y, e, n).0, e), PlainChain(y.Get(who), y.log[e].dh);
    DeafForever(q, y.log[e], other, ds);
    DeafToEpoch(DoAll(q, ds), y.log[e], other, l);
  }

  /**
   And there will be no other chain: as long as the first letter of an answering chain is not decrypted, that chain is
   the newest, its addressee owes none, and no letter of it has been decrypted. A run in which it never arrives gets no
   further.
   */
  lemma {:induction false} LostHeadIsFinal(states: seq<Sys>, evs: seq<Event>, c: nat, t: nat, e: nat)
    requires Run(states, evs) && c <= t <= |evs|
    requires e < |states[c].log| && states[c].log[e].inject.Some? && (e, 0) !in states[t].decrypted
    ensures |states[t].log| == e + 1 && !Receiver(states[t], e).needsNewSendingChain
    ensures forall n: nat :: (e, n) !in states[t].decrypted
  {
    var y := states[t];
    hide Run, LogInv, RolesInv, PartyInv, SideInv;
    RunGrows(states, evs, c, t);
    RunKeeps(states, evs, t);
    var who := y.log[e].creator.Other();
    AnsweringChainBegun(y.log, e);
    AwaitedEpoch(y, who, e);
    var s, r := SideOf(y, who);
    NothingWithoutHead(who.Other(), y.Get(who), y.log, y.decrypted, s, r, e);
  }

  lemma AnsweringChainBegun(log: seq<Epoch>, e: nat)
    requires LogInv(log) && e < |log| && log[e].inject.Some?
    ensures Sent(log, e, 0)
  {
    assert EpochInv(log, e);
  }

  lemma NothingWithoutHead(peer: Who, p: Party, log: seq<Epoch>, decrypted: set<LetterId>, s: int, r: int, e: nat)
    requires SideInv(p, log, decrypted, s, r, peer) && e < |log| && log[e].creator == peer
    requires log[e].inject.Some? && (e, 0) !in decrypted
    ensures forall n: nat :: (e, n) !in decrypted
  {
    assert e > r;
    assert forall n: nat :: !Passed(p, log, r, peer, e, n);
  }

  // ---------------------------------------------------------------- a run in which it happens

  /** Alice has written, Bob has read it: Bob owes a chain. */
  ghost predicate FirstRead(y: Sys, bobPub: bytes, dh: bytes) {
    && |y.log| == 2 && y.log[0].dh == bobPub && y.log[1].dh == dh && |y.log[1].letters| == 1
    && y.log[1].creator == Alice && y.decrypted == {(1, 0)}
    && y.alice.Valid() && !y.alice.needsNewSendingChain && y.alice.dhRemote == Some(bobPub) && y.alice.chainRecv == Nil
    && y.alice.skipped == map[] && y.alice.nSend == 1 && y.alice.dhSelf == dh && y.alice.root == y.bob.root
    && y.bob.Valid() && y.bob.needsNewSendingChain && y.bob.dhRemote == Some(dh) && y.bob.chainRecv != Nil
    && y.bob.skipped == map[] && y.bob.nRecv == 1 && y.bob.nSend == 0 && y.bob.peerAdvertisedKem.None?
  }

  /** Alice has written, and nobody has read. */
  ghost predicate FirstSent(y: Sys, sk: Key, bobPub: bytes, dh: bytes) {
    && |y.log| == 2 && y.log[0].dh == bobPub && y.log[1].dh == dh && y.decrypted == {} && y.log[1].creator == Alice
    && y.log[0].letters == [] && y.log[1].letters == [FirstLetter(sk, bobPub, dh)] && y.log[1].inject.None?
    && y.alice == AliceStart(sk, bobPub, dh).(chainSend := NextOf(ChainOf(sk, Dh(dh, bobPub), None)), nSend := 1,
                                              msgsSinceInject := 1)
    && y.bob == BobStart(sk, bobPub)
  }

  function FirstLetter(sk: Key, bobPub: bytes, dh: bytes): Letter {
    var hdr := Header(dh, 0, 0, None, None);
    Letter(Packet(hdr, Sealed(MsgOf(ChainOf(sk, Dh(dh, bobPub), None)), AdWithHeader(hdr, []), [])), [], [])
  }

  lemma FirstSend(sk: Key, bobPub: bytes, dh: bytes, y0: Sys, s: Event)
    requires y0 == Start(sk, bobPub, dh, DEFAULT_MESSAGE_THRESHOLD, DEFAULT_MESSAGE_THRESHOLD)
    requires s == Send(Alice, Coins([], [], [], false), [], [])
    ensures Admissible(y0, s) && FirstSent(Step(y0, s), sk, bobPub, dh)
  {
    hide AdWithHeader;
  }

  lemma FirstDelivery(sk: Key, bobPub: bytes, dh: bytes, y1: Sys, d: Event)
    requires FirstSent(y1, sk, bobPub, dh) && RatchetKey(dh) && d == Deliver(1, 0)
    ensures Admissible(y1, d) && FirstRead(Step(y1, d), bobPub, dh)
  {
    hide AdWithHeader, LowOrder, DhStep, Decrypt;
    assert Dh(dh, bobPub) == Dh(bobPub, dh);
    var p, l := y1.bob, y1.log[1].letters[0];
    var (q1, e1) := DhStep(p, l.pkt.hdr);
    var (q2, e2) := SkipTo(q1, 0);
    PlainStep(p, l.pkt.hdr);
    DecryptNew(p, l.pkt, l.ad, p, None, q1, e1, q2, e2);
  }

  lemma FirstExchange(sk: Key, bobPub: bytes, dh: bytes, y0: Sys, s: Event, d: Event) returns (y: Sys)
    requires RatchetKey(bobPub) && RatchetKey(dh) && bobPub != dh
    requires y0 == Start(sk, bobPub, dh, DEFAULT_MESSAGE_THRESHOLD, DEFAULT_MESSAGE_THRESHOLD)
    requires s == Send(Alice, Coins([], [], [], false), [], []) && d == Deliver(1, 0)
    ensures Admissible(y0, s) && Admissible(Step(y0, s), d) && y == Step(Step(y0, s), d)
    ensures FirstRead(y, bobPub, dh)
  {
    hide *;
    FirstSend(sk, bobPub, dh, y0, s);
    FirstDelivery(sk, bobPub, dh, Step(y0, s), d);
    y := Step(Step(y0, s), d);
  }

  /**
   Bob has answered and advertised a key, and Alice has read it: Alice owes a chain that answers the advertisement.
   */
  ghost predicate AdvertisementRead(y: Sys, bobPub: bytes, dh: bytes, bobDh: bytes, kemPub: bytes) {
    && |y.log| == 3 && y.log[0].dh == bobPub && y.log[1].dh == dh && |y.log[1].letters| == 1 && y.log[2].dh == bobDh
    && y.decrypted == {(1, 0), (2, 0)} && y.log[2].creator == Bob
    && y.alice.Valid() && y.alice.needsNewSendingChain && y.alice.peerAdvertisedKem == Some(kemPub)
    && y.alice.nSend == 1
    && y.bob.Valid() && y.bob.dhRemote == Some(dh) && y.bob.chainRecv != Nil && y.bob.nRecv == 1
    && y.bob.skipped == map[]
  }

  lemma SecondExchange(bobPub: bytes, dh: bytes, bobDh: bytes, kemPub: bytes, kemCt: bytes, y0: Sys, s: Event, d: Event)
    returns (y: Sys)
    requires FirstRead(y0, bobPub, dh) && Runnable(y0)
    requires RatchetKey(bobDh) && |kemPub| == MLKEM_PUBLIC_SIZE && Normalised(kemPub)
             && |kemCt| == MLKEM_CIPHERTEXT_SIZE
    requires bobDh != bobPub && bobDh != dh
    requires s == Send(Bob, Coins(bobDh, kemPub, kemCt, true), [], []) && d == Deliver(2, 0)
    ensures Admissible(y0, s) && Admissible(Step(y0, s), d) && y == Step(Step(y0, s), d)
    ensures AdvertisementRead(y, bobPub, dh, bobDh, kemPub)
  {
    hide Header.Marshal;
    assert Dh(dh, bobDh) == Dh(bobDh, dh);
    var y1 := Step(y0, s);
    y := Step(y1, d);
  }

  /** Alice has answered the advertisement in two letters, none of which has arrived. */
  ghost predicate Answered(y: Sys, dh: bytes, aliceDh: bytes) {
    && |y.log| == 4 && y.log[3].dh == aliceDh && y.log[3].creator == Alice && y.log[3].inject.Some?
    && |y.log[3].letters| == 2
    && y.log[3].pn == 1 && y.log[1].dh == dh && |y.log[1].letters| == 1 && y.decrypted == {(1, 0), (2, 0)}
    && y.bob.dhRemote == Some(dh) && y.bob.chainRecv != Nil && y.bob.nRecv == 1 && y.bob.skipped == map[]
  }

  lemma TwoAnswers(bobPub: bytes, dh: bytes, bobDh: bytes, kemPub: bytes, aliceDh: bytes, kemCt: bytes,
                   y0: Sys, s: Event, t: Event)
    returns (y: Sys)
    requires AdvertisementRead(y0, bobPub, dh, bobDh, kemPub) && Runnable(y0)
    requires RatchetKey(aliceDh) && |kemPub| == MLKEM_PUBLIC_SIZE && Normalised(kemPub)
             && |kemCt| == MLKEM_CIPHERTEXT_SIZE
    requires aliceDh != bobPub && aliceDh != dh && aliceDh != bobDh
    requires s == Send(Alice, Coins(aliceDh, kemPub, kemCt, false), [], [])
             && t == Send(Alice, Coins([], [], [], false), [], [])
    ensures Admissible(y0, s) && Admissible(Step(y0, s), t) && y == Step(Step(y0, s), t)
    ensures Answered(y, dh, aliceDh)
  {
    hide Header.Marshal;
    var y1 := Step(y0, s);
    y := Step(y1, t);
  }

  lemma AnsweredReachable(
      sk: Key, bobPub: bytes, dh: bytes, bobDh: bytes, aliceDh: bytes, kemPub: bytes, kemCt: bytes) returns (y: Sys)
    requires RatchetKey(bobPub) && RatchetKey(dh) && RatchetKey(bobDh) && RatchetKey(aliceDh)
    requires |kemPub| == MLKEM_PUBLIC_SIZE && Normalised(kemPub) && |kemCt| == MLKEM_CIPHERTEXT_SIZE
    requires bobPub != dh && bobDh != bobPub && bobDh != dh && aliceDh != bobPub && aliceDh != dh && aliceDh != bobDh
    ensures Reachable(y) && Answered(y, dh, aliceDh)
  {
    var y0 := Start(sk, bobPub, dh, DEFAULT_MESSAGE_THRESHOLD, DEFAULT_MESSAGE_THRESHOLD);
    assert Fresh(y0);
    FreshReachable(y0);
    hide *;
    var s1, d1 := Send(Alice, Coins([], [], [], false), [], []), Deliver(1, 0);
    var s2, d2 := Send(Bob, Coins(bobDh, kemPub, kemCt, true), [], []), Deliver(2, 0);
    var s3 := Send(Alice, Coins(aliceDh, kemPub, kemCt, false), [], []);
    var s4 := Send(Alice, Coins([], [], [], false), [], []);
    var y1 := FirstExchange(sk, bobPub, dh, y0, s1, d1);
    TwoSteps(y0, s1, d1);
    ReachableInv(y1);
    var y2 := SecondExchange(bobPub, dh, bobDh, kemPub, kemCt, y1, s2, d2);
    TwoSteps(y1, s2, d2);
    ReachableInv(y2);
    y := TwoAnswers(bobPub, dh, bobDh, kemPub, aliceDh, kemCt, y2, s3, s4);
    TwoSteps(y2, s3, s4);
  }

  /**
   The run exists, whatever the keys: in a reachable state a letter is within the skip window and was never delivered,
   and yet handing it over before the first letter of its chain fails and loses the first letter, which would have
   opened.
   */
  lemma {:induction false} OvertakingHappens(
      sk: Key, bobPub: bytes, dh: bytes, bobDh: bytes, aliceDh: bytes, kemPub: bytes, kemCt: bytes)
    returns (y: Sys)
    requires RatchetKey(bobPub) && RatchetKey(dh) && RatchetKey(bobDh) && RatchetKey(aliceDh)
    requires |kemPub| == MLKEM_PUBLIC_SIZE && Normalised(kemPub) && |kemCt| == MLKEM_CIPHERTEXT_SIZE
    requires bobPub != dh && bobDh != bobPub && bobDh != dh && aliceDh != bobPub && aliceDh != dh && aliceDh != bobDh
    ensures Reachable(y) && Runnable(y) && Sent(y.log, 3, 1) && (3, 1) !in y.decrypted && (3, 0) !in y.decrypted
    ensures InWindow(y.bob, y.log[3].letters[1].pkt.hdr)
    ensures DeliverStep(y, 3, 0).1.Success?
    ensures var (y', res) := DeliverStep(y, 3, 1); res.Failure? && Runnable(y') && DeliverStep(y', 3, 0).1.Failure?
  {
    hide *;
    y := AnsweredReachable(sk, bobPub, dh, bobDh, aliceDh, kemPub, kemCt);
    HeadWouldOpen(y, dh, aliceDh);
    OvertakingLosesHead(y, 3, 1);
  }

  lemma TwoSteps(y: Sys, s: Event, t: Event)
    requires Reachable(y) && Admissible(y, s) && Admissible(Step(y, s), t)
    ensures Reachable(Step(Step(y, s), t))
  {
    hide *;
    StepReachable(y, s);
    StepReachable(Step(y, s), t);
  }

  lemma HeadWouldOpen(y: Sys, dh: bytes, aliceDh: bytes)
    requires Answered(y, dh, aliceDh) && Reachable(y) && dh != aliceDh
    ensures Runnable(y) && Sent(y.log, 3, 0) && Sent(y.log, 3, 1) && y.log[3].inject.Some?
    ensures (3, 0) !in y.decrypted && (3, 1) !in y.decrypted && InWindow(y.bob, y.log[3].letters[1].pkt.hdr)
    ensures DeliverStep(y, 3, 0).1.Success?
  {
    hide Reachable, Runnable, RolesInv, Header.Marshal, DeliverStep;
    ReachableInv(y);
    assert EpochInv(y.log, 3) && LetterInv(y.log[3], 0) && LetterInv(y.log[3], 1);
    DecryptsExactly(y, 3, 0);
  }

  // ---------------------------------------------------------------- repeated letters

  /** The letter at the receiver's position opens; after one step too many, its key is gone. */
  lemma NextLost(p: Party, q: Party, ep: Epoch, plaintext: bytes, ad: bytes)
    requires p.Valid() && q == TakeNext(p) && ep.chain.ChainOf? && ep.pn < U32
    requires p.dhRemote == Some(ep.dh) && p.chainRecv == Iter(ep.chain, p.nRecv) && (ep.dh, p.nRecv) !in p.skipped
    ensures Decrypt(p, SealedAt(ep, p.nRecv, plaintext, ad), ad).1 == Success(plaintext)
    ensures Decrypt(q, SealedAt(ep, p.nRecv, plaintext, ad), ad).1.Failure?
  {
    hide AdWithHeader;
    var pkt := SealedAt(ep, p.nRecv, plaintext, ad);
    StrayNotNil(ep.chain, p.nRecv);
    if p.nRecv + 1 < U32 {
      IterInjective(ep.chain, p.nRecv + 1, ep.chain, p.nRecv);
      BehindSteps(q, pkt, ad);
    } else {
      StrayNotNil(ep.chain, p.nRecv + 1);
      assert SkipTo(q, p.nRecv).1 == Some(SkipTooLarge);
    }
  }

  /** For a receiver on the chain: a letter it has read steps the chain all the same. */
  lemma RepeatSteps(peer: Who, p: Party, log: seq<Epoch>, decrypted: set<LetterId>, s: int, e: nat, n: nat,
                    q: Party, res: Result<bytes, RatchetError>)
    requires LogInv(log) && SideInv(p, log, decrypted, s, e, peer)
    requires (e, n) in decrypted && Sent(log, e, n) && log[e].creator == peer && Wireable(log[e].letters[n])
    requires (q, res) == Decrypt(p, log[e].letters[n].pkt, log[e].letters[n].ad)
    ensures p.Valid() && q == TakeNext(p) && log[e].chain.ChainOf? && log[e].pn < U32
    ensures p.dhRemote == Some(log[e].dh) && p.chainRecv == Iter(log[e].chain, p.nRecv)
            && (log[e].dh, p.nRecv) !in p.skipped
  {
    assert Passed(p, log, e, peer, e, n);
    assert EpochInv(log, e) && LetterInv(log[e], n);
    NothingFiledAhead(peer, p, log, decrypted, e);
    var l := log[e].letters[n];
    assert p.dhRemote == Some(log[e].dh) && n < p.nRecv && (log[e].dh, n) !in p.skipped && p.Valid();
    hide *;
    BehindSteps(p, l.pkt, l.ad);
  }

  /** No key is filed for the receiver's own position or beyond. */
  lemma NothingFiledAhead(peer: Who, p: Party, log: seq<Epoch>, decrypted: set<LetterId>, r: int)
    requires LogInv(log) && MailInv(p, log, decrypted, r, peer) && 0 <= r < |log|
    ensures forall i: nat :: i >= p.nRecv ==> (log[r].dh, i) !in p.skipped
  {
    forall i: nat | i >= p.nRecv
      ensures (log[r].dh, i) !in p.skipped
    {
      assert forall f: nat :: Passed(p, log, r, peer, f, i) && log[f].dh == log[r].dh ==> f == r;
    }
  }

  /**
   In any reachable state: when a letter of the chain the receiver is on is handed over again, it fails, and the next
   letter of the chain is lost, whether it was sent already or is sent only now: it would have opened, and does not
   afterwards.
   */
  lemma {:induction false} RepeatingLosesNext(y: Sys, e: nat, n: nat, plaintext: bytes, ad: bytes)
    requires Reachable(y) && Sent(y.log, e, n) && (e, n) in y.decrypted
    requires Receiver(y, e).dhRemote == Some(y.log[e].dh)
    ensures Runnable(y) && DeliverStep(y, e, n).1.Failure?
    ensures var p, q := Receiver(y, e), Receiver(DeliverStep(y, e, n).0, e);
      var pkt := SealedAt(y.log[e], p.nRecv, plaintext, ad);
      && p.Valid() && q.Valid() && pkt.hdr.pn < U32 && pkt.hdr.n < U32
      && Decrypt(p, pkt, ad).1 == Success(plaintext) && Decrypt(q, pkt, ad).1.Failure?
  {
    hide Reachable, Runnable, Decrypt, RolesInv, SideInv, LogInv, SealedAt;
    ReachableInv(y);
    DecryptsExactly(y, e, n);
    LetterWireable(y, e, n);
    var who := y.log[e].creator.Other();
    var p, l := y.Get(who), y.log[e].letters[n];
    var s, r := SideOf(y, who);
    ReceivesOn(who.Other(), p, y.log, y.decrypted, s, r, e);
    var (q, res) := Decrypt(p, l.pkt, l.ad);
    RepeatSteps(who.Other(), p, y.log, y.decrypted, s, e, n, q, res);
    NextLost(p, q, y.log[e], plaintext, ad);
    SealedHeader(y.log[e], p.nRecv, plaintext, ad);
  }

  lemma SealedHeader(ep: Epoch, m: nat, plaintext: bytes, ad: bytes)
    ensures SealedAt(ep, m, plaintext, ad).hdr == HeaderAt(ep, m)
  {
  }

  /** The epoch a receiver is on, by its key. */
  lemma ReceivesOn(peer: Who, p: Party, log: seq<Epoch>, decrypted: set<LetterId>, s: int, r: int, e: nat)
    requires LogInv(log) && SideInv(p, log, decrypted, s, r, peer) && e < |log| && p.dhRemote == Some(log[e].dh)
    ensures r == e && p.Valid()
  {
    SameSlot(log, e, r);
  }

  /** Every letter in the log is what SealedAt says. */
  lemma LettersSealed(y: Sys, e: nat, m: nat)
    requires Reachable(y) && Sent(y.log, e, m)
    ensures var l := y.log[e].letters[m]; l.pkt == SealedAt(y.log[e], m, l.plaintext, l.ad)
  {
    hide Reachable, RolesInv, AdWithHeader;
    ReachableInv(y);
    assert EpochInv(y.log, e) && LetterInv(y.log[e], m);
  }

  /** And so is the next one, if its creator is still on that chain. */
  lemma NextSealed(y: Sys, e: nat, c: Coins, plaintext: bytes, ad: bytes)
    requires Reachable(y) && 0 < e < |y.log| <= e + 2 && !y.Get(y.log[e].creator).needsNewSendingChain
    ensures y.Get(y.log[e].creator).Valid()
    ensures Encrypt(y.Get(y.log[e].creator), c, plaintext, ad).1
         == SealedAt(y.log[e], |y.log[e].letters|, plaintext, ad)
  {
    hide Reachable, RolesInv, MailInv, HeadsInv, AdWithHeader, Encrypt;
    ReachableInv(y);
    var p := y.Get(y.log[e].creator);
    var s, r := SideOf(y, y.log[e].creator);
    Creators(y.log, e);
    Creators(y.log, s);
    ChainNotNil(y.log, e, p.nSend);
    var (q, pkt) := Encrypt(p, c, plaintext, ad);
    SendSameEncrypt(p, y.log, s, r, c, plaintext, ad, q, pkt);
  }

  // ---------------------------------------------------------------- letters of an older chain, repeated

  /** A header that is new to the receiver's chain is refused before the root moves. */
  predicate RefusedInTime(p: Party, hdr: Header) {
    hdr.pn - p.nRecv > MAX_SKIP || (hdr.mlkemCiphertext.Some? && p.selfPendingKem.None?)
  }

  /**
   The receiving chain, and the root, that a receiver moves to when it takes a header for the start of a new chain.
   */
  function StrayChain(p: Party, hdr: Header): Key {
    ChainOf(p.root, Dh(p.dhSelf, hdr.dhPub), Answer(p, hdr))
  }

  function StrayRoot(p: Party, hdr: Header): Key {
    RootOf(p.root, Dh(p.dhSelf, hdr.dhPub), Answer(p, hdr))
  }

  /** A receiver that has ratcheted to a chain of its past; `filed` are the keys it had stored by then. */
  ghost predicate Astray(q: Party, p: Party, hdr: Header, filed: map<SkippedKey, Key>) {
    && q.Valid() && q.dhRemote == Some(hdr.dhPub) && q.needsNewSendingChain && q.root == StrayRoot(p, hdr)
    && q.chainRecv == Iter(StrayChain(p, hdr), q.nRecv)
    && forall k :: k in q.skipped ==>
         || (k in filed && q.skipped[k] == filed[k])
         || q.skipped[k] == MsgOf(Iter(StrayChain(p, hdr), k.1))
  }

  /** Taking a header for the start of a new chain, after the old one was read to its end. */
  lemma TakenForNew(o: Party, p: Party, hdr: Header, q: Party, e: Option<RatchetError>)
    requires o.Valid() && hdr.n < U32 && RatchetKey(hdr.dhPub)
    requires !BadKemKey(hdr.mlkemPub) && !BadCiphertext(hdr.mlkemCiphertext)
    requires o == p.(chainRecv := o.chainRecv, nRecv := o.nRecv, skipped := o.skipped)
    requires hdr.mlkemCiphertext.Some? ==> p.selfPendingKem.Some?
    requires (q, e) == SkipTo(DhStep(o, hdr).0, hdr.n)
    ensures DhStep(o, hdr).1.None? && Astray(q, p, hdr, o.skipped)
    ensures if hdr.n > MAX_SKIP then e == Some(SkipTooLarge) else e.None? && q.nRecv == hdr.n
  {
    hide LowOrder, BadKemKey;
    var ck := StrayChain(p, hdr);
    forall k
      ensures k in Stored(hdr.dhPub, ck, 0, hdr.n) ==> Stored(hdr.dhPub, ck, 0, hdr.n)[k] == MsgOf(Iter(ck, k.1))
    {
      StoredAt(hdr.dhPub, ck, 0, hdr.n, k);
    }
  }

  /** What a header that is new to the chain, and whose key is not filed, does to a receiver. */
  lemma OldHeader(p: Party, pkt: Packet, ad: bytes, q: Party, res: Result<bytes, RatchetError>)
    requires p.Valid() && pkt.hdr.n < U32 && pkt.hdr.pn < U32 && RatchetKey(pkt.hdr.dhPub)
    requires !BadKemKey(pkt.hdr.mlkemPub) && !BadCiphertext(pkt.hdr.mlkemCiphertext)
    requires p.dhRemote.Some? && p.dhRemote.value != pkt.hdr.dhPub && p.chainRecv != Nil
    requires (pkt.hdr.dhPub, pkt.hdr.n) !in p.skipped
    requires (q, res) == Decrypt(p, pkt, ad)
    ensures RefusedInTime(p, pkt.hdr) ==>
              && q == SkipTo(p, pkt.hdr.pn).0
              && res == Failure(if pkt.hdr.pn - p.nRecv > MAX_SKIP then SkipTooLarge else UnexpectedKEMCT)
    ensures !RefusedInTime(p, pkt.hdr) ==>
              && Astray(q, p, pkt.hdr, SkipTo(p, pkt.hdr.pn).0.skipped)
              && (pkt.hdr.n > MAX_SKIP ==> res == Failure(SkipTooLarge))
              && (pkt.hdr.n <= MAX_SKIP && res.Failure? ==> res == Failure(AuthenticationFailed))
  {
    hide Header.Marshal, LowOrder, BadKemKey, Astray;
    var hdr := pkt.hdr;
    var (o, e0) := SkipTo(p, hdr.pn);
    SkipToFrame(p, hdr.pn);
    if !RefusedInTime(p, hdr) {
      var (q1, e1) := SkipTo(DhStep(o, hdr).0, hdr.n);
      TakenForNew(o, p, hdr, q1, e1);
      if hdr.n <= MAX_SKIP {
        StillAstray(q1, p, hdr, o.skipped);
      }
    }
  }

  lemma StillAstray(q: Party, p: Party, hdr: Header, filed: map<SkippedKey, Key>)
    requires Astray(q, p, hdr, filed) && q.nRecv + 1 < U32
    ensures Astray(TakeNext(q), p, hdr, filed)
  {
  }

  lemma DhOutsider(a: bytes, b: bytes, c: bytes, d: bytes)
    requires d != a && d != b
    ensures Dh(a, b) != Dh(c, d)
  {
    assert d in Dh(c, d).ends && d !in Dh(a, b).ends;
  }

  /** No epoch of the log was derived as the stray one is: its two keys are not neighbours. */
  lemma StrayIsNoEpoch(p: Party, log: seq<Epoch>, s: int, r: int, e: nat, hdr: Header, f: nat)
    requires LogInv(log) && PartyInv(p, log, s, r) && e < r && f < |log| && hdr.dhPub == log[e].dh
    ensures log[f].root != StrayRoot(p, hdr)
    ensures f > 0 ==> log[f].chain != StrayChain(p, hdr)
  {
    var t := Max(s, r);
    RootDepth(log, t);
    RootDepth(log, f);
    if f > 0 {
      assert EpochInv(log, f);
      RootDepth(log, f - 1);
      if f - 1 == t { DhOutsider(log[f].dh, log[f - 1].dh, p.dhSelf, log[e].dh); }
    }
  }

  /** A receiver gone astray opens no letter of the log but those whose keys were filed. */
  lemma AstrayOpensFiled(q: Party, p: Party, log: seq<Epoch>, s: int, r: int, e: nat, hdr: Header,
                         filed: map<SkippedKey, Key>, f: nat, m: nat, pkt: Packet, ad: bytes)
    requires LogInv(log) && PartyInv(p, log, s, r) && e < r && hdr.dhPub == log[e].dh && Astray(q, p, hdr, filed)
    requires 0 < f < |log| && m < U32 && pkt.hdr == HeaderAt(log[f], m) && pkt.hdr.pn < U32
    requires pkt.box.key == MessageKey(log[f], m)
    requires (log[f].dh, m) !in filed
    ensures Decrypt(q, pkt, ad).1.Failure?
  {
    StrayIsNoEpoch(p, log, s, r, e, hdr, f);
    StrayIsNoEpoch(p, log, s, r, e, hdr, f - 1);
    assert log[f].chain.ChainOf? && log[f].chain.salt == log[f - 1].root by { assert EpochInv(log, f); }
    hide LogInv, PartyInv, Decrypt, Header.Marshal, StrayRoot;
    var chain, stray := log[f].chain, StrayChain(p, hdr);
    if Decrypt(q, pkt, ad).1.Success? {
      if (log[f].dh, m) in q.skipped {
        IterInjective(chain, m, stray, m);
        FiledKeyFails(q, pkt, ad);
      } else if IsNewRatchetKey(q, pkt.hdr) {
        StaleKeyFails(q, pkt, ad, chain);
      } else {
        SameChainKey(q, pkt, ad, stray);
        StrayNotNil(stray, q.nRecv);
        var i: nat :| pkt.box.key == MsgOf(Iter(stray, i));
        IterInjective(chain, m, stray, i);
      }
    }
  }

  lemma StrayNotNil(chain: Key, n: nat)
    requires chain.ChainOf?
    ensures Iter(chain, n) != Nil
  {
  }

  lemma FiledKeyFails(q: Party, pkt: Packet, ad: bytes)
    requires q.Valid() && pkt.hdr.pn < U32 && pkt.hdr.n < U32 && (pkt.hdr.dhPub, pkt.hdr.n) in q.skipped
    requires pkt.box.key != q.skipped[(pkt.hdr.dhPub, pkt.hdr.n)]
    ensures Decrypt(q, pkt, ad).1.Failure?
  {
    hide Advance, AdWithHeader;
  }

  /** Adopting a new chain does not depend on the old one. */
  lemma DhStepFrame(o: Party, o': Party, hdr: Header)
    requires o.Valid() && o'.Valid() && o' == o.(chainRecv := o'.chainRecv, nRecv := o'.nRecv, skipped := o'.skipped)
    ensures DhStep(o', hdr).1 == DhStep(o, hdr).1
    ensures DhStep(o, hdr).1.None? ==> DhStep(o', hdr).0 == DhStep(o, hdr).0.(skipped := o'.skipped)
  {
    hide LowOrder, BadKemKey;
  }

  /** Whether a skip is refused, and where it leads, does not depend on what was filed before. */
  lemma SkipToSameChain(o: Party, o': Party, until: nat)
    requires o.Valid() && o'.Valid() && until < U32 && o' == o.(skipped := o'.skipped)
    ensures SkipTo(o', until).1 == SkipTo(o, until).1
    ensures SkipTo(o', until).0.chainRecv == SkipTo(o, until).0.chainRecv
  {
  }

  /** SkipHarmless for a header that starts a new chain: whatever was read of the old one, the new one is the same. */
  lemma SkipHarmlessNew(p: Party, q: Party, pkt: Packet, ad: bytes)
    requires p.Valid() && q.Valid() && p.dhRemote.Some? && p.chainRecv != Nil && p.nRecv <= q.nRecv
    requires q == p.(chainRecv := q.chainRecv, nRecv := q.nRecv, skipped := q.skipped)
    requires pkt.hdr.pn < U32 && pkt.hdr.n < U32 && IsNewRatchetKey(p, pkt.hdr)
    requires (pkt.hdr.dhPub, pkt.hdr.n) !in p.skipped && (pkt.hdr.dhPub, pkt.hdr.n) !in q.skipped
    requires Decrypt(p, pkt, ad).1.Success?
    ensures Decrypt(q, pkt, ad).1 == Decrypt(p, pkt, ad).1
  {
    hide Decrypt, DhStep, AdWithHeader;
    var hdr := pkt.hdr;
    var (o, e0) := SkipTo(p, hdr.pn);
    var (q1, e1) := DhStep(o, hdr);
    var (q2, e2) := SkipTo(q1, hdr.n);
    var (o', e0') := SkipTo(q, hdr.pn);
    var (q1', e1') := DhStep(o', hdr);
    var (q2', e2') := SkipTo(q1', hdr.n);
    SkipToFrame(p, hdr.pn);
    SkipToFrame(q, hdr.pn);
    assert e0.None? ==> e0'.None?;
    hide *;
    DecryptNew(p, pkt, ad, o, e0, q1, e1, q2, e2);
    DecryptNew(q, pkt, ad, o', e0', q1', e1', q2', e2');
    DhStepFrame(o, o', hdr);
    SkipToSameChain(q1, q1', hdr.n);
  }

  /** SkipHarmless for a header on the chain itself, ahead of the receiver. */
  lemma SkipHarmlessAhead(p: Party, until: nat, q: Party, pkt: Packet, ad: bytes)
    requires p.Valid() && p.nRecv <= until < U32 && p.dhRemote == Some(pkt.hdr.dhPub) && p.chainRecv != Nil
    requires Iter(p.chainRecv, until - p.nRecv) != Nil
    requires q == p.(chainRecv := Iter(p.chainRecv, until - p.nRecv), nRecv := until,
                     skipped := p.skipped + Stored(pkt.hdr.dhPub, p.chainRecv, p.nRecv, until))
    requires pkt.hdr.pn < U32 && p.nRecv <= pkt.hdr.n < U32 && (pkt.hdr.dhPub, pkt.hdr.n) !in p.skipped
    requires Decrypt(p, pkt, ad).1.Success?
    ensures Decrypt(q, pkt, ad).1 == Decrypt(p, pkt, ad).1
  {
    hide Header.Marshal, Stored;
    var n := pkt.hdr.n;
    StoredAt(pkt.hdr.dhPub, p.chainRecv, p.nRecv, until, (pkt.hdr.dhPub, n));
    if n >= until { IterAdd(p.chainRecv, until - p.nRecv, n - until); }
  }

  /** Reading ahead on the current chain costs no letter: what opened before opens after. */
  lemma SkipHarmless(p: Party, until: nat, q: Party, pkt: Packet, ad: bytes, chain: Key)
    requires p.Valid() && until < U32 && q == SkipTo(p, until).0 && p.dhRemote.Some?
    requires chain.ChainOf? && p.chainRecv == Iter(chain, p.nRecv)
    requires pkt.hdr.pn < U32 && pkt.hdr.n < U32
    requires forall i: nat :: i >= p.nRecv ==> (p.dhRemote.value, i) !in p.skipped
    requires pkt.hdr.dhPub == p.dhRemote.value ==> pkt.box.key == MsgOf(Iter(chain, pkt.hdr.n))
    requires Decrypt(p, pkt, ad).1.Success?
    ensures Decrypt(q, pkt, ad).1 == Decrypt(p, pkt, ad).1
  {
    var slot := (pkt.hdr.dhPub, pkt.hdr.n);
    StrayNotNil(chain, p.nRecv);
    if q != p {
      StoredAt(p.dhRemote.value, p.chainRecv, p.nRecv, until, slot);
      IterAdd(chain, p.nRecv, until - p.nRecv);
      StrayNotNil(chain, until);
      if slot in p.skipped {
        FiledSame(p, q, pkt, ad);
      } else if IsNewRatchetKey(p, pkt.hdr) {
        hide Decrypt;
        SkipHarmlessNew(p, q, pkt, ad);
      } else {
        if pkt.hdr.n < p.nRecv {
          BehindSteps(p, pkt, ad);
          IterInjective(chain, p.nRecv, chain, pkt.hdr.n);
        }
        hide Decrypt;
        SkipHarmlessAhead(p, until, q, pkt, ad);
      }
    }
  }

  lemma FiledSame(p: Party, q: Party, pkt: Packet, ad: bytes)
    requires p.Valid() && q.Valid() && pkt.hdr.pn < U32 && pkt.hdr.n < U32
    requires (pkt.hdr.dhPub, pkt.hdr.n) in p.skipped && (pkt.hdr.dhPub, pkt.hdr.n) in q.skipped
    requires q.skipped[(pkt.hdr.dhPub, pkt.hdr.n)] == p.skipped[(pkt.hdr.dhPub, pkt.hdr.n)]
    ensures Decrypt(q, pkt, ad).1 == Decrypt(p, pkt, ad).1
  {
    hide Advance, AdWithHeader;
  }

  /** The receiver of a letter of an older chain, decrypted before: what the invariant says about the two. */
  lemma OldLetter(peer: Who, p: Party, log: seq<Epoch>, decrypted: set<LetterId>, s: int, r: int, e: nat, n: nat)
    requires LogInv(log) && SideInv(p, log, decrypted, s, r, peer)
    requires Sent(log, e, n) && (e, n) in decrypted && log[e].creator == peer
    requires p.dhRemote.Some? && p.dhRemote.value != log[e].dh
    ensures p.Valid() && e < r < |log| && p.dhRemote.value == log[r].dh && p.chainRecv != Nil
    ensures log[r].chain.ChainOf? && p.chainRecv == Iter(log[r].chain, p.nRecv)
    ensures (log[e].dh, n) !in p.skipped && forall i: nat :: i >= p.nRecv ==> (log[r].dh, i) !in p.skipped
    ensures log[e].letters[n].pkt.hdr == HeaderAt(log[e], n)
    ensures RatchetKey(log[e].dh)
    ensures !BadKemKey(HeaderAt(log[e], n).mlkemPub) && !BadCiphertext(HeaderAt(log[e], n).mlkemCiphertext)
  {
    assert Passed(p, log, r, peer, e, n);
    assert EpochInv(log, e) && LetterInv(log[e], n) && EpochInv(log, r);
    ChainNotNil(log, r, p.nRecv);
    NothingFiledAhead(peer, p, log, decrypted, r);
  }

  /** The receiver of the letters of an epoch. */
  function Receiver(y: Sys, e: nat): Party
    requires e < |y.log|
  {
    y.Get(y.log[e].creator.Other())
  }

  /** Letter (e, n) was decrypted, and its receiver has moved on to a later chain. */
  ghost predicate OldRepeat(y: Sys, e: nat, n: nat) {
    && Sent(y.log, e, n) && (e, n) in y.decrypted
    && Receiver(y, e).dhRemote.Some? && Receiver(y, e).dhRemote.value != y.log[e].dh
  }

  /**
   In any reachable state: a letter of an older chain, handed over again, fails. The receiver's root key stays the same
   if and only if the header is refused in time, and then all that happens is that it reads ahead on its current chain.
   Otherwise it adopts the old ratchet key again, moves to a root key that the conversation does not have, and owes a
   chain on it.
   */
  lemma {:induction false} RepeatingOldChain(y: Sys, e: nat, n: nat)
    requires Reachable(y) && OldRepeat(y, e, n)
    ensures Runnable(y)
    ensures var p, hdr := Receiver(y, e), y.log[e].letters[n].pkt.hdr;
      var (y', res) := DeliverStep(y, e, n);
      var q := Receiver(y', e);
      && y' == y.Put(y.log[e].creator.Other(), q) && q.Valid()
      && (q.root == p.root <==> RefusedInTime(p, hdr))
      && (RefusedInTime(p, hdr) ==>
            && q == SkipTo(p, hdr.pn).0
            && res == Failure(if hdr.pn - p.nRecv > MAX_SKIP then SkipTooLarge else UnexpectedKEMCT))
      && (!RefusedInTime(p, hdr) ==>
            && q.root == StrayRoot(p, hdr) && (forall f :: 0 <= f < |y.log| ==> y.log[f].root != q.root)
            && q.dhRemote == Some(y.log[e].dh) && q.needsNewSendingChain
            && res == Failure(if hdr.n > MAX_SKIP then SkipTooLarge else AuthenticationFailed))
  {
    hide Reachable, Runnable, Decrypt, LogInv, SideInv, RolesInv, RefusedInTime, StrayRoot, MayDeliver;
    ReachableInv(y);
    DecryptsExactly(y, e, n);
    assert !MayDeliver(y, e, n) by { hide *; DecryptedOnce(y, e, n); }
    var who := y.log[e].creator.Other();
    var p, l := y.Get(who), y.log[e].letters[n];
    var s, r := SideOf(y, who);
    OldLetter(who.Other(), p, y.log, y.decrypted, s, r, e, n);
    LetterWireable(y, e, n);
    var (q, res) := Decrypt(p, l.pkt, l.ad);
    OldHeader(p, l.pkt, l.ad, q, res);
    SkipToFrame(p, l.pkt.hdr.pn);
    RootInLog(p, y.log, s, r, who.Other(), y.decrypted);
    forall f: nat | f < |y.log|
      ensures y.log[f].root != StrayRoot(p, l.pkt.hdr)
    {
      SideParty(p, y.log, y.decrypted, s, r, who.Other());
      StrayIsNoEpoch(p, y.log, s, r, e, l.pkt.hdr, f);
    }
  }

  lemma LetterWireable(y: Sys, e: nat, n: nat)
    requires Runnable(y) && Sent(y.log, e, n)
    ensures Wireable(y.log[e].letters[n])
  {
  }

  lemma DecryptedOnce(y: Sys, e: nat, n: nat)
    requires (e, n) in y.decrypted
    ensures !MayDeliver(y, e, n)
  {
  }

  lemma SideParty(p: Party, log: seq<Epoch>, decrypted: set<LetterId>, s: int, r: int, peer: Who)
    requires SideInv(p, log, decrypted, s, r, peer)
    ensures PartyInv(p, log, s, r)
  {
  }

  /** A repeat that is refused in time costs no letter: whatever of the peer's would have opened still does. */
  lemma {:induction false} RefusedRepeatHarmless(y: Sys, e: nat, n: nat, f: nat, m: nat)
    requires Reachable(y) && OldRepeat(y, e, n) && RefusedInTime(Receiver(y, e), y.log[e].letters[n].pkt.hdr)
    requires Sent(y.log, f, m) && y.log[f].creator == y.log[e].creator
    ensures Runnable(y) && Runnable(DeliverStep(y, e, n).0)
    ensures DeliverStep(y, f, m).1.Success? ==> DeliverStep(DeliverStep(y, e, n).0, f, m).1 == DeliverStep(y, f, m).1
  {
    hide Reachable, Runnable, Decrypt, LogInv, SideInv, RolesInv, RefusedInTime, StrayRoot;
    ReachableInv(y);
    RepeatingOldChain(y, e, n);
    var y' := DeliverStep(y, e, n).0;
    RunnablePut(y, y.log[e].creator.Other(), Receiver(y', e), y');
    var who := y.log[e].creator.Other();
    var p, l := y.Get(who), y.log[f].letters[m];
    var s, r := SideOf(y, who);
    OldLetter(who.Other(), p, y.log, y.decrypted, s, r, e, n);
    LetterWireable(y, e, n);
    LetterWireable(y, f, m);
    HonestLetter(y.log, f, m, r);
    if DeliverStep(y, f, m).1.Success? {
      SkipHarmless(p, y.log[e].letters[n].pkt.hdr.pn, Receiver(y', e), l.pkt, l.ad, y.log[r].chain);
    }
  }

  lemma RunnablePut(y: Sys, who: Who, q: Party, y': Sys)
    requires Runnable(y) && q.Valid() && y' == y.Put(who, q)
    ensures Runnable(y')
  {
  }

  /** A letter's header names its chain, and its box is sealed under its own position's key. */
  lemma HonestLetter(log: seq<Epoch>, f: nat, m: nat, r: nat)
    requires LogInv(log) && Sent(log, f, m) && r < |log|
    ensures log[f].letters[m].pkt.hdr == HeaderAt(log[f], m) && log[f].letters[m].pkt.box.key == MessageKey(log[f], m)
    ensures log[f].letters[m].pkt.hdr.dhPub == log[r].dh ==> f == r
  {
    assert EpochInv(log, f) && LetterInv(log[f], m);
  }

  /**
   After a repeat that is not refused in time, the receiver opens nothing of the peer's any more, sent before or after
   on the chains there are, except letters whose keys it had filed.
   */
  lemma {:induction false} StrayRepeatDeafens(y: Sys, e: nat, n: nat, f: nat, m: nat, pkt: Packet, ad: bytes)
    requires Reachable(y) && OldRepeat(y, e, n) && !RefusedInTime(Receiver(y, e), y.log[e].letters[n].pkt.hdr)
    requires 0 < f < |y.log| && m < U32 && pkt.hdr == HeaderAt(y.log[f], m) && pkt.box.key == MessageKey(y.log[f], m)
    ensures Runnable(y) && pkt.hdr.pn < U32 && Receiver(y, e).Valid()
    ensures var q := Receiver(DeliverStep(y, e, n).0, e);
      && q.Valid()
      && (Decrypt(q, pkt, ad).1.Success? ==>
            (y.log[f].dh, m) in SkipTo(Receiver(y, e), y.log[e].letters[n].pkt.hdr.pn).0.skipped)
  {
    hide Reachable, Runnable, Decrypt, LogInv, SideInv, RolesInv, RefusedInTime, StrayRoot, Astray;
    ReachableInv(y);
    RepeatingOldChain(y, e, n);
    var who := y.log[e].creator.Other();
    var p, l := y.Get(who), y.log[e].letters[n];
    var s, r := SideOf(y, who);
    OldLetter(who.Other(), p, y.log, y.decrypted, s, r, e, n);
    LetterWireable(y, e, n);
    SideParty(p, y.log, y.decrypted, s, r, who.Other());
    EpochPn(y.log, f);
    var (q, res) := Decrypt(p, l.pkt, l.ad);
    OldHeader(p, l.pkt, l.ad, q, res);
    var filed := SkipTo(p, l.pkt.hdr.pn).0.skipped;
    if (y.log[f].dh, m) !in filed {
      AstrayOpensFiled(q, p, y.log, s, r, e, l.pkt.hdr, filed, f, m, pkt, ad);
    }
  }

  lemma EpochPn(log: seq<Epoch>, f: nat)
    requires LogInv(log) && f < |log|
    ensures log[f].pn < U32
  {
    assert EpochInv(log, f);
    if f >= 2 { assert EpochInv(log, f - 2); }
  }

  /** Nor is the receiver heard any more: the peer opens nothing that it seals on the chain it then starts. */
  lemma {:induction false} StrayRepeatSilences(y: Sys, e: nat, n: nat, c: Coins, plaintext: bytes, ad: bytes)
    requires Reachable(y) && OldRepeat(y, e, n) && !RefusedInTime(Receiver(y, e), y.log[e].letters[n].pkt.hdr)
    requires forall i :: 0 <= i < |y.log| ==> y.log[i].dh != c.dh
    ensures Runnable(y) && Receiver(DeliverStep(y, e, n).0, e).Valid()
    ensures var pkt := Encrypt(Receiver(DeliverStep(y, e, n).0, e), c, plaintext, ad).1;
      var x := y.Get(y.log[e].creator);
      && x.Valid() && pkt.hdr.pn < U32 && pkt.hdr.n < U32
      && Decrypt(x, pkt, ad).1.Failure?
  {
    hide Reachable, Runnable, Decrypt, LogInv, SideInv, RolesInv, RefusedInTime, StrayRoot, DeliverStep, Header.Marshal;
    ReachableInv(y);
    RepeatingOldChain(y, e, n);
    var who := y.log[e].creator;
    var x, q := y.Get(who), Receiver(DeliverStep(y, e, n).0, e);
    var s, r := SideOf(y, who);
    UnknownKey(who.Other(), x, y.log, y.decrypted, s, r, c.dh);
    var pkt := Encrypt(q, c, plaintext, ad).1;
    StaleKeyFails(x, pkt, ad, Prepare(q, c).0.chainSend);
  }

  /** A ratchet key that is not in the log is new to everyone, and everyone's root is in the log. */
  lemma UnknownKey(peer: Who, x: Party, log: seq<Epoch>, decrypted: set<LetterId>, s: int, r: int, dh: bytes)
    requires SideInv(x, log, decrypted, s, r, peer) && forall i :: 0 <= i < |log| ==> log[i].dh != dh
    ensures x.Valid() && (x.dhRemote.None? || x.dhRemote.value != dh)
    ensures forall i: nat :: (dh, i) !in x.skipped
    ensures exists f :: 0 <= f < |log| && x.root == log[f].root
  {
    assert x.root == log[Max(s, r)].root;
  }

  /**
   Such a run exists as well, whatever the keys: Bob has read Alice's answer, and her very first letter comes again.
   */
  lemma {:induction false} StrayRepeatHappens(
      sk: Key, bobPub: bytes, dh: bytes, bobDh: bytes, aliceDh: bytes, kemPub: bytes, kemCt: bytes)
    returns (y: Sys)
    requires RatchetKey(bobPub) && RatchetKey(dh) && RatchetKey(bobDh) && RatchetKey(aliceDh)
    requires |kemPub| == MLKEM_PUBLIC_SIZE && Normalised(kemPub) && |kemCt| == MLKEM_CIPHERTEXT_SIZE
    requires bobPub != dh && bobDh != bobPub && bobDh != dh && aliceDh != bobPub && aliceDh != dh && aliceDh != bobDh
    ensures Reachable(y) && OldRepeat(y, 1, 0) && !RefusedInTime(Receiver(y, 1), y.log[1].letters[0].pkt.hdr)
  {
    hide *;
    var y0 := AnsweredReachable(sk, bobPub, dh, bobDh, aliceDh, kemPub, kemCt);
    HeadWouldOpen(y0, dh, aliceDh);
    y := DeliverStep(y0, 3, 0).0;
    AnswerRead(y0, dh, aliceDh, y);
  }

  lemma AnswerRead(y0: Sys, dh: bytes, aliceDh: bytes, y: Sys)
    requires Answered(y0, dh, aliceDh) && Reachable(y0) && dh != aliceDh && Runnable(y0) && Sent(y0.log, 3, 0)
    requires DeliverStep(y0, 3, 0).1.Success? && y == DeliverStep(y0, 3, 0).0
    ensures Reachable(y) && OldRepeat(y, 1, 0) && !RefusedInTime(Receiver(y, 1), y.log[1].letters[0].pkt.hdr)
  {
    hide Reachable, Decrypt, RolesInv, Header.Marshal, InWindow;
    ReachableInv(y0);
    DecryptsExactly(y0, 3, 0);
    StepReachable(y0, Deliver(3, 0));
    assert EpochInv(y0.log, 1) && LetterInv(y0.log[1], 0) && LetterInv(y0.log[3], 0) by { assert EpochInv(y0.log, 3); }
    AdoptsKey(y0.bob, y0.log[3].letters[0].pkt, y0.log[3].letters[0].ad);
  }

  /** Whoever opens a letter on a new chain has adopted that chain. */
  lemma AdoptsKey(p: Party, pkt: Packet, ad: bytes)
    requires p.Valid() && pkt.hdr.pn < U32 && pkt.hdr.n < U32 && p.skipped == map[] && IsNewRatchetKey(p, pkt.hdr)
    requires Decrypt(p, pkt, ad).1.Success?
    ensures Decrypt(p, pkt, ad).0.dhRemote == Some(pkt.hdr.dhPub)
  {
    hide Header.Marshal, LowOrder, BadKemKey, Stored;
  }
}
