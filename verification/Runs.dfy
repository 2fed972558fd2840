/** Theorems about every run: agreement, its exact conditions, alternation of epochs, and the injection lockstep. */
module Runs {
  import opened Wrappers
  import opened Bytes
  import opened Symbolic
  import opened RatchetHeader
  import opened Ratchet
  import opened Conversation
  import opened Agreement
  import opened KeyChecks

  ghost predicate Admissible(y: Sys, ev: Event) {
    && Runnable(y)
    && match ev
       case Send(who, c, _, _) => MaySend(y, who, c)
       case Deliver(e, n) => MayDeliver(y, e, n)
  }

  ghost function Step(y: Sys, ev: Event): Sys
    requires Admissible(y, ev)
  {
    match ev
    case Send(who, c, plaintext, ad) => SendStep(y, who, c, plaintext, ad)
    case Deliver(e, n) => DeliverStep(y, e, n).0
  }

  lemma StepKeeps(y: Sys, ev: Event)
    requires Inv(y) && Admissible(y, ev)
    ensures Inv(Step(y, ev))
  {
    hide Inv, SendStep, DeliverStep;
    match ev
    case Send(who, c, plaintext, ad) => SendKeeps(y, who, c, plaintext, ad, Step(y, ev));
    case Deliver(e, n) =>
      var (y', res) := DeliverStep(y, e, n);
      DeliverKeeps(y, e, n, y', res);
  }

  /** An X25519 public key as generated. */
  predicate RatchetKey(pub: bytes) {
    |pub| == X25519_SIZE && !LowOrder(pub)
  }

  /** y is a fresh session: the responder's prekey and the initiator's first key are two generated keys. */
  ghost predicate Fresh(y: Sys) {
    exists sk: Key, bobPub: bytes, aliceDh: bytes, ta: int, tb: int ::
      y == Start(sk, bobPub, aliceDh, ta, tb) && RatchetKey(bobPub) && RatchetKey(aliceDh) && bobPub != aliceDh
  }

  ghost predicate StepAt(states: seq<Sys>, evs: seq<Event>, i: nat)
    requires i < |evs| && |states| == |evs| + 1
  {
    Admissible(states[i], evs[i]) && states[i + 1] == Step(states[i], evs[i])
  }

  /**
   A run: the states it passes through from a fresh session on, each by an event that is admissible when its turn comes.
   */
  ghost predicate Run(states: seq<Sys>, evs: seq<Event>) {
    && |states| == |evs| + 1 && Fresh(states[0])
    && forall i: nat :: i < |evs| ==> StepAt(states, evs, i)
  }

  /** A state that some run reaches. */
  ghost predicate Reachable(y: Sys) {
    exists states: seq<Sys>, evs: seq<Event> :: Run(states, evs) && y == states[|evs|]
  }

  lemma FreshKeeps(y: Sys)
    requires Fresh(y)
    ensures Inv(y)
  {
    hide Inv, Start;
    var sk: Key, bobPub: bytes, aliceDh: bytes, ta: int, tb: int :|
      y == Start(sk, bobPub, aliceDh, ta, tb) && RatchetKey(bobPub) && RatchetKey(aliceDh) && bobPub != aliceDh;
    StartInv(sk, bobPub, aliceDh, ta, tb);
  }

  /** Every state along a run is in the invariant. */
  lemma {:induction false} RunKeeps(states: seq<Sys>, evs: seq<Event>, i: nat)
    requires Run(states, evs) && i <= |evs|
    ensures Inv(states[i])
  {
    hide Inv, Admissible, Step, Fresh;
    if i == 0 {
      FreshKeeps(states[0]);
    } else {
      RunKeeps(states, evs, i - 1);
      assert StepAt(states, evs, i - 1);
      StepKeeps(states[i - 1], evs[i - 1]);
    }
  }

  lemma ReachableInv(y: Sys)
    requires Reachable(y)
    ensures Inv(y) && Runnable(y)
  {
    hide Inv, Runnable, Fresh;
    var states: seq<Sys>, evs: seq<Event> :| Run(states, evs) && y == states[|evs|];
    RunKeeps(states, evs, |evs|);
    InvRunnable(y);
  }

  lemma FreshReachable(y: Sys)
    requires Fresh(y)
    ensures Reachable(y)
  {
    hide Fresh;
    var states: seq<Sys>, evs: seq<Event> := [y], [];
    assert Run(states, evs);
  }

  lemma StepReachable(y: Sys, ev: Event)
    requires Reachable(y) && Admissible(y, ev)
    ensures Reachable(Step(y, ev))
  {
    hide Admissible, Step, Fresh;
    var states: seq<Sys>, evs: seq<Event> :| Run(states, evs) && y == states[|evs|];
    var states', evs' := states + [Step(y, ev)], evs + [ev];
    forall i: nat | i < |evs'|
      ensures StepAt(states', evs', i)
    {
      if i < |evs| { assert StepAt(states, evs, i); }
    }
    assert Run(states', evs') && states'[|evs'|] == Step(y, ev);
  }

  /** A log never forgets: its epochs stay as they were started, and letters are only added. */
  ghost predicate Grown(log: seq<Epoch>, log': seq<Epoch>) {
    && |log| <= |log'|
    && forall i :: 0 <= i < |log| ==>
         log'[i] == log[i].(letters := log'[i].letters) && log[i].letters <= log'[i].letters
  }

  lemma StepGrows(y: Sys, ev: Event)
    requires Admissible(y, ev)
    ensures Grown(y.log, Step(y, ev).log)
  {
    hide MaySend, MayDeliver, Encrypt, Decrypt, Prepare, Encapsulation;
    match ev
    case Send(who, c, plaintext, ad) =>
      var s := SendEpoch(y.log, who);
      if !y.Get(who).needsNewSendingChain {
        var l := Letter(Encrypt(y.Get(who), c, plaintext, ad).1, plaintext, ad);
        assert Step(y, ev).log == y.log[s := y.log[s].(letters := y.log[s].letters + [l])];
      }
    case Deliver(_, _) =>
  }

  /** Along a run the log only grows. */
  lemma {:induction false} RunGrows(states: seq<Sys>, evs: seq<Event>, c: nat, t: nat)
    requires Run(states, evs) && c <= t <= |evs|
    ensures Grown(states[c].log, states[t].log)
  {
    hide Admissible, Step, Fresh;
    if t == c {
    } else {
      RunGrows(states, evs, c, t - 1);
      assert StepAt(states, evs, t - 1);
      StepGrows(states[t - 1], evs[t - 1]);
    }
  }

  // ---------------------------------------------------------------- when a letter does not open

  /** Skipping ahead changes nothing that a new chain is derived from. */
  lemma SkipToFrame(p: Party, until: nat)
    requires p.Valid() && until < U32
    ensures var q := SkipTo(p, until).0; q == p.(chainRecv := q.chainRecv, nRecv := q.nRecv, skipped := q.skipped)
  {
  }

  /** The encapsulated secret that dhRatchetStep mixes in for a header. */
  function Answer(p: Party, hdr: Header): Option<KemSecret> {
    if hdr.mlkemCiphertext.Some? && p.selfPendingKem.Some?
    then Some(KemSecret(p.selfPendingKem.value, hdr.mlkemCiphertext.value)) else None
  }

  /** Read as the start of a new chain, a header leads to one message key only. */
  lemma NewChainKey(p: Party, pkt: Packet, ad: bytes)
    requires p.Valid() && pkt.hdr.pn < U32 && pkt.hdr.n < U32
    requires IsNewRatchetKey(p, pkt.hdr) && (pkt.hdr.dhPub, pkt.hdr.n) !in p.skipped
    requires Decrypt(p, pkt, ad).1.Success?
    ensures pkt.box.key == MsgOf(Iter(ChainOf(p.root, Dh(p.dhSelf, pkt.hdr.dhPub), Answer(p, pkt.hdr)), pkt.hdr.n))
  {
    hide AdWithHeader, Decrypt, LowOrder, BadKemKey, Stored;
    var hdr := pkt.hdr;
    var (q, e) := if p.dhRemote.Some? then SkipTo(p, hdr.pn) else (p, None);
    SkipToFrame(p, hdr.pn);
    var (q1, e1) := DhStep(q, hdr);
    var (q2, e2) := SkipTo(q1, hdr.n);
    DecryptNew(p, pkt, ad, q, e, q1, e1, q2, e2);
  }

  /** The key that a header on the receiver's own chain leads to. */
  lemma SameChainKey(p: Party, pkt: Packet, ad: bytes, chain: Key)
    requires p.Valid() && pkt.hdr.pn < U32 && pkt.hdr.n < U32 && p.dhRemote == Some(pkt.hdr.dhPub)
    requires (pkt.hdr.dhPub, pkt.hdr.n) !in p.skipped && p.chainRecv == Iter(chain, p.nRecv)
    requires Decrypt(p, pkt, ad).1.Success?
    ensures p.chainRecv == Nil ==> pkt.box.key == MsgOf(Nil)
    ensures p.chainRecv != Nil ==> exists i: nat :: pkt.box.key == MsgOf(Iter(chain, i))
  {
    hide Header.Marshal;
    var n := pkt.hdr.n;
    if p.chainRecv != Nil {
      if n < p.nRecv {
        assert pkt.box.key == MsgOf(Iter(chain, p.nRecv));
      } else {
        IterAdd(chain, p.nRecv, n - p.nRecv);
        assert pkt.box.key == MsgOf(Iter(chain, n));
      }
    }
  }

  lemma {:induction false} RootDepth(log: seq<Epoch>, i: nat)
    requires LogInv(log) && i < |log|
    ensures Depth(log[i].root) == Depth(log[0].root) + i
  {
    if i == 0 {
    } else {
      assert EpochInv(log, i);
      RootDepth(log, i - 1);
    }
  }

  /** A header behind the receiver's position, with no stored key, steps the chain and nothing else. */
  lemma BehindSteps(p: Party, pkt: Packet, ad: bytes)
    requires p.Valid() && pkt.hdr.pn < U32 && pkt.hdr.n < p.nRecv
    requires p.dhRemote == Some(pkt.hdr.dhPub) && (pkt.hdr.dhPub, pkt.hdr.n) !in p.skipped
    ensures Decrypt(p, pkt, ad) == (TakeNext(p), Opened(MsgOf(p.chainRecv), pkt.box, AdWithHeader(pkt.hdr, ad)))
  {
    hide Header.Marshal;
  }

  /** A letter that was decrypted before does not open again. */
  lemma {:induction false} DuplicateFails(
      peer: Who, p: Party, log: seq<Epoch>, decrypted: set<LetterId>, s: int, r: int, e: nat, n: nat, l: Letter)
    requires LogInv(log) && SideInv(p, log, decrypted, s, r, peer)
    requires Sent(log, e, n) && (e, n) in decrypted && log[e].creator == peer && l == log[e].letters[n] && Wireable(l)
    ensures Decrypt(p, l.pkt, l.ad).1.Failure?
  {
    hide HeadsInv, AdWithHeader, Decrypt, LowOrder;
    assert Passed(p, log, r, peer, e, n);
    assert EpochInv(log, e) && LetterInv(log[e], n);
    hide LogInv, MailInv;
    if e == r {
      IterInjective(log[r].chain, p.nRecv, log[r].chain, n);
      BehindSteps(p, l.pkt, l.ad);
    } else {
      RootDepth(log, e - 1);
      RootDepth(log, Max(s, r));
      StaleKeyFails(p, l.pkt, l.ad, log[e].chain);
    }
  }

  /** A header taken for a new chain never leads to a key of a chain with another origin. */
  lemma StaleKeyFails(p: Party, pkt: Packet, ad: bytes, chain: Key)
    requires p.Valid() && pkt.hdr.pn < U32 && pkt.hdr.n < U32
    requires IsNewRatchetKey(p, pkt.hdr) && (pkt.hdr.dhPub, pkt.hdr.n) !in p.skipped
    requires chain.ChainOf? && pkt.box.key == MsgOf(Iter(chain, pkt.hdr.n))
    requires chain.salt != p.root || chain.inject != Answer(p, pkt.hdr)
    ensures Decrypt(p, pkt, ad).1.Failure?
  {
    hide Decrypt;
    if Decrypt(p, pkt, ad).1.Success? {
      NewChainKey(p, pkt, ad);
      IterInjective(chain, pkt.hdr.n, ChainOf(p.root, Dh(p.dhSelf, pkt.hdr.dhPub), Answer(p, pkt.hdr)), pkt.hdr.n);
    }
  }

  /** On a chain that answers an advertisement, a later letter does not open before the first one has. */
  lemma {:induction false} HeadMissingFails(
      peer: Who, p: Party, log: seq<Epoch>, decrypted: set<LetterId>, s: int, r: int, e: nat, n: nat,
      l: Letter)
    requires LogInv(log) && SideInv(p, log, decrypted, s, r, peer)
    requires Sent(log, e, n) && log[e].creator == peer && l == log[e].letters[n] && Wireable(l)
    requires log[e].inject.Some? && n > 0 && (e, 0) !in decrypted
    ensures Decrypt(p, l.pkt, l.ad).1.Failure?
  {
    assert EpochInv(log, e) && LetterInv(log[e], n);
    assert e > r;
    NotYetFiled(peer, p, log, decrypted, r, e, n);
    hide MailInv, HeadsInv, Decrypt, Header.Marshal;
    StaleKeyFails(p, l.pkt, l.ad, log[e].chain);
  }

  lemma LogLength(y: Sys)
    requires Inv(y)
    ensures LogInv(y.log) && |y.log| >= 2
  {
    hide RolesInv, EpochInv;
  }

  /** Either receiver's side of the invariant, under one name. */
  lemma SideOf(y: Sys, who: Who) returns (s: int, r: int)
    requires Inv(y)
    ensures SideInv(y.Get(who), y.log, y.decrypted, s, r, who.Other())
    ensures 0 <= s < |y.log| <= s + 2 && y.log[s].creator == who
    ensures forall e: nat :: s < e < |y.log| ==> y.log[e].creator != who
  {
    hide LogInv, SideInv, InjectInv;
    LogLength(y);
    var c, last := y.log[|y.log| - 1].creator, |y.log| - 1;
    Creators(y.log, last);
    Creators(y.log, last - 1);
    if who == c {
      s, r := last, last - 1;
    } else {
      s, r := last - 1, PeerEpoch(y.Get(who), last);
    }
  }

  /** A party is at a root of the log. */
  lemma RootInLog(p: Party, log: seq<Epoch>, s: int, r: int, peer: Who, decrypted: set<LetterId>)
    requires SideInv(p, log, decrypted, s, r, peer)
    ensures 0 <= Max(s, r) < |log| && p.root == log[Max(s, r)].root
  {
  }

  lemma Inadmissible(y: Sys, e: nat, n: nat)
    requires Inv(y) && Runnable(y) && Sent(y.log, e, n) && !MayDeliver(y, e, n)
    ensures DeliverStep(y, e, n).1.Failure?
  {
    hide Decrypt, LogInv, SideInv, RolesInv;
    var who, l := y.log[e].creator.Other(), y.log[e].letters[n];
    var s, r := SideOf(y, who);
    if (e, n) in y.decrypted {
      DuplicateFails(who.Other(), y.Get(who), y.log, y.decrypted, s, r, e, n, l);
    } else {
      HeadMissingFails(who.Other(), y.Get(who), y.log, y.decrypted, s, r, e, n, l);
    }
  }

  /**
   Whole-run agreement, exactly: at any point of any admissible run, handing over a letter that was ever sent returns
   the plaintext that was encrypted if and only if the letter was not decrypted before, the first letter of a chain that
   answers an advertisement has not been overtaken, and the receiver is not asked to skip more than MAX_SKIP keys.
   */
  lemma {:induction false} DecryptsExactly(y: Sys, e: nat, n: nat)
    requires Reachable(y) && Sent(y.log, e, n)
    ensures Runnable(y)
    ensures var res, l := DeliverStep(y, e, n).1, y.log[e].letters[n];
      && (res.Success? <==> MayDeliver(y, e, n) && InWindow(y.Get(y.log[e].creator.Other()), l.pkt.hdr))
      && (res.Success? ==> res.value == l.plaintext)
  {
    hide DeliverStep, Inv, InWindow, Runnable, Reachable, MayDeliver;
    ReachableInv(y);
    if MayDeliver(y, e, n) {
      var (y', res) := DeliverStep(y, e, n);
      DeliverKeeps(y, e, n, y', res);
    } else {
      Inadmissible(y, e, n);
    }
  }

  /** The only error an admissible delivery can meet is SkipTooLarge, and after it the run goes on. */
  lemma {:induction false} AgreementOrSkip(y: Sys, e: nat, n: nat)
    requires Reachable(y) && MayDeliver(y, e, n)
    ensures Runnable(y)
    ensures var (y', res) := DeliverStep(y, e, n);
      && (res == Success(y.log[e].letters[n].plaintext) || res == Failure(SkipTooLarge))
      && Reachable(y')
  {
    hide DeliverStep, Inv, InWindow, Runnable, Reachable, HeadFirst;
    ReachableInv(y);
    var (y', res) := DeliverStep(y, e, n);
    DeliverKeeps(y, e, n, y', res);
    StepReachable(y, Deliver(e, n));
  }

  /** EncryptMessage never fails along a run: no peer key that was adopted is one that ECDH refuses. */
  lemma {:induction false} SendsSucceed(y: Sys, who: Who, c: Coins, plaintext: bytes, ad: bytes)
    requires Reachable(y)
    ensures y.Get(who).Valid()
    ensures var (q, pkt) := Encrypt(y.Get(who), c, plaintext, ad);
      TryEncrypt(y.Get(who), c, plaintext, ad) == (q, Success(pkt))
  {
    hide Reachable, Runnable, RolesInv, MailInv, HeadsInv, LowOrder, Encrypt;
    ReachableInv(y);
    var s, r := SideOf(y, who);
    if r >= 0 { assert EpochInv(y.log, r); }
  }

  // ---------------------------------------------------------------- alternation and lockstep

  /** k was derived from `base` by one step of the root chain. */
  predicate OneStepAhead(k: Key, base: Key) {
    k.RootOf? && k.salt == base
  }

  /**
   New sending chains are started strictly alternately; the parties never both owe one; their root keys are equal
   exactly when one of them owes, and otherwise one root key is a single derivation step ahead of the other.
   */
  lemma {:induction false} EpochsAlternate(y: Sys)
    requires Reachable(y)
    ensures forall i :: 0 < i < |y.log| ==> y.log[i].creator != y.log[i - 1].creator
    ensures !(y.alice.needsNewSendingChain && y.bob.needsNewSendingChain)
    ensures y.alice.root == y.bob.root <==> y.alice.needsNewSendingChain || y.bob.needsNewSendingChain
    ensures y.alice.root == y.bob.root || OneStepAhead(y.alice.root, y.bob.root)
            || OneStepAhead(y.bob.root, y.alice.root)
  {
    hide Reachable, Runnable, MailInv, HeadsInv, InjectInv;
    ReachableInv(y);
    forall i | 0 < i < |y.log|
      ensures y.log[i].creator != y.log[i - 1].creator
    {
      Creators(y.log, i);
      Creators(y.log, i - 1);
    }
    var last := |y.log| - 1;
    RootDepth(y.log, last);
    RootDepth(y.log, last - 1);
    assert EpochInv(y.log, last);
  }

  /** Letter (e, n) is on its way to `who`: sent by the peer and not decrypted. */
  ghost predicate InFlight(y: Sys, who: Who, e: nat, n: nat) {
    Sent(y.log, e, n) && y.log[e].creator == who.Other() && (e, n) !in y.decrypted
  }

  lemma InjectOf(y: Sys, who: Who)
    requires Inv(y)
    ensures InjectInv(y.Get(who), y.log, y.decrypted, who)
  {
    hide LogInv, SideInv, InjectInv;
  }

  /**
   A party holds the private half of an ML-KEM key exactly as long as it should: of the last key it advertised, until
   the answer to it was opened, and of none before or after.
   */
  lemma {:induction false} PendingKemExactly(y: Sys, who: Who)
    requires Reachable(y)
    ensures y.Get(who).selfPendingKem == Pending(y.log, y.decrypted, who)
  {
    hide Reachable, Inv, Pending;
    ReachableInv(y);
    InjectOf(y, who);
  }

  /**
   Injection lockstep: an advertisement that a party still has to answer is the peer's pending key; and while a
   ciphertext is on its way, the party it is addressed to holds, as its pending key, the very key it was made for.
   */
  lemma {:induction false} InjectionLockstep(y: Sys, who: Who)
    requires Reachable(y)
    ensures y.Get(who).peerAdvertisedKem.Some? ==> y.Get(who.Other()).selfPendingKem == y.Get(who).peerAdvertisedKem
    ensures forall e: nat, n: nat :: InFlight(y, who, e, n) && y.log[e].letters[n].pkt.hdr.mlkemCiphertext.Some? ==>
              && y.log[e].inject.Some?
              && y.Get(who).selfPendingKem == Some(y.log[e].inject.value.pub)
  {
    hide Reachable, Runnable, RolesInv, LogInv, Pending;
    ReachableInv(y);
    if y.Get(who).peerAdvertisedKem.Some? {
      AdvertisementPending(y, who);
      PendingKemExactly(y, who.Other());
    }
    PendingKemExactly(y, who);
    forall e: nat, n: nat | InFlight(y, who, e, n) && y.log[e].letters[n].pkt.hdr.mlkemCiphertext.Some?
      ensures y.log[e].inject.Some? && y.Get(who).selfPendingKem == Some(y.log[e].inject.value.pub)
    {
      CiphertextHead(y.log, e, n);
      AnswerPending(y, who, e);
    }
  }

  /** Only the first letter of an answering chain carries a ciphertext. */
  lemma CiphertextHead(log: seq<Epoch>, e: nat, n: nat)
    requires LogInv(log) && Sent(log, e, n) && log[e].letters[n].pkt.hdr.mlkemCiphertext.Some?
    ensures n == 0 && log[e].inject.Some?
  {
    hide AdWithHeader;
    assert EpochInv(log, e) && LetterInv(log[e], n);
  }

  /** What a party has still to answer is what its peer should hold. */
  lemma AdvertisementPending(y: Sys, who: Who)
    requires Inv(y) && y.Get(who).peerAdvertisedKem.Some?
    ensures Pending(y.log, y.decrypted, who.Other()) == y.Get(who).peerAdvertisedKem
  {
    hide RolesInv, LogInv, MailInv, HeadsInv;
    var s, r := SideOf(y, who);
    assert |y.log| == r + 1;
    Creators(y.log, r);
    Creators(y.log, s);
  }

  /** What an answer on its way was made for is what its addressee should hold. */
  lemma AnswerPending(y: Sys, who: Who, e: nat)
    requires Inv(y) && InFlight(y, who, e, 0) && y.log[e].inject.Some?
    ensures Pending(y.log, y.decrypted, who) == Some(y.log[e].inject.value.pub)
  {
    hide RolesInv;
    AwaitedEpoch(y, who, e);
    assert EpochInv(y.log, e);
    hide LogInv;
    Creators(y.log, e);
    Creators(y.log, e - 1);
    assert Advertised(y.log, who, |y.log|) == e - 1;
  }

  /** The chain of an undecrypted ciphertext is the newest one, and its receiver has yet to ratchet to it. */
  lemma AwaitedEpoch(y: Sys, who: Who, e: nat)
    requires Inv(y) && InFlight(y, who, e, 0) && y.log[e].inject.Some?
    ensures e == |y.log| - 1 && !y.Get(who).needsNewSendingChain && y.log[e].creator != who
  {
    hide PartyInv, MailInv, InjectInv, EpochInv;
    var last := |y.log| - 1;
    Creators(y.log, last);
    Creators(y.log, last - 1);
    Creators(y.log, e);
  }

  // ---------------------------------------------------------------- the injection schedule

  /**
   The schedule, counted on the log: a letter carries a new ML-KEM key if and only if it starts a chain and either the
   clock says so or the letters its sender has sealed since the last advertising one, that one included, have reached
   the sender's threshold.
   */
  lemma {:induction false} AdvertisesOnSchedule(y: Sys, who: Who, c: Coins, plaintext: bytes, ad: bytes)
    requires Reachable(y)
    ensures y.Get(who).Valid()
    ensures var p := y.Get(who);
      Encrypt(p, c, plaintext, ad).1.hdr.mlkemPub
      == if p.needsNewSendingChain && (c.clockDue || p.threshold <= SealedSince(y.log, who, |y.log|))
         then Some(c.kemPub) else None
  {
    hide Reachable, LogInv, RolesInv, AdWithHeader, SealedSince, Pending;
    ReachableInv(y);
    InjectOf(y, who);
  }

  lemma SkipToThreshold(p: Party, until: nat)
    requires p.Valid() && until < U32
    ensures SkipTo(p, until).0.threshold == p.threshold
  {
  }

  lemma DhStepThreshold(p: Party, hdr: Header)
    requires p.Valid()
    ensures DhStep(p, hdr).0.threshold == p.threshold
  {
    hide LowOrder, BadKemKey, BadCiphertext;
  }

  lemma DecryptThreshold(p: Party, pkt: Packet, ad: bytes)
    requires p.Valid() && pkt.hdr.pn < U32 && pkt.hdr.n < U32
    ensures Decrypt(p, pkt, ad).0.threshold == p.threshold
  {
    hide SkipTo, DhStep, AdWithHeader, Opened;
    var hdr := pkt.hdr;
    var q := if IsNewRatchetKey(p, hdr) && p.dhRemote.Some? then SkipTo(p, hdr.pn).0 else p;
    var q1 := if IsNewRatchetKey(p, hdr) then DhStep(q, hdr).0 else q;
    SkipToThreshold(p, hdr.pn);
    DhStepThreshold(q, hdr);
    SkipToThreshold(q1, hdr.n);
  }

  /** Nothing that a run does changes a threshold. */
  lemma {:induction false} ThresholdsKept(states: seq<Sys>, evs: seq<Event>, i: nat, who: Who)
    requires Run(states, evs) && i <= |evs|
    ensures states[i].Get(who).threshold == states[0].Get(who).threshold
  {
    hide Fresh, Runnable, MayDeliver, MaySend, Decrypt;
    if i == 0 {
    } else {
      ThresholdsKept(states, evs, i - 1, who);
      assert StepAt(states, evs, i - 1);
      StepThreshold(states[i - 1], evs[i - 1], who);
    }
  }

  lemma StepThreshold(y: Sys, ev: Event, who: Who)
    requires Admissible(y, ev)
    ensures Step(y, ev).Get(who).threshold == y.Get(who).threshold
  {
    hide MaySend, Decrypt, AdWithHeader, HeadFirst;
    match ev
    case Send(_, _, _, _) =>
    case Deliver(e, n) =>
      var l := y.log[e].letters[n];
      DecryptThreshold(y.Get(y.log[e].creator.Other()), l.pkt, l.ad);
  }

  // ---------------------------------------------------------------- letters in order

  /** Letter x was sealed before letter z, when both have the same sender. */
  predicate Before(x: LetterId, z: LetterId) {
    x.0 < z.0 || (x.0 == z.0 && x.1 < z.1)
  }

  /** (e, n) is on its way to `who`, and of all that are, it was sealed first. */
  ghost predicate Earliest(y: Sys, who: Who, e: nat, n: nat) {
    && InFlight(y, who, e, n)
    && forall f: nat, m: nat :: InFlight(y, who, f, m) ==> (f, m) == (e, n) || Before((e, n), (f, m))
  }

  /** Nothing is ever sealed on the responder's prekey. */
  lemma PrekeyChain(log: seq<Epoch>)
    requires LogInv(log)
    ensures log[0].chain == Nil && log[0].letters == []
  {
    assert EpochInv(log, 0);
  }

  /** A receiver that has opened whatever was sealed before a letter is asked to skip nothing. */
  lemma EarliestInWindow(peer: Who, p: Party, log: seq<Epoch>, decrypted: set<LetterId>, s: int, r: int, e: nat, n: nat)
    requires LogInv(log) && SideInv(p, log, decrypted, s, r, peer) && 0 <= s < |log| <= s + 2 && log[s].creator != peer
    requires Sent(log, e, n) && log[e].creator == peer && (e, n) !in decrypted && Wireable(log[e].letters[n])
    requires forall f: nat, m: nat :: Sent(log, f, m) && log[f].creator == peer && Before((f, m), (e, n)) ==>
               (f, m) in decrypted
    ensures HeadFirst(log, decrypted, e, n) && InWindow(p, log[e].letters[n].pkt.hdr)
  {
    hide HeadsInv, Header.Marshal, LowOrder, BadKemKey;
    assert EpochInv(log, e) && LetterInv(log[e], n);
    assert Before((e, 0), (e, n)) <==> n > 0;
    if Passed(p, log, r, peer, e, n) {
    } else if e == r {
      assert Before((r, p.nRecv), (e, n)) <==> p.nRecv < n;
      assert (r as nat, p.nRecv) !in decrypted;
    } else {
      Creators(log, s);
      PrekeyChain(log);
      assert e == s + 1 == r + 2;
      assert (e, 0) !in decrypted;
      if r >= 0 {
        assert Before((r, p.nRecv), (e, n));
        assert (r as nat, p.nRecv) !in decrypted;
      }
    }
  }

  /**
   In any reachable state, the earliest letter on its way opens: it overtakes nothing, and nothing has to be skipped.
   */
  lemma {:induction false} EarliestOpens(y: Sys, who: Who, e: nat, n: nat)
    requires Reachable(y) && Earliest(y, who, e, n)
    ensures Runnable(y) && MayDeliver(y, e, n)
    ensures DeliverStep(y, e, n).1 == Success(y.log[e].letters[n].plaintext)
  {
    hide Reachable, DeliverStep, RolesInv, LogInv, SideInv, InWindow, HeadFirst;
    ReachableInv(y);
    var s, r := SideOf(y, who);
    forall f: nat, m: nat | Sent(y.log, f, m) && y.log[f].creator == who.Other() && Before((f, m), (e, n))
      ensures (f, m) in y.decrypted
    {
      assert (f, m) !in y.decrypted ==> InFlight(y, who, f, m);
    }
    EarliestInWindow(who.Other(), y.Get(who), y.log, y.decrypted, s, r, e, n);
    DecryptsExactly(y, e, n);
  }
}
