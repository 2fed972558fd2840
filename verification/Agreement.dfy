/** Every step of a conversation keeps the invariant, and every admissible delivery returns what was encrypted. */
module Agreement {
  import opened Wrappers
  import opened Bytes
  import opened Symbolic
  import opened RatchetHeader
  import opened Ratchet
  import opened Conversation

  // ---------------------------------------------------------------- one receiver

  /** A chain of the log, once ratcheted to, is never the nil chain. */
  lemma ChainNotNil(log: seq<Epoch>, r: int, n: nat)
    requires LogInv(log) && 0 < r < |log|
    ensures Iter(log[r].chain, n) != Nil
  {
    assert EpochInv(log, r);
  }

  /** Distinct letters of the log are filed under distinct keys. */
  lemma SameSlot(log: seq<Epoch>, e: nat, f: nat)
    requires LogInv(log) && e < |log| && f < |log| && log[e].dh == log[f].dh
    ensures e == f
  {
  }

  lemma NotYetFiled(peer: Who, p: Party, log: seq<Epoch>, decrypted: set<LetterId>, r: int, e: nat, n: nat)
    requires LogInv(log) && MailInv(p, log, decrypted, r, peer)
    requires Sent(log, e, n) && !Passed(p, log, r, peer, e, n)
    ensures (log[e].dh, n) !in p.skipped
  {
  }

  /** Storing keys leaves everything but the receiving chain alone. */
  lemma SkipKeepsParty(p: Party, log: seq<Epoch>, s: int, r: int, until: nat)
    requires PartyInv(p, log, s, r) && r > 0 && log[r].chain.ChainOf?
    requires p.nRecv <= until <= |log[r].letters| && until - p.nRecv <= MAX_SKIP && until < U32
    ensures var (q, e) := SkipTo(p, until);
      && e.None? && q.nRecv == until && PartyInv(q, log, s, r)
      && q == p.(chainRecv := q.chainRecv, nRecv := until,
                 skipped := p.skipped + Stored(log[r].dh, p.chainRecv, p.nRecv, until))
  {
    IterAdd(log[r].chain, p.nRecv, until - p.nRecv);
  }

  /** Storing the keys up to `until` passes those letters without opening them. */
  lemma {:induction false} SkipKeeps(peer: Who, p: Party, log: seq<Epoch>, decrypted: set<LetterId>, s: int, r: int,
                                     until: nat)
    requires LogInv(log) && PartyInv(p, log, s, r) && MailInv(p, log, decrypted, r, peer)
    requires r > 0 && p.nRecv <= until <= |log[r].letters| && until - p.nRecv <= MAX_SKIP && until < U32
    ensures var (q, e) := SkipTo(p, until);
      && e.None? && q.nRecv == until
      && PartyInv(q, log, s, r) && MailInv(q, log, decrypted, r, peer)
      && q == p.(chainRecv := q.chainRecv, nRecv := q.nRecv, skipped := q.skipped)
  {
    assert EpochInv(log, r);
    SkipKeepsParty(p, log, s, r, until);
    SkipKeepsMail(peer, p, SkipTo(p, until).0, log, decrypted, r, until);
  }

  lemma SkipKeepsMail(peer: Who, p: Party, q: Party, log: seq<Epoch>, decrypted: set<LetterId>, r: int, until: nat)
    requires LogInv(log) && MailInv(p, log, decrypted, r, peer)
    requires 0 <= r < |log| && p.nRecv <= until <= |log[r].letters|
    requires p.chainRecv == Iter(log[r].chain, p.nRecv)
    requires q.nRecv == until && q.skipped == p.skipped + Stored(log[r].dh, p.chainRecv, p.nRecv, until)
    ensures MailInv(q, log, decrypted, r, peer)
  {
    forall e: nat, n: nat | Passed(q, log, r, peer, e, n)
      ensures (e, n) in decrypted <==> (log[e].dh, n) !in q.skipped
      ensures (e, n) !in decrypted ==> q.skipped[(log[e].dh, n)] == MessageKey(log[e], n)
    {
      StoredAt(log[r].dh, p.chainRecv, p.nRecv, until, (log[e].dh, n));
      if e == r && n >= p.nRecv {
        IterAdd(log[r].chain, p.nRecv, n - p.nRecv);
      } else {
        assert Passed(p, log, r, peer, e, n);
        assert e != r ==> log[e].dh != log[r].dh;
      }
    }
    forall k | k in q.skipped
      ensures exists e: nat :: Passed(q, log, r, peer, e, k.1) && log[e].dh == k.0
    {
      StoredAt(log[r].dh, p.chainRecv, p.nRecv, until, k);
      if k in Stored(log[r].dh, p.chainRecv, p.nRecv, until) {
        assert Passed(q, log, r, peer, r, k.1);
      } else {
        var e: nat :| Passed(p, log, r, peer, e, k.1) && log[e].dh == k.0;
        assert Passed(q, log, r, peer, e, k.1);
      }
    }
    forall e: nat, n: nat | (e, n) in decrypted
      ensures e < |log| && (log[e].creator == peer ==> Passed(q, log, r, peer, e, n))
    {
      assert log[e].creator == peer ==> Passed(p, log, r, peer, e, n);
    }
  }

  lemma NextKeepsMail(peer: Who, p: Party, q: Party, log: seq<Epoch>, decrypted: set<LetterId>, r: int)
    requires LogInv(log) && MailInv(p, log, decrypted, r, peer)
    requires 0 <= r < |log| && p.nRecv < |log[r].letters|
    requires q.nRecv == p.nRecv + 1 && q.skipped == p.skipped
    ensures MailInv(q, log, decrypted + {(r, p.nRecv)}, r, peer)
  {
    var decrypted' := decrypted + {(r, p.nRecv)};
    NotYetFiled(peer, p, log, decrypted, r, r, p.nRecv);
    forall e: nat, n: nat | Passed(q, log, r, peer, e, n)
      ensures (e, n) in decrypted' <==> (log[e].dh, n) !in q.skipped
      ensures (e, n) !in decrypted' ==> q.skipped[(log[e].dh, n)] == MessageKey(log[e], n)
    {
      assert (e == r && n == p.nRecv) || Passed(p, log, r, peer, e, n);
    }
    forall k | k in q.skipped
      ensures exists e: nat :: Passed(q, log, r, peer, e, k.1) && log[e].dh == k.0
    {
      var e: nat :| Passed(p, log, r, peer, e, k.1) && log[e].dh == k.0;
      assert Passed(q, log, r, peer, e, k.1);
    }
    forall e: nat, n: nat | (e, n) in decrypted'
      ensures e < |log| && (log[e].creator == peer ==> Passed(q, log, r, peer, e, n))
    {
      assert log[e].creator == peer ==> (e == r && n == p.nRecv) || Passed(p, log, r, peer, e, n);
    }
  }

  /** Decrypting the next letter of the current chain. */
  lemma NextKeeps(peer: Who, p: Party, log: seq<Epoch>, decrypted: set<LetterId>, s: int, r: int)
    requires LogInv(log) && PartyInv(p, log, s, r) && MailInv(p, log, decrypted, r, peer)
    requires r > 0 && p.nRecv < |log[r].letters|
    ensures var q := TakeNext(p);
      && PartyInv(q, log, s, r) && MailInv(q, log, decrypted + {(r, p.nRecv)}, r, peer)
      && MsgOf(p.chainRecv) == MessageKey(log[r], p.nRecv)
  {
    var q := TakeNext(p);
    assert q.nRecv == p.nRecv + 1 by { assert EpochInv(log, r); }
    NextKeepsMail(peer, p, q, log, decrypted, r);
  }

  /** Decrypting a letter whose key was stored. */
  lemma StoredKeeps(peer: Who, p: Party, log: seq<Epoch>, decrypted: set<LetterId>, s: int, r: int, e: nat, n: nat)
    requires LogInv(log) && PartyInv(p, log, s, r) && MailInv(p, log, decrypted, r, peer)
    requires Passed(p, log, r, peer, e, n) && (e, n) !in decrypted
    ensures var key := (log[e].dh, n); var q := p.(skipped := p.skipped - {key});
      && key in p.skipped && p.skipped[key] == MessageKey(log[e], n)
      && PartyInv(q, log, s, r) && MailInv(q, log, decrypted + {(e, n)}, r, peer)
  {
    var key := (log[e].dh, n);
    var q := p.(skipped := p.skipped - {key});
    var decrypted' := decrypted + {(e, n)};
    forall e': nat, n': nat | Passed(q, log, r, peer, e', n')
      ensures (e', n') in decrypted' <==> (log[e'].dh, n') !in q.skipped
      ensures (e', n') !in decrypted' ==> q.skipped[(log[e'].dh, n')] == MessageKey(log[e'], n')
    {
      assert Passed(p, log, r, peer, e', n');
      if log[e'].dh == log[e].dh { SameSlot(log, e', e); }
    }
    forall k | k in q.skipped
      ensures exists e': nat :: Passed(q, log, r, peer, e', k.1) && log[e'].dh == k.0
    {
      var e': nat :| Passed(p, log, r, peer, e', k.1) && log[e'].dh == k.0;
      assert Passed(q, log, r, peer, e', k.1);
    }
    forall e': nat, n': nat | (e', n') in decrypted'
      ensures e' < |log| && (log[e'].creator == peer ==> Passed(q, log, r, peer, e', n'))
    {
      assert log[e'].creator == peer ==> Passed(p, log, r, peer, e', n');
    }
  }

  // ---------------------------------------------------------------- one delivery

  /** Catching up to letter n of the chain the receiver is on, and taking its key. */
  lemma ReadOn(peer: Who, p: Party, log: seq<Epoch>, decrypted: set<LetterId>, s: int, r: int, n: nat,
               q: Party, e: Option<RatchetError>)
    requires LogInv(log) && PartyInv(p, log, s, r) && MailInv(p, log, decrypted, r, peer)
    requires r > 0 && p.nRecv <= n < |log[r].letters| && n < U32
    requires (q, e) == SkipTo(p, n)
    ensures n - p.nRecv > MAX_SKIP ==> q == p && e == Some(SkipTooLarge)
    ensures n - p.nRecv <= MAX_SKIP ==>
              && e.None? && MsgOf(q.chainRecv) == MessageKey(log[r], n)
              && q == p.(chainRecv := q.chainRecv, nRecv := q.nRecv, skipped := q.skipped)
              && PartyInv(TakeNext(q), log, s, r) && MailInv(TakeNext(q), log, decrypted + {(r, n)}, r, peer)
  {
    ChainNotNil(log, r, p.nRecv);
    if n - p.nRecv <= MAX_SKIP {
      SkipKeeps(peer, p, log, decrypted, s, r, n);
      NextKeeps(peer, q, log, decrypted, s, r);
    }
  }

  /** A letter on the chain the receiver is on, ahead of what it has read. */
  lemma {:induction false} DeliverAhead(
      peer: Who, p: Party, log: seq<Epoch>, decrypted: set<LetterId>, s: int, r: int, n: nat, l: Letter,
      q: Party, res: Result<bytes, RatchetError>)
    requires LogInv(log) && PartyInv(p, log, s, r) && MailInv(p, log, decrypted, r, peer)
    requires r > 0 && p.nRecv <= n < |log[r].letters| && l == log[r].letters[n] && Wireable(l)
    requires (q, res) == Decrypt(p, l.pkt, l.ad)
    ensures res == if InWindow(p, l.pkt.hdr) then Success(l.plaintext) else Failure(SkipTooLarge)
    ensures q == p.(chainRecv := q.chainRecv, nRecv := q.nRecv, skipped := q.skipped)
    ensures PartyInv(q, log, s, r)
    ensures MailInv(q, log, if res.Success? then decrypted + {(r, n)} else decrypted, r, peer)
  {
    assert LetterInv(log[r], n) by { assert EpochInv(log, r); }
    NotYetFiled(peer, p, log, decrypted, r, r, n);
    var (q', e') := SkipTo(p, n);
    ReadOn(peer, p, log, decrypted, s, r, n, q', e');
  }

  /** A letter whose key the receiver has stored. */
  lemma {:induction false} DeliverStored(
      peer: Who, p: Party, log: seq<Epoch>, decrypted: set<LetterId>, s: int, r: int, e: nat, n: nat, l: Letter,
      q: Party, res: Result<bytes, RatchetError>)
    requires LogInv(log) && PartyInv(p, log, s, r) && MailInv(p, log, decrypted, r, peer)
    requires Passed(p, log, r, peer, e, n) && (e, n) !in decrypted && l == log[e].letters[n] && Wireable(l)
    requires (q, res) == Decrypt(p, l.pkt, l.ad)
    ensures InWindow(p, l.pkt.hdr) && res == Success(l.plaintext)
    ensures q == p.(skipped := q.skipped)
    ensures PartyInv(q, log, s, r)
    ensures MailInv(q, log, decrypted + {(e, n)}, r, peer)
  {
    assert LetterInv(log[e], n) by { assert EpochInv(log, e); }
    StoredKeeps(peer, p, log, decrypted, s, r, e, n);
  }

  /** Before a new chain is adopted, the old one is read to its end. */
  lemma FinishChain(peer: Who, p: Party, log: seq<Epoch>, decrypted: set<LetterId>, s: int, r: int,
                    q: Party, e: Option<RatchetError>)
    requires LogInv(log) && PartyInv(p, log, s, r) && MailInv(p, log, decrypted, r, peer)
    requires r + 2 < |log| && log[r + 2].pn < U32
    requires (q, e) == if p.dhRemote.Some? then SkipTo(p, log[r + 2].pn) else (p, None)
    ensures p.chainRecv != Nil && log[r + 2].pn - p.nRecv > MAX_SKIP ==> q == p && e == Some(SkipTooLarge)
    ensures p.chainRecv == Nil || log[r + 2].pn - p.nRecv <= MAX_SKIP ==>
              && e.None?
              && PartyInv(q, log, s, r) && MailInv(q, log, decrypted, r, peer)
              && q.nRecv == (if r < 0 then 0 else |log[r].letters|)
              && q == p.(chainRecv := q.chainRecv, nRecv := q.nRecv, skipped := q.skipped)
  {
    if r > 0 {
      assert EpochInv(log, r + 2);
      ChainNotNil(log, r, p.nRecv);
      if log[r + 2].pn - p.nRecv <= MAX_SKIP {
        SkipKeeps(peer, p, log, decrypted, s, r, log[r + 2].pn);
      }
    } else if r == 0 {
      assert EpochInv(log, 0);
    }
  }

  /** Adopting the peer's next chain, once the last one has been read to its end. */
  lemma {:induction false} DhStepKeepsParty(p: Party, log: seq<Epoch>, s: int, hdr: Header, q: Party,
                                            e: Option<RatchetError>)
    requires PartyInv(p, log, s, s - 1) && s + 1 < |log| && EpochInv(log, s + 1)
    requires hdr.dhPub == log[s + 1].dh && hdr.mlkemCiphertext == CiphertextOf(log[s + 1].inject)
    requires hdr.mlkemPub.Some? ==> hdr.mlkemPub == log[s + 1].adv
    requires log[s + 1].inject.Some? ==> p.selfPendingKem == Some(log[s + 1].inject.value.pub)
    requires (q, e) == DhStep(p, hdr)
    ensures e.None? && PartyInv(q, log, s, s + 1) && q.nRecv == 0 && q.skipped == p.skipped
    ensures q.peerAdvertisedKem == hdr.mlkemPub && q.msgsSinceInject == p.msgsSinceInject
    ensures q.selfPendingKem == if log[s + 1].inject.Some? then None else p.selfPendingKem
  {
    assert Dh(p.dhSelf, hdr.dhPub) == Dh(log[s + 1].dh, log[s].dh);
  }

  lemma DhStepKeepsMail(peer: Who, p: Party, log: seq<Epoch>, decrypted: set<LetterId>, r: int, q: Party)
    requires MailInv(p, log, decrypted, r, peer) && -1 <= r < |log| - 2
    requires log[r + 1].creator != peer && log[r + 2].creator == peer
    requires p.nRecv == if 0 <= r < |log| then |log[r].letters| else 0
    requires q.nRecv == 0 && q.skipped == p.skipped
    ensures MailInv(q, log, decrypted, r + 2, peer)
  {
    forall e: nat, n: nat
      ensures Passed(q, log, r + 2, peer, e, n) <==> Passed(p, log, r, peer, e, n)
    {
    }
    forall k | k in q.skipped
      ensures exists e: nat :: Passed(q, log, r + 2, peer, e, k.1) && log[e].dh == k.0
    {
      var e: nat :| Passed(p, log, r, peer, e, k.1) && log[e].dh == k.0;
      assert Passed(q, log, r + 2, peer, e, k.1);
    }
  }

  /** DecryptMessage for a header that starts a new chain, step by step. */
  lemma DecryptNew(p: Party, pkt: Packet, ad: bytes, o: Party, e0: Option<RatchetError>, q1: Party,
                   e1: Option<RatchetError>, q2: Party, e2: Option<RatchetError>)
    requires p.Valid() && pkt.hdr.pn < U32 && pkt.hdr.n < U32
    requires (pkt.hdr.dhPub, pkt.hdr.n) !in p.skipped && IsNewRatchetKey(p, pkt.hdr)
    requires (o, e0) == if p.dhRemote.Some? then SkipTo(p, pkt.hdr.pn) else (p, None)
    requires (q1, e1) == DhStep(o, pkt.hdr) && (q2, e2) == SkipTo(q1, pkt.hdr.n)
    ensures Decrypt(p, pkt, ad) ==
      if e0.Some? then (o, Failure(e0.value))
      else if e1.Some? then (q1, Failure(e1.value))
      else if e2.Some? then (q2, Failure(e2.value))
      else (TakeNext(q2), Opened(MsgOf(q2.chainRecv), pkt.box, AdWithHeader(pkt.hdr, ad)))
  {
    hide SkipTo, DhStep, AdWithHeader, TakeNext, Opened;
  }

  /** A letter of the chain after the one the receiver is on: its key is not filed, and its header is new. */
  lemma NewLetter(peer: Who, p: Party, log: seq<Epoch>, decrypted: set<LetterId>, s: int, n: nat)
    requires LogInv(log) && PartyInv(p, log, s, s - 1) && MailInv(p, log, decrypted, s - 1, peer)
    requires s + 1 < |log| && n < |log[s + 1].letters|
    ensures EpochInv(log, s + 1) && LetterInv(log[s + 1], n)
    ensures (log[s + 1].dh, n) !in p.skipped && (p.dhRemote.Some? ==> p.dhRemote.value != log[s + 1].dh)
  {
    NotYetFiled(peer, p, log, decrypted, s - 1, s + 1, n);
  }

  /** The peer's epoch that a party is on, read off whether it owes a chain. */
  lemma ReceivingEpoch(p: Party, log: seq<Epoch>, s: int, r: int)
    requires PartyInv(p, log, s, r)
    ensures p.Valid() && r == if p.needsNewSendingChain then s + 1 else s - 1
  {
  }

  /** Adopting the peer's next chain, once the last one has been read to its end, and catching up to letter n of it. */
  lemma AdoptNext(
      peer: Who, p: Party, log: seq<Epoch>, decrypted: set<LetterId>, s: int, n: nat, hdr: Header,
      q1: Party, e1: Option<RatchetError>, q2: Party, e2: Option<RatchetError>)
    requires p.Valid() && 0 <= s && s + 1 < |log| && n < |log[s + 1].letters| && n < U32
    requires hdr == HeaderAt(log[s + 1], n) && (q1, e1) == DhStep(p, hdr) && (q2, e2) == SkipTo(q1, n)
    requires log[s].creator != peer && log[s + 1].creator == peer
    requires log[s + 1].inject.Some? ==> n == 0 && p.selfPendingKem == Some(log[s + 1].inject.value.pub)
    requires p.nRecv == if s < 1 then 0 else |log[s - 1].letters|
    requires EpochInv(log, s + 1) && LogInv(log) && PartyInv(p, log, s, s - 1)
             && MailInv(p, log, decrypted, s - 1, peer)
    ensures e1.None? && q2.msgsSinceInject == p.msgsSinceInject
    ensures q2.selfPendingKem == if log[s + 1].inject.Some? then None else p.selfPendingKem
    ensures n > MAX_SKIP ==>
              && q2 == q1 && e2 == Some(SkipTooLarge) && q1.needsNewSendingChain
              && PartyInv(q1, log, s, s + 1) && MailInv(q1, log, decrypted, s + 1, peer)
    ensures n <= MAX_SKIP ==>
              && e2.None? && MsgOf(q2.chainRecv) == MessageKey(log[s + 1], n) && TakeNext(q2).needsNewSendingChain
              && PartyInv(TakeNext(q2), log, s, s + 1)
              && MailInv(TakeNext(q2), log, decrypted + {(s + 1, n)}, s + 1, peer)
  {
    hide LogInv, MailInv, SkipTo, DhStep;
    DhStepKeepsParty(p, log, s, hdr, q1, e1);
    DhStepKeepsMail(peer, p, log, decrypted, s - 1, q1);
    ReceivingEpoch(q1, log, s, s + 1);
    ReadOn(peer, q1, log, decrypted, s, s + 1, n, q2, e2);
  }

  /** A letter on the peer's next chain. */
  lemma {:induction false} DeliverNew(
      peer: Who, p: Party, log: seq<Epoch>, decrypted: set<LetterId>, s: int, n: nat, l: Letter,
      q: Party, res: Result<bytes, RatchetError>)
    requires LogInv(log) && PartyInv(p, log, s, s - 1) && MailInv(p, log, decrypted, s - 1, peer)
    requires s + 1 < |log| && n < |log[s + 1].letters| && l == log[s + 1].letters[n] && Wireable(l)
    requires log[s].creator != peer && log[s + 1].creator == peer
    requires log[s + 1].inject.Some? ==> n == 0 && p.selfPendingKem == Some(log[s + 1].inject.value.pub)
    requires (q, res) == Decrypt(p, l.pkt, l.ad)
    ensures res == if InWindow(p, l.pkt.hdr) then Success(l.plaintext) else Failure(SkipTooLarge)
    ensures !q.needsNewSendingChain ==> q == p && res.Failure?
    ensures q.msgsSinceInject == p.msgsSinceInject
    ensures q.needsNewSendingChain ==> q.selfPendingKem == if log[s + 1].inject.Some? then None else p.selfPendingKem
    ensures q.needsNewSendingChain ==>
              && PartyInv(q, log, s, s + 1)
              && MailInv(q, log, if res.Success? then decrypted + {(s + 1, n)} else decrypted, s + 1, peer)
              && (log[s + 1].inject.Some? ==> res.Success?)
  {
    hide LogInv, MailInv, PartyInv, EpochInv, SkipTo, DhStep, Decrypt, AdWithHeader;
    var hdr := l.pkt.hdr;
    NewLetter(peer, p, log, decrypted, s, n);
    ReceivingEpoch(p, log, s, s - 1);
    var (q0, e0) := if p.dhRemote.Some? then SkipTo(p, hdr.pn) else (p, None);
    var (q1, e1) := DhStep(q0, hdr);
    var (q2, e2) := SkipTo(q1, n);
    DecryptNew(p, l.pkt, l.ad, q0, e0, q1, e1, q2, e2);
    FinishChain(peer, p, log, decrypted, s, s - 1, q0, e0);
    if e0.None? {
      AdoptNext(peer, q0, log, decrypted, s, n, hdr, q1, e1, q2, e2);
    }
  }

  /** On a chain not yet ratcheted to, head-first delivery admits only the head. */
  lemma HeadIsFirst(peer: Who, p: Party, log: seq<Epoch>, decrypted: set<LetterId>, r: int, e: nat, n: nat)
    requires MailInv(p, log, decrypted, r, peer) && Sent(log, e, n) && HeadFirst(log, decrypted, e, n)
    requires e > r && log[e].creator == peer
    ensures log[e].inject.Some? ==> n == 0
  {
  }

  /** Any admissible letter, seen from its receiver; r' is the epoch the receiver ends up on. */
  lemma DeliverSide(peer: Who, p: Party, log: seq<Epoch>, decrypted: set<LetterId>, s: int, r: int, e: nat, n: nat,
                    l: Letter, q: Party, res: Result<bytes, RatchetError>, decrypted': set<LetterId>, r': int)
    requires LogInv(log) && PartyInv(p, log, s, r) && MailInv(p, log, decrypted, r, peer)
    requires Sent(log, e, n) && (e, n) !in decrypted && HeadFirst(log, decrypted, e, n)
    requires log[e].creator == peer && (e <= r || (r == s - 1 && e == s + 1 && log[s].creator != peer))
    requires e > r && log[e].inject.Some? ==> p.selfPendingKem == Some(log[e].inject.value.pub)
    requires l == log[e].letters[n] && Wireable(l) && (q, res) == Decrypt(p, l.pkt, l.ad)
    requires decrypted' == if res.Success? then decrypted + {(e, n)} else decrypted
    requires r' == if q.needsNewSendingChain then s + 1 else s - 1
    ensures res == if InWindow(p, l.pkt.hdr) then Success(l.plaintext) else Failure(SkipTooLarge)
    ensures PartyInv(q, log, s, r')
    ensures MailInv(q, log, decrypted', r', peer)
    ensures r' != r ==> r < r' == e && (log[e].inject.Some? ==> n == 0 && res.Success?)
    ensures q.selfPendingKem == if r' != r && log[e].inject.Some? then None else p.selfPendingKem
    ensures q.msgsSinceInject == p.msgsSinceInject
  {
    ReceivingEpoch(p, log, s, r);
    hide Decrypt, InWindow, PartyInv;
    if Passed(p, log, r, peer, e, n) {
      DeliverStored(peer, p, log, decrypted, s, r, e, n, l, q, res);
    } else if e == r {
      assert EpochInv(log, e);
      DeliverAhead(peer, p, log, decrypted, s, r, n, l, q, res);
    } else {
      HeadIsFirst(peer, p, log, decrypted, r, e, n);
      DeliverNew(peer, p, log, decrypted, s, n, l, q, res);
    }
  }

  /** The side that a delivery does not touch. */
  lemma BystanderKeeps(peer: Who, p: Party, log: seq<Epoch>, decrypted: set<LetterId>, r: int, e: nat, n: nat,
                       decrypted': set<LetterId>)
    requires MailInv(p, log, decrypted, r, peer) && HeadsInv(log, decrypted, r, peer)
    requires Sent(log, e, n) && log[e].creator != peer
    requires decrypted <= decrypted' <= decrypted + {(e, n)}
    ensures MailInv(p, log, decrypted', r, peer) && HeadsInv(log, decrypted', r, peer)
  {
  }

  /**
   First letters stay decrypted, and an adopted chain that answers an advertisement was adopted by its first letter.
   */
  lemma HeadsKeep(peer: Who, log: seq<Epoch>, decrypted: set<LetterId>, decrypted': set<LetterId>, r: int, r': int)
    requires HeadsInv(log, decrypted, r, peer) && decrypted <= decrypted'
    requires r' == r || (r' == r + 2 && 0 < r' < |log| && log[r + 1].creator != peer
                         && (log[r'].inject.Some? ==> (r' as nat, 0) in decrypted'))
    ensures HeadsInv(log, decrypted', r', peer)
  {
  }

  lemma SidesApart(p: Party, log: seq<Epoch>, s: int, r: int)
    requires PartyInv(p, log, s, r)
    ensures 0 <= s < |log| && (r == s - 1 || r == s + 1)
  {
  }

  /** What a delivery does to what its receiver keeps for the injection schedule. */
  lemma DeliverInject(peer: Who, p: Party, log: seq<Epoch>, decrypted: set<LetterId>, s: int, r: int, e: nat, n: nat,
                      q: Party, decrypted': set<LetterId>, r': int)
    requires LogInv(log) && InjectInv(p, log, decrypted, peer.Other()) && HeadsInv(log, decrypted, r, peer)
    requires 0 <= s < |log| <= s + 2 && Sent(log, e, n) && log[e].creator == peer && log[s].creator != peer
    requires (e, n) !in decrypted && (decrypted' == decrypted || (decrypted' == decrypted + {(e, n)} && e <= r'))
    requires r' != r ==> r < r' == e && (log[e].inject.Some? ==> n == 0 && (e, n) in decrypted')
    requires q.selfPendingKem == if r' != r && log[e].inject.Some? then None else p.selfPendingKem
    requires q.msgsSinceInject == p.msgsSinceInject && (r' != r ==> e == s + 1)
    ensures InjectInv(q, log, decrypted', peer.Other())
  {
    Creators(log, e);
    Creators(log, s);
    var who := peer.Other();
    var a := Advertised(log, who, |log|);
    if a >= 0 {
      Creators(log, a);
      if a + 1 < |log| { Creators(log, a + 1); }
    }
    if r' != r && log[e].inject.Some? {
      assert EpochInv(log, e);
      assert a == s;
    }
  }

  /** The side that a delivery does not touch. */
  lemma BystanderInject(peer: Who, p: Party, log: seq<Epoch>, decrypted: set<LetterId>, e: nat, n: nat,
                        decrypted': set<LetterId>)
    requires LogInv(log) && InjectInv(p, log, decrypted, peer.Other())
    requires Sent(log, e, n) && log[e].creator != peer && decrypted <= decrypted' <= decrypted + {(e, n)}
    ensures InjectInv(p, log, decrypted', peer.Other())
  {
    var a := Advertised(log, peer.Other(), |log|);
    Creators(log, e);
    if a >= 0 {
      Creators(log, a);
      if a + 1 < |log| { Creators(log, a + 1); }
    }
  }

  /** A chain not yet ratcheted to that answers an advertisement finds the key it was made for. */
  lemma AnswerAwaited(p: Party, log: seq<Epoch>, decrypted: set<LetterId>, s: int, r: int, e: nat, peer: Who)
    requires LogInv(log) && InjectInv(p, log, decrypted, peer.Other()) && MailInv(p, log, decrypted, r, peer)
    requires 0 <= s < |log| && log[s].creator != peer && e == s + 1 && e > r && |log| == e + 1
    requires log[e].creator == peer && log[e].inject.Some?
    ensures p.selfPendingKem == Some(log[e].inject.value.pub)
  {
    assert EpochInv(log, e);
    Creators(log, e);
    assert !Passed(p, log, r, peer, e, 0);
    assert log[s].creator == peer.Other() != log[e].creator;
    assert Advertised(log, peer.Other(), |log|) == s;
  }

  /** DeliverSide for the whole of a side's invariant. */
  lemma DeliverKeepsSide(peer: Who, p: Party, log: seq<Epoch>, decrypted: set<LetterId>, s: int, r: int, e: nat, n: nat,
                         l: Letter, q: Party, res: Result<bytes, RatchetError>, decrypted': set<LetterId>, r': int)
    requires LogInv(log) && SideInv(p, log, decrypted, s, r, peer) && InjectInv(p, log, decrypted, peer.Other())
    requires 0 <= s < |log| <= s + 2 && Sent(log, e, n) && (e, n) !in decrypted && HeadFirst(log, decrypted, e, n)
    requires log[e].creator == peer && log[s].creator != peer && (e <= r || (r == s - 1 && e == s + 1))
    requires l == log[e].letters[n] && Wireable(l) && (q, res) == Decrypt(p, l.pkt, l.ad)
    requires decrypted' == if res.Success? then decrypted + {(e, n)} else decrypted
    requires r' == if q.needsNewSendingChain then s + 1 else s - 1
    ensures res == if InWindow(p, l.pkt.hdr) then Success(l.plaintext) else Failure(SkipTooLarge)
    ensures SideInv(q, log, decrypted', s, r', peer) && InjectInv(q, log, decrypted', peer.Other())
  {
    hide LogInv, PartyInv, MailInv, HeadsInv, InjectInv, Decrypt, InWindow;
    SidesApart(p, log, s, r);
    if e > r && log[e].inject.Some? { AnswerAwaited(p, log, decrypted, s, r, e, peer); }
    DeliverSide(peer, p, log, decrypted, s, r, e, n, l, q, res, decrypted', r');
    HeadsKeep(peer, log, decrypted, decrypted', r, r');
    if res.Success? { DecryptedPassed(peer, q, log, decrypted', r', e, n); }
    DeliverInject(peer, p, log, decrypted, s, r, e, n, q, decrypted', r');
  }

  lemma DecryptedPassed(peer: Who, p: Party, log: seq<Epoch>, decrypted: set<LetterId>, r: int, e: nat, n: nat)
    requires MailInv(p, log, decrypted, r, peer) && (e, n) in decrypted && e < |log| && log[e].creator == peer
    ensures e <= r
  {
    assert Passed(p, log, r, peer, e, n);
  }

  /** Delivery to the creator of the newest epoch. */
  lemma DeliverToCreator(c: Who, x: Party, o: Party, log: seq<Epoch>, decrypted: set<LetterId>, e: nat, n: nat,
                         l: Letter, q: Party, res: Result<bytes, RatchetError>, decrypted': set<LetterId>)
    requires LogInv(log) && RolesInv(x, o, log, decrypted) && c == log[|log| - 1].creator
    requires Sent(log, e, n) && (e, n) !in decrypted && HeadFirst(log, decrypted, e, n)
    requires log[e].creator != c && e < |log| - 1
    requires l == log[e].letters[n] && Wireable(l) && (q, res) == Decrypt(x, l.pkt, l.ad)
    requires decrypted' == if res.Success? then decrypted + {(e, n)} else decrypted
    ensures res == if InWindow(x, l.pkt.hdr) then Success(l.plaintext) else Failure(SkipTooLarge)
    ensures RolesInv(q, o, log, decrypted')
  {
    hide Decrypt, InWindow, MailInv, PartyInv, HeadsInv, LogInv, InjectInv;
    var last := |log| - 1;
    var r' := if q.needsNewSendingChain then last + 1 else last - 1;
    DeliverKeepsSide(c.Other(), x, log, decrypted, last, last - 1, e, n, l, q, res, decrypted', r');
    SideInLog(c.Other(), q, log, decrypted', last, r');
    BystanderKeeps(c, o, log, decrypted, PeerEpoch(o, last), e, n, decrypted');
    BystanderInject(c, o, log, decrypted, e, n, decrypted');
  }

  lemma SideInLog(peer: Who, p: Party, log: seq<Epoch>, decrypted: set<LetterId>, s: int, r: int)
    requires SideInv(p, log, decrypted, s, r, peer)
    ensures r < |log|
  {
  }

  /** Delivery to the party that answers to the newest epoch. */
  lemma DeliverToPeer(c: Who, x: Party, o: Party, log: seq<Epoch>, decrypted: set<LetterId>, e: nat, n: nat, l: Letter,
                      q: Party, res: Result<bytes, RatchetError>, decrypted': set<LetterId>)
    requires LogInv(log) && RolesInv(x, o, log, decrypted) && c == log[|log| - 1].creator
    requires Sent(log, e, n) && (e, n) !in decrypted && HeadFirst(log, decrypted, e, n)
    requires log[e].creator == c && |log| >= 2 && log[|log| - 2].creator != c
    requires l == log[e].letters[n] && Wireable(l) && (q, res) == Decrypt(o, l.pkt, l.ad)
    requires decrypted' == if res.Success? then decrypted + {(e, n)} else decrypted
    ensures res == if InWindow(o, l.pkt.hdr) then Success(l.plaintext) else Failure(SkipTooLarge)
    ensures RolesInv(x, q, log, decrypted')
  {
    hide Decrypt, InWindow, MailInv, PartyInv, HeadsInv, LogInv, InjectInv;
    var last := |log| - 1;
    var r, r' := PeerEpoch(o, last), PeerEpoch(q, last);
    DeliverKeepsSide(c, o, log, decrypted, last - 1, r, e, n, l, q, res, decrypted', r');
    BystanderKeeps(c.Other(), x, log, decrypted, last - 1, e, n, decrypted');
    BystanderInject(c.Other(), x, log, decrypted, e, n, decrypted');
  }

  /** Neighbouring epochs have different creators, and the log's parity names each. */
  lemma Creators(log: seq<Epoch>, e: nat)
    requires LogInv(log) && e < |log|
    ensures log[e].creator == if e % 2 == 0 then Bob else Alice
  {
    assert EpochInv(log, e);
  }

  /** Delivering any admissible letter keeps the invariant and yields the plaintext, or asks for too large a skip. */
  lemma {:induction false} DeliverKeeps(y: Sys, e: nat, n: nat, y': Sys, res: Result<bytes, RatchetError>)
    requires Inv(y) && Runnable(y) && MayDeliver(y, e, n)
    requires (y', res) == DeliverStep(y, e, n)
    ensures Inv(y')
    ensures res == if InWindow(y.Get(y.log[e].creator.Other()), y.log[e].letters[n].pkt.hdr)
                   then Success(y.log[e].letters[n].plaintext) else Failure(SkipTooLarge)
  {
    hide Decrypt, InWindow, RolesInv, LogInv, HeadFirst;
    var l := y.log[e].letters[n];
    var c := y.log[|y.log| - 1].creator;
    assert |y.log| >= 2;
    Creators(y.log, e);
    Creators(y.log, |y.log| - 1);
    Creators(y.log, |y.log| - 2);
    if y.log[e].creator == c {
      DeliverToPeer(c, y.Get(c), y.Get(c.Other()), y.log, y.decrypted, e, n, l, y'.Get(c.Other()), res, y'.decrypted);
    } else {
      DeliverToCreator(c, y.Get(c), y.Get(c.Other()), y.log, y.decrypted, e, n, l, y'.Get(c), res, y'.decrypted);
    }
  }

  // ---------------------------------------------------------------- one sending

  /** log' is log with more letters on epoch s, or more epochs at the end. */
  ghost predicate Extends(log: seq<Epoch>, log': seq<Epoch>, s: int) {
    && |log| <= |log'|
    && (forall i :: 0 <= i < |log| && i != s ==> log'[i] == log[i])
    && (0 <= s < |log| ==> log'[s] == log[s].(letters := log'[s].letters) && log[s].letters <= log'[s].letters)
  }

  /** Growth at or beyond the receiver's epoch is no mail of its yet. */
  lemma MailFrame(peer: Who, p: Party, log: seq<Epoch>, log': seq<Epoch>, decrypted: set<LetterId>, s: int, r: int)
    requires Extends(log, log', s) && MailInv(p, log, decrypted, r, peer) && HeadsInv(log, decrypted, r, peer)
    requires -1 <= r < |log| && (0 <= r ==> p.nRecv <= |log[r].letters|)
    requires r <= s || (0 <= s < |log| && log[s].creator != peer)
    ensures MailInv(p, log', decrypted, r, peer) && HeadsInv(log', decrypted, r, peer)
  {
    forall e: nat, n: nat
      ensures Passed(p, log', r, peer, e, n) <==> Passed(p, log, r, peer, e, n)
    {
    }
    forall k | k in p.skipped
      ensures exists e: nat :: Passed(p, log', r, peer, e, k.1) && log'[e].dh == k.0
    {
      var e: nat :| Passed(p, log, r, peer, e, k.1) && log[e].dh == k.0;
      assert Passed(p, log', r, peer, e, k.1);
    }
  }

  lemma PartyFrame(p: Party, log: seq<Epoch>, log': seq<Epoch>, s: int, s': int, r: int)
    requires Extends(log, log', s') && PartyInv(p, log, s, r) && s != s'
    ensures PartyInv(p, log', s, r)
  {
  }

  /** Letters do not advertise, and new epochs do not change what the old ones say. */
  lemma {:induction false} AdvertisedFrame(log: seq<Epoch>, log': seq<Epoch>, who: Who, k: nat)
    requires k <= |log| <= |log'|
    requires forall i :: 0 <= i < k ==> log'[i].creator == log[i].creator && log'[i].adv == log[i].adv
    ensures Advertised(log', who, k) == Advertised(log, who, k)
  {
    if k == 0 {
    } else {
      AdvertisedFrame(log, log', who, k - 1);
    }
  }

  /** Only a party's own letters count. */
  lemma {:induction false} SealedFrame(log: seq<Epoch>, log': seq<Epoch>, who: Who, k: nat)
    requires k <= |log| <= |log'|
    requires forall i :: 0 <= i < k ==> log'[i].creator == log[i].creator && log'[i].adv == log[i].adv
    requires forall i :: 0 <= i < k && log[i].creator == who ==> |log'[i].letters| == |log[i].letters|
    ensures SealedSince(log', who, k) == SealedSince(log, who, k)
  {
    if k == 0 {
    } else {
      SealedFrame(log, log', who, k - 1);
    }
  }

  /** Letters do not change which key should be pending. */
  lemma PendingFrame(log: seq<Epoch>, log': seq<Epoch>, decrypted: set<LetterId>, who: Who)
    requires |log'| == |log|
    requires forall i :: 0 <= i < |log| ==> log'[i] == log[i].(letters := log'[i].letters)
    ensures Pending(log', decrypted, who) == Pending(log, decrypted, who)
  {
    AdvertisedFrame(log, log', who, |log|);
  }

  /** One more letter is one more, for its sender. */
  lemma SealedMore(log: seq<Epoch>, s: nat, l: Letter, log': seq<Epoch>)
    requires s < |log| <= s + 2 && log' == log[s := log[s].(letters := log[s].letters + [l])]
    requires s + 1 < |log| ==> log[s + 1].creator != log[s].creator
    ensures SealedSince(log', log[s].creator, |log|) == SealedSince(log, log[s].creator, |log|) + 1
  {
    hide SealedSince;
    var who := log[s].creator;
    SealedFrame(log, log', who, s);
    SealedStep(log, who, s);
    SealedStep(log', who, s);
    if s + 1 < |log| {
      SealedStep(log, who, s + 1);
      SealedStep(log', who, s + 1);
    }
  }

  lemma SealedStep(log: seq<Epoch>, who: Who, k: nat)
    requires k < |log|
    ensures SealedSince(log, who, k + 1) ==
      if log[k].creator != who then SealedSince(log, who, k)
      else |log[k].letters| + (if log[k].adv.Some? then 0 else SealedSince(log, who, k))
  {
  }

  /** One more letter is one more, for its sender and for nobody else. */
  lemma SendSameInject(log: seq<Epoch>, log': seq<Epoch>, decrypted: set<LetterId>, s: int, l: Letter, p: Party,
                       q: Party, x: Party)
    requires LogInv(log) && 0 <= s < |log| <= s + 2
    requires log' == log[s := log[s].(letters := log[s].letters + [l])]
    requires InjectInv(p, log, decrypted, log[s].creator) && InjectInv(x, log, decrypted, log[s].creator.Other())
    requires q.selfPendingKem == p.selfPendingKem && q.msgsSinceInject == p.msgsSinceInject + 1
    ensures InjectInv(q, log', decrypted, log[s].creator) && InjectInv(x, log', decrypted, log[s].creator.Other())
  {
    hide LogInv, Pending, SealedSince;
    var who := log[s].creator;
    Creators(log, s);
    if s + 2 == |log| { Creators(log, s + 1); }
    PendingFrame(log, log', decrypted, who);
    PendingFrame(log, log', decrypted, who.Other());
    SealedFrame(log, log', who.Other(), |log|);
    SealedMore(log, s, l, log');
  }

  /** A new chain is one letter, and an advertisement on it starts the count afresh. */
  lemma SendNewInject(c: Who, x: Party, o: Party, log: seq<Epoch>, decrypted: set<LetterId>, ep: Epoch,
                      log': seq<Epoch>, q: Party)
    requires LogInv(log) && InjectInv(x, log, decrypted, c) && InjectInv(o, log, decrypted, c.Other())
    requires c == log[|log| - 1].creator && log' == log + [ep] && ep.creator == c.Other() && |ep.letters| == 1
    requires forall id :: id in decrypted ==> id.0 < |log|
    requires q.selfPendingKem == if ep.adv.Some? then ep.adv else o.selfPendingKem
    requires q.msgsSinceInject == (if ep.adv.Some? then 0 else o.msgsSinceInject) + 1
    ensures InjectInv(q, log', decrypted, c.Other()) && InjectInv(x, log', decrypted, c)
  {
    assert |log| > 0;
    hide LogInv, SealedSince;
    assert c != c.Other();
    forall who: Who
      ensures Advertised(log', who, |log|) == Advertised(log, who, |log|)
      ensures SealedSince(log', who, |log|) == SealedSince(log, who, |log|)
    {
      AdvertisedFrame(log, log', who, |log|);
      SealedFrame(log, log', who, |log|);
      SealedStep(log', who, |log|);
    }
    SealedStep(log', c, |log|);
    SealedStep(log', c.Other(), |log|);
    assert Advertised(log', c, |log'|) == Advertised(log', c, |log|);
  }

  /** One more letter on the sender's current chain. */
  lemma SendSameLog(p: Party, log: seq<Epoch>, s: int, r: int, l: Letter, log': seq<Epoch>)
    requires LogInv(log) && PartyInv(p, log, s, r) && |log| - 2 <= s
    requires !p.needsNewSendingChain && p.chainSend != Nil && p.nSend + 1 < U32
    requires l.pkt == Packet(HeaderAt(log[s], p.nSend),
                             Sealed(MsgOf(p.chainSend), AdWithHeader(HeaderAt(log[s], p.nSend), l.ad), l.plaintext))
    requires log' == log[s := log[s].(letters := log[s].letters + [l])]
    ensures LogInv(log') && Extends(log, log', s)
  {
    hide Header.Marshal;
    assert EpochInv(log, s);
    forall i | 0 <= i < |log'|
      ensures EpochInv(log', i)
    {
      assert EpochInv(log, i);
      forall n | 0 <= n < |log'[i].letters|
        ensures LetterInv(log'[i], n)
      {
        if n < |log[i].letters| { assert LetterInv(log[i], n); }
      }
    }
  }

  lemma SendSameParty(p: Party, log: seq<Epoch>, s: int, r: int, l: Letter, log': seq<Epoch>, q: Party)
    requires PartyInv(p, log, s, r) && p.nSend + 1 < U32
    requires log' == log[s := log[s].(letters := log[s].letters + [l])]
    requires q == p.(chainSend := NextOf(p.chainSend), nSend := (p.nSend + 1) % U32,
                     msgsSinceInject := q.msgsSinceInject)
    ensures PartyInv(q, log', s, r)
  {
  }

  /** What Encrypt does for a party that stays on its chain, told in the log's terms. */
  lemma SendSameEncrypt(p: Party, log: seq<Epoch>, s: int, r: int, c: Coins, plaintext: bytes, ad: bytes, q: Party,
                        pkt: Packet)
    requires LogInv(log) && PartyInv(p, log, s, r)
    requires !p.needsNewSendingChain && p.chainSend != Nil
    requires (q, pkt) == Encrypt(p, c, plaintext, ad)
    ensures pkt == Packet(HeaderAt(log[s], p.nSend),
                          Sealed(MsgOf(p.chainSend), AdWithHeader(HeaderAt(log[s], p.nSend), ad), plaintext))
    ensures q == p.(chainSend := NextOf(p.chainSend), nSend := (p.nSend + 1) % U32,
                    msgsSinceInject := p.msgsSinceInject + 1)
  {
    hide Header.Marshal;
    assert EpochInv(log, s);
  }

  /** Everything one letter on the sender's current chain changes on the sender's side and in the log. */
  lemma {:induction false} SendSame(
      peer: Who, p: Party, log: seq<Epoch>, decrypted: set<LetterId>, s: int, r: int, c: Coins, l: Letter,
      log': seq<Epoch>, q: Party)
    requires LogInv(log) && SideInv(p, log, decrypted, s, r, peer) && |log| - 2 <= s && log[s].creator != peer
    requires !p.needsNewSendingChain && p.chainSend != Nil && p.nSend + 1 < U32
    requires (q, l.pkt) == Encrypt(p, c, l.plaintext, l.ad)
    requires log' == log[s := log[s].(letters := log[s].letters + [l])]
    ensures LogInv(log') && Extends(log, log', s) && SideInv(q, log', decrypted, s, r, peer)
    ensures q == p.(chainSend := q.chainSend, nSend := q.nSend, msgsSinceInject := p.msgsSinceInject + 1)
  {
    hide LogInv, MailInv, HeadsInv, Encrypt;
    SendSameEncrypt(p, log, s, r, c, l.plaintext, l.ad, q, l.pkt);
    SendSameLog(p, log, s, r, l, log');
    SendSameParty(p, log, s, r, l, log', q);
    MailFrame(peer, p, log, log', decrypted, s, r);
    MailSender(peer, p, q, log', decrypted, r);
  }

  /** Sending touches nothing that receiving depends on. */
  lemma MailSender(peer: Who, p: Party, q: Party, log: seq<Epoch>, decrypted: set<LetterId>, r: int)
    requires MailInv(p, log, decrypted, r, peer) && q.nRecv == p.nRecv && q.skipped == p.skipped
    ensures MailInv(q, log, decrypted, r, peer)
  {
    forall e: nat, n: nat
      ensures Passed(q, log, r, peer, e, n) <==> Passed(p, log, r, peer, e, n)
    {
    }
    forall k | k in q.skipped
      ensures exists e: nat :: Passed(q, log, r, peer, e, k.1) && log[e].dh == k.0
    {
      var e: nat :| Passed(p, log, r, peer, e, k.1) && log[e].dh == k.0;
      assert Passed(q, log, r, peer, e, k.1);
    }
  }

  /** The creator of the newest epoch sends again on it. */
  lemma CreatorSends(c: Who, x: Party, o: Party, log: seq<Epoch>, decrypted: set<LetterId>, coins: Coins, l: Letter,
                     log': seq<Epoch>, q: Party)
    requires LogInv(log) && RolesInv(x, o, log, decrypted) && c == log[|log| - 1].creator
    requires x.chainSend != Nil && x.nSend + 1 < U32
    requires x.Valid() && (q, l.pkt) == Encrypt(x, coins, l.plaintext, l.ad)
    requires log' == log[|log| - 1 := log[|log| - 1].(letters := log[|log| - 1].letters + [l])]
    ensures LogInv(log') && RolesInv(q, o, log', decrypted)
  {
    var last := |log| - 1;
    assert x.needsNewSendingChain == false;
    var r := PeerEpoch(o, last);
    assert PartyInv(o, log, last - 1, r) && PartyInv(x, log, last, last - 1);
    hide LogInv, MailInv, HeadsInv, InjectInv, Encrypt;
    SendSame(c.Other(), x, log, decrypted, last, last - 1, coins, l, log', q);
    SendSameInject(log, log', decrypted, last, l, x, q, o);
    MailFrame(c, o, log, log', decrypted, last, r);
    PartyFrame(o, log, log', last - 1, last, r);
  }

  /** The other party, not having seen the newest epoch, sends on the one before. */
  lemma PeerSends(c: Who, x: Party, o: Party, log: seq<Epoch>, decrypted: set<LetterId>, coins: Coins, l: Letter,
                  log': seq<Epoch>, q: Party)
    requires LogInv(log) && RolesInv(x, o, log, decrypted) && c == log[|log| - 1].creator && c != log[|log| - 2].creator
    requires !o.needsNewSendingChain && o.chainSend != Nil && o.nSend + 1 < U32
    requires o.Valid() && (q, l.pkt) == Encrypt(o, coins, l.plaintext, l.ad)
    requires log' == log[|log| - 2 := log[|log| - 2].(letters := log[|log| - 2].letters + [l])]
    ensures LogInv(log') && RolesInv(x, q, log', decrypted)
  {
    var last := |log| - 1;
    assert PartyInv(o, log, last - 1, last - 2) && PartyInv(x, log, last, last - 1);
    hide LogInv, MailInv, HeadsInv, InjectInv, Encrypt;
    SendSame(c, o, log, decrypted, last - 1, last - 2, coins, l, log', q);
    MailFrame(c.Other(), x, log, log', decrypted, last - 1, last - 1);
    PartyFrame(x, log, log', last, last - 1, last - 1);
    SendSameInject(log, log', decrypted, last - 1, l, o, q, x);
  }

  /** The epoch that a party owing a new chain starts. */
  function NewEpoch(who: Who, p: Party, c: Coins, q: Party, l: Letter): Epoch
    requires p.Valid()
  {
    Epoch(who, q.dhSelf, Encapsulation(p, c), l.pkt.hdr.mlkemPub, q.pn, q.root, Prepare(p, c).0.chainSend, [l])
  }

  lemma SendNewEncrypt(who: Who, p: Party, c: Coins, l: Letter, q: Party, ep: Epoch)
    requires p.Valid() && p.needsNewSendingChain
    requires (q, l.pkt) == Encrypt(p, c, l.plaintext, l.ad) && ep == NewEpoch(who, p, c, q, l)
    ensures ep.dh == q.dhSelf == c.dh && ep.pn == q.pn == p.nSend
    ensures ep.root == q.root == RootOf(p.root, Dh(c.dh, p.dhRemote.value), Encapsulation(p, c))
    ensures ep.chain == ChainOf(p.root, Dh(c.dh, p.dhRemote.value), Encapsulation(p, c))
    ensures q.chainSend == NextOf(ep.chain) && q.nSend == 1 && !q.needsNewSendingChain && q.peerAdvertisedKem.None?
    ensures ep.adv.Some? ==> ep.adv == Some(c.kemPub)
    ensures q.selfPendingKem == if ep.adv.Some? then ep.adv else p.selfPendingKem
    ensures q.msgsSinceInject == (if ep.adv.Some? then 0 else p.msgsSinceInject) + 1
    ensures l.pkt == Packet(HeaderAt(ep, 0), Sealed(MsgOf(ep.chain), AdWithHeader(HeaderAt(ep, 0), l.ad), l.plaintext))
    ensures q.chainRecv == p.chainRecv && q.nRecv == p.nRecv && q.skipped == p.skipped && q.dhRemote == p.dhRemote
  {
    hide Header.Marshal;
  }

  lemma SendNewLog(p: Party, log: seq<Epoch>, c: Coins, l: Letter, ep: Epoch, log': seq<Epoch>)
    requires LogInv(log) && PartyInv(p, log, |log| - 2, |log| - 1) && c.Generated()
    requires forall i :: 0 <= i < |log| ==> log[i].dh != c.dh
    requires ep.creator == log[|log| - 1].creator.Other() && ep.dh == c.dh && ep.pn == p.nSend
    requires ep.root == RootOf(p.root, Dh(c.dh, p.dhRemote.value), Encapsulation(p, c))
    requires ep.chain == ChainOf(p.root, Dh(c.dh, p.dhRemote.value), Encapsulation(p, c))
    requires ep.inject == Encapsulation(p, c) && (ep.adv.Some? ==> ep.adv == Some(c.kemPub)) && ep.letters == [l]
    requires l.pkt == Packet(HeaderAt(ep, 0), Sealed(MsgOf(ep.chain), AdWithHeader(HeaderAt(ep, 0), l.ad), l.plaintext))
    requires log' == log + [ep]
    ensures LogInv(log')
  {
    hide Header.Marshal;
    forall i | 0 <= i < |log'|
      ensures EpochInv(log', i)
    {
      if i < |log| {
        assert EpochInv(log, i);
        forall n | 0 <= n < |log'[i].letters|
          ensures LetterInv(log'[i], n)
        {
          assert LetterInv(log[i], n);
        }
      } else {
        assert EpochInv(log, i - 1);
        assert LetterInv(ep, 0);
      }
    }
  }

  lemma SendNewParty(p: Party, log: seq<Epoch>, l: Letter, ep: Epoch, log': seq<Epoch>, q: Party)
    requires PartyInv(p, log, |log| - 2, |log| - 1) && q.Valid()
    requires log' == log + [ep] && ep.letters == [l]
    requires ep.dh == q.dhSelf && ep.pn == q.pn && ep.root == q.root
    requires q.chainSend == NextOf(ep.chain) && q.nSend == 1 && !q.needsNewSendingChain && q.peerAdvertisedKem.None?
    requires q.chainRecv == p.chainRecv && q.nRecv == p.nRecv && q.dhRemote == p.dhRemote
    ensures PartyInv(q, log', |log|, |log| - 1)
  {
    assert Iter(ep.chain, 1) == NextOf(Iter(ep.chain, 0));
  }

  /** The party that owes a new chain starts it: the roles of the two parties swap. */
  lemma {:induction false} PeerStartsChain(
      c: Who, x: Party, o: Party, log: seq<Epoch>, decrypted: set<LetterId>, coins: Coins, l: Letter,
      ep: Epoch, log': seq<Epoch>, q: Party)
    requires LogInv(log) && RolesInv(x, o, log, decrypted) && c == log[|log| - 1].creator
    requires o.Valid() && o.needsNewSendingChain && coins.Generated()
    requires forall i :: 0 <= i < |log| ==> log[i].dh != coins.dh
    requires (q, l.pkt) == Encrypt(o, coins, l.plaintext, l.ad) && ep == NewEpoch(c.Other(), o, coins, q, l)
    requires log' == log + [ep]
    ensures LogInv(log') && RolesInv(q, x, log', decrypted)
  {
    var last := |log| - 1;
    assert PartyInv(o, log, last - 1, last) && PartyInv(x, log, last, last - 1);
    assert x.needsNewSendingChain == false;
    DecryptedInLog(x, o, log, decrypted);
    hide LogInv, MailInv, HeadsInv, InjectInv, Encrypt, PartyInv, Header.Marshal, HeaderAt, Iter;
    SendNewEncrypt(c.Other(), o, coins, l, q, ep);
    SendNewLog(o, log, coins, l, ep, log');
    SendNewParty(o, log, l, ep, log', q);
    StartFrame(c, x, o, log, decrypted, ep, log');
    SendNewInject(c, x, o, log, decrypted, ep, log', q);
    MailSender(c, o, q, log', decrypted, last);
  }

  lemma DecryptedInLog(x: Party, o: Party, log: seq<Epoch>, decrypted: set<LetterId>)
    requires RolesInv(x, o, log, decrypted)
    ensures forall id :: id in decrypted ==> id.0 < |log|
  {
    hide PartyInv, HeadsInv, InjectInv;
    forall e: nat, n: nat | (e, n) in decrypted
      ensures e < |log|
    {
    }
  }

  lemma StartFrame(c: Who, x: Party, o: Party, log: seq<Epoch>, decrypted: set<LetterId>, ep: Epoch, log': seq<Epoch>)
    requires RolesInv(x, o, log, decrypted) && o.needsNewSendingChain && c == log[|log| - 1].creator
             && log' == log + [ep]
    ensures SideInv(x, log', decrypted, |log| - 1, |log| - 2, c.Other())
    ensures MailInv(o, log', decrypted, |log| - 1, c) && HeadsInv(log', decrypted, |log| - 1, c)
  {
    var last := |log| - 1;
    assert PartyInv(o, log, last - 1, last) && PartyInv(x, log, last, last - 1);
    assert Extends(log, log', |log|);
    hide MailInv, HeadsInv;
    MailFrame(c, o, log, log', decrypted, |log|, last);
    MailFrame(c.Other(), x, log, log', decrypted, |log|, last - 1);
    PartyFrame(x, log, log', last, |log|, last - 1);
  }

  /** Sending keeps the invariant. */
  lemma {:induction false} SendKeeps(y: Sys, who: Who, c: Coins, plaintext: bytes, ad: bytes, y': Sys)
    requires Inv(y) && Runnable(y) && MaySend(y, who, c)
    requires y' == SendStep(y, who, c, plaintext, ad)
    ensures Inv(y')
  {
    hide Encrypt, Prepare, LogInv, Encapsulation, RolesInv;
    var k := y.log[|y.log| - 1].creator;
    Creators(y.log, |y.log| - 1);
    Creators(y.log, |y.log| - 2);
    var (q, pkt) := Encrypt(y.Get(who), c, plaintext, ad);
    var l := Letter(pkt, plaintext, ad);
    if who == k {
      CreatorOwesNothing(y.Get(k), y.Get(k.Other()), y.log, y.decrypted);
      CreatorSends(k, y.Get(k), y.Get(k.Other()), y.log, y.decrypted, c, l, y'.log, q);
    } else if y.Get(who).needsNewSendingChain {
      PeerStartsChain(k, y.Get(k), y.Get(who), y.log, y.decrypted, c, l, NewEpoch(who, y.Get(who), c, q, l), y'.log, q);
    } else {
      PeerSends(k, y.Get(k), y.Get(who), y.log, y.decrypted, c, l, y'.log, q);
    }
  }

  lemma CreatorOwesNothing(x: Party, o: Party, log: seq<Epoch>, decrypted: set<LetterId>)
    requires RolesInv(x, o, log, decrypted)
    ensures !x.needsNewSendingChain
  {
  }
}
