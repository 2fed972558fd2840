/**
 Message keys over whole runs: no two letters share one, and once a key has been used, what the party still holds is of
 no help in computing it. Only the secrets that went into it are, and all of them are needed: the handshake's
 Diffie-Hellman and ML-KEM secrets, and those of every epoch up to the letter's own.
 */
module KeyErasure {
  import opened Wrappers
  import opened Bytes
  import opened Symbolic
  import opened RatchetHeader
  import opened Ratchet
  import opened Conversation
  import opened Agreement
  import opened Runs

  // ---------------------------------------------------------------- derivation

  /** Diffie-Hellman and ML-KEM secrets that are known besides keys. */
  datatype Leaked = Leaked(dh: set<DhSecret>, kem: set<KemSecret>) {
    /** All that a derivation concatenates is known. */
    predicate Mixes(d: DhSecret, inject: Option<KemSecret>) {
      d in dh && (inject.Some? ==> inject.value in kem)
    }
  }

  /** A computation: keys to start from, and the handshake's combiner, rootKDF or HMAC applied to what is known. */
  datatype Derivation =
    | Given(key: Key)
    | Combine(handshake: DhSecret, kem: KemSecret, transcript: bytes)
    | MixRoot(base: Derivation, dh: DhSecret, inject: Option<KemSecret>)
    | MixChain(base: Derivation, dh: DhSecret, inject: Option<KemSecret>)
    | StepChain(base: Derivation)
    | StepMessage(base: Derivation)
  {
    function Conclusion(): Key {
      match this
      case Given(k) => k
      case Combine(dh, kem, transcript) => Session(dh, kem, transcript)
      case MixRoot(d, dh, inject) => RootOf(d.Conclusion(), dh, inject)
      case MixChain(d, dh, inject) => ChainOf(d.Conclusion(), dh, inject)
      case StepChain(d) => NextOf(d.Conclusion())
      case StepMessage(d) => MsgOf(d.Conclusion())
    }

    predicate From(known: set<Key>, leaked: Leaked) {
      match this
      case Given(k) => k in known
      case Combine(dh, kem, _) => leaked.Mixes(dh, Some(kem))
      case MixRoot(d, dh, inject) => leaked.Mixes(dh, inject) && d.From(known, leaked)
      case MixChain(d, dh, inject) => leaked.Mixes(dh, inject) && d.From(known, leaked)
      case StepChain(d) => d.From(known, leaked)
      case StepMessage(d) => d.From(known, leaked)
    }
  }

  ghost predicate Derivable(k: Key, known: set<Key>, leaked: Leaked) {
    exists d: Derivation :: d.From(known, leaked) && d.Conclusion() == k
  }

  /** k and every key that leads to it, given the leaked secrets. */
  function Ancestors(k: Key, leaked: Leaked): set<Key> {
    match k
    case Nil => {k}
    case Session(_, _, _) => {k}
    case RootOf(s, dh, inject) => {k} + (if leaked.Mixes(dh, inject) then Ancestors(s, leaked) else {})
    case ChainOf(s, dh, inject) => {k} + (if leaked.Mixes(dh, inject) then Ancestors(s, leaked) else {})
    case NextOf(c) => {k} + Ancestors(c, leaked)
    case MsgOf(c) => {k} + Ancestors(c, leaked)
  }

  /** A session key whose handshake secrets have both leaked. */
  predicate OpenSession(k: Key, leaked: Leaked) {
    k.Session? && leaked.Mixes(k.dh, Some(k.kem))
  }

  lemma AncestorsSelf(k: Key, leaked: Leaked)
    ensures k in Ancestors(k, leaked)
  {
  }

  lemma {:induction false} DerivationStartsAtAncestor(d: Derivation, known: set<Key>, leaked: Leaked) returns (a: Key)
    requires d.From(known, leaked)
    ensures a in Ancestors(d.Conclusion(), leaked) && (a in known || OpenSession(a, leaked))
  {
    match d
    case Given(k) => a := k; AncestorsSelf(k, leaked);
    case Combine(_, _, _) => a := d.Conclusion();
    case MixRoot(b, _, _) => a := DerivationStartsAtAncestor(b, known, leaked);
    case MixChain(b, _, _) => a := DerivationStartsAtAncestor(b, known, leaked);
    case StepChain(b) => a := DerivationStartsAtAncestor(b, known, leaked);
    case StepMessage(b) => a := DerivationStartsAtAncestor(b, known, leaked);
  }

  lemma {:induction false} AncestorDerives(a: Key, k: Key, known: set<Key>, leaked: Leaked) returns (d: Derivation)
    requires a in Ancestors(k, leaked) && (a in known || OpenSession(a, leaked))
    ensures d.From(known, leaked) && d.Conclusion() == k
  {
    if a == k {
      d := if a in known then Given(k) else Combine(k.dh, k.kem, k.transcript);
    } else {
      match k
      case RootOf(s, dh, inject) => { var b := AncestorDerives(a, s, known, leaked); d := MixRoot(b, dh, inject); }
      case ChainOf(s, dh, inject) => { var b := AncestorDerives(a, s, known, leaked); d := MixChain(b, dh, inject); }
      case NextOf(c) => { var b := AncestorDerives(a, c, known, leaked); d := StepChain(b); }
      case MsgOf(c) => { var b := AncestorDerives(a, c, known, leaked); d := StepMessage(b); }
    }
  }

  /** A key can be computed exactly when some key that leads to it is known, or is an open session key. */
  lemma {:induction false} DerivableIffAncestorKnown(k: Key, known: set<Key>, leaked: Leaked)
    ensures Derivable(k, known, leaked)
            <==> exists a :: a in Ancestors(k, leaked) && (a in known || OpenSession(a, leaked))
  {
    if Derivable(k, known, leaked) {
      var d: Derivation :| d.From(known, leaked) && d.Conclusion() == k;
      var a := DerivationStartsAtAncestor(d, known, leaked);
    }
    if exists a :: a in Ancestors(k, leaked) && (a in known || OpenSession(a, leaked)) {
      var a :| a in Ancestors(k, leaked) && (a in known || OpenSession(a, leaked));
      var d := AncestorDerives(a, k, known, leaked);
    }
  }

  // ---------------------------------------------------------------- uniqueness

  lemma ChainsDistinct(log: seq<Epoch>, e: nat, f: nat)
    requires LogInv(log) && 0 < e < |log| && 0 < f < |log| && log[e].chain == log[f].chain
    ensures e == f
  {
    assert EpochInv(log, e) && EpochInv(log, f);
    hide LogInv;
    RootDepth(log, e - 1);
    RootDepth(log, f - 1);
  }

  /** Only epochs after the prekey carry letters, and their chains come from rootKDF. */
  lemma LetterEpoch(log: seq<Epoch>, e: nat, n: nat)
    requires LogInv(log) && Sent(log, e, n)
    ensures e > 0 && log[e].chain.ChainOf? && log[e].chain.salt == log[e - 1].root
  {
    assert EpochInv(log, e);
  }

  lemma MessageKeysDistinct(log: seq<Epoch>, e: nat, n: nat, f: nat, m: nat)
    requires LogInv(log) && Sent(log, e, n) && Sent(log, f, m)
    requires MessageKey(log[e], n) == MessageKey(log[f], m)
    ensures e == f && n == m
  {
    hide LogInv;
    LetterEpoch(log, e, n);
    LetterEpoch(log, f, m);
    IterInjective(log[e].chain, n, log[f].chain, m);
    ChainsDistinct(log, e, f);
  }

  /** No two calls of EncryptMessage, by either party, ever seal under the same key. */
  lemma {:induction false} NoKeyIsUsedTwice(y: Sys, e: nat, n: nat, f: nat, m: nat)
    requires Reachable(y) && Sent(y.log, e, n) && Sent(y.log, f, m)
    requires y.log[e].letters[n].pkt.box.key == y.log[f].letters[m].pkt.box.key
    ensures e == f && n == m
  {
    hide Reachable, Runnable, Header.Marshal, RolesInv;
    ReachableInv(y);
    assert EpochInv(y.log, e) && EpochInv(y.log, f);
    assert LetterInv(y.log[e], n) && LetterInv(y.log[f], m);
    hide LogInv;
    MessageKeysDistinct(y.log, e, n, f, m);
  }

  // ---------------------------------------------------------------- erasure

  /** Every key a party holds: the root key, both chains and the skipped message keys. */
  ghost function Held(p: Party): set<Key> {
    {p.root, p.chainSend, p.chainRecv} + (set k | k in p.skipped :: p.skipped[k])
  }

  /** The ancestors of a chain position: earlier positions, and what leads to the chain. */
  lemma {:induction false} ChainAncestors(ck: Key, n: nat, a: Key, leaked: Leaked) returns (i: nat)
    requires a in Ancestors(Iter(ck, n), leaked)
    ensures a in Ancestors(ck, leaked) || (i <= n && a == Iter(ck, i))
  {
    i := n;
    if n == 0 || a == Iter(ck, n) {
    } else {
      i := ChainAncestors(ck, n - 1, a, leaked);
    }
  }

  /** The ancestors of a root key are the roots before it, down to the session key. */
  lemma {:induction false} RootAncestors(log: seq<Epoch>, j: nat, a: Key, leaked: Leaked) returns (i: nat)
    requires LogInv(log) && j < |log| && log[0].root.Session? && a in Ancestors(log[j].root, leaked)
    ensures i <= j && a == log[i].root
  {
    i := j;
    if j == 0 {
    } else {
      assert EpochInv(log, j);
      if a != log[j].root {
        i := RootAncestors(log, j - 1, a, leaked);
      }
    }
  }

  /** What a message key can be computed from. */
  lemma MessageKeyAncestors(log: seq<Epoch>, e: nat, n: nat, a: Key, leaked: Leaked) returns (i: nat)
    requires LogInv(log) && Sent(log, e, n) && log[0].root.Session? && a in Ancestors(MessageKey(log[e], n), leaked)
    ensures
      || a == MessageKey(log[e], n)
      || (i <= n && a == Iter(log[e].chain, i))
      || (i < e && a == log[i].root)
  {
    hide LogInv;
    i := 0;
    LetterEpoch(log, e, n);
    if a != MessageKey(log[e], n) {
      i := ChainAncestors(log[e].chain, n, a, leaked);
      if a in Ancestors(log[e].chain, leaked) {
        if a == log[e].chain {
          i := 0;
        } else {
          i := RootAncestors(log, e - 1, a, leaked);
        }
      }
    }
  }

  lemma RootKind(log: seq<Epoch>, i: nat)
    requires LogInv(log) && i < |log| && log[0].root.Session?
    ensures if i == 0 then log[i].root.Session? else log[i].root.RootOf?
    ensures Depth(log[i].root) == i
  {
    RootDepth(log, i);
    if i > 0 { assert EpochInv(log, i); }
  }

  /** No chain position a party has reached leads to a letter it lies beyond, or to another epoch. */
  lemma ChainDoesNotLead(log: seq<Epoch>, e: nat, n: nat, f: nat, m: nat, leaked: Leaked)
    requires LogInv(log) && Sent(log, e, n) && log[0].root.Session? && f < |log|
    requires f == e ==> m > n
    ensures f > 0 ==> Iter(log[f].chain, m) !in Ancestors(MessageKey(log[e], n), leaked)
    ensures Nil !in Ancestors(MessageKey(log[e], n), leaked)
  {
    LetterEpoch(log, e, n);
    if f > 0 {
      assert EpochInv(log, f);
      var a := Iter(log[f].chain, m);
      if a in Ancestors(MessageKey(log[e], n), leaked) {
        var i := MessageKeyAncestors(log, e, n, a, leaked);
        hide LogInv;
        if i < e { RootKind(log, i); }
        if i <= n && a == Iter(log[e].chain, i) {
          IterInjective(log[f].chain, m, log[e].chain, i);
          ChainsDistinct(log, e, f);
        }
      }
    }
    hide LogInv;
    if Nil in Ancestors(MessageKey(log[e], n), leaked) {
      var i := MessageKeyAncestors(log, e, n, Nil, leaked);
      if i < e { RootKind(log, i); }
    }
  }

  lemma RootNotAncestor(log: seq<Epoch>, e: nat, n: nat, m: nat, leaked: Leaked)
    requires LogInv(log) && log[0].root.Session? && Sent(log, e, n) && e <= m < |log|
    ensures log[m].root !in Ancestors(MessageKey(log[e], n), leaked)
  {
    hide LogInv;
    LetterEpoch(log, e, n);
    RootKind(log, m);
    if log[m].root in Ancestors(MessageKey(log[e], n), leaked) {
      var i := MessageKeyAncestors(log, e, n, log[m].root, leaked);
      if i < e { RootKind(log, i); }
    }
  }

  /** A message key other than that of letter (e, n) does not lead to it. */
  lemma StoredNotAncestor(log: seq<Epoch>, e: nat, n: nat, f: nat, m: nat, leaked: Leaked)
    requires LogInv(log) && log[0].root.Session? && Sent(log, e, n) && Sent(log, f, m) && (e, n) != (f, m)
    ensures MessageKey(log[f], m) !in Ancestors(MessageKey(log[e], n), leaked)
  {
    hide LogInv;
    var a := MessageKey(log[f], m);
    LetterEpoch(log, e, n);
    if a in Ancestors(MessageKey(log[e], n), leaked) {
      var i := MessageKeyAncestors(log, e, n, a, leaked);
      if i < e { RootKind(log, i); }
      if a == MessageKey(log[e], n) { MessageKeysDistinct(log, e, n, f, m); }
    }
  }

  lemma SendingChainNotAncestor(p: Party, log: seq<Epoch>, s: int, r: int, e: nat, n: nat, leaked: Leaked)
    requires LogInv(log) && PartyInv(p, log, s, r) && log[0].root.Session? && Sent(log, e, n)
    ensures p.chainSend !in Ancestors(MessageKey(log[e], n), leaked)
  {
    assert EpochInv(log, 0);
    hide LogInv;
    ChainDoesNotLead(log, e, n, s, p.nSend, leaked);
  }

  lemma ReceivingChainNotAncestor(p: Party, log: seq<Epoch>, s: int, r: int, e: nat, n: nat, leaked: Leaked)
    requires LogInv(log) && PartyInv(p, log, s, r) && log[0].root.Session? && Sent(log, e, n)
    requires r == e ==> p.nRecv > n
    ensures p.chainRecv !in Ancestors(MessageKey(log[e], n), leaked)
  {
    assert EpochInv(log, 0);
    hide LogInv;
    ChainDoesNotLead(log, e, n, if r < 0 then 0 else r, if r == e then p.nRecv else n + 1 + p.nRecv, leaked);
    if r > 0 { ChainDoesNotLead(log, e, n, r, p.nRecv, leaked); }
  }

  /** When a party's chains and stored keys all lie elsewhere, and its root at or beyond epoch e, none leads there. */
  lemma NothingHeldLeads(
      peer: Who, p: Party, log: seq<Epoch>, decrypted: set<LetterId>, s: int, r: int, e: nat, n: nat, leaked: Leaked)
    requires LogInv(log) && SideInv(p, log, decrypted, s, r, peer) && log[0].root.Session? && Sent(log, e, n)
    requires s == e || (log[e].creator == peer && (e, n) in decrypted) || (e < s && log[e].creator != peer)
    requires log[s].creator != peer
    ensures Held(p) * Ancestors(MessageKey(log[e], n), leaked) == {}
  {
    hide LogInv, HeadsInv, MessageKey, Ancestors;
    var mk := MessageKey(log[e], n);
    if log[e].creator == peer { assert Passed(p, log, r, peer, e, n); }
    RootNotAncestor(log, e, n, Max(s, r), leaked);
    SendingChainNotAncestor(p, log, s, r, e, n, leaked);
    ReceivingChainNotAncestor(p, log, s, r, e, n, leaked);
    forall k | k in p.skipped
      ensures p.skipped[k] !in Ancestors(mk, leaked)
    {
      var f: nat :| Passed(p, log, r, peer, f, k.1) && log[f].dh == k.0;
      StoredNotAncestor(log, e, n, f, k.1, leaked);
    }
  }

  /** The secrets mixed into epoch i's keys have leaked. */
  ghost predicate EpochExposed(log: seq<Epoch>, i: nat, leaked: Leaked)
    requires 0 < i < |log|
  {
    leaked.Mixes(Dh(log[i].dh, log[i - 1].dh), log[i].inject)
  }

  /** The secrets mixed into the keys of every epoch after k and up to e have leaked. */
  ghost predicate ExposedFrom(log: seq<Epoch>, k: int, e: nat, leaked: Leaked)
    requires e < |log|
  {
    forall i: nat :: 0 < i && k < i <= e ==> EpochExposed(log, i, leaked)
  }

  /** Every secret that went into the keys of epoch e has leaked, the handshake's two included. */
  ghost predicate Exposed(log: seq<Epoch>, e: nat, leaked: Leaked)
    requires e < |log|
  {
    OpenSession(log[0].root, leaked) && ExposedFrom(log, 0, e, leaked)
  }

  /** A root leads to a later one exactly when all that was mixed in on the way has leaked. */
  lemma {:induction false} RootLeadsToRoot(log: seq<Epoch>, k: nat, j: nat, leaked: Leaked)
    requires LogInv(log) && k <= j < |log| && log[0].root.Session?
    ensures log[k].root in Ancestors(log[j].root, leaked)
            <==> ExposedFrom(log, k, j, leaked)
  {
    if j == k {
      AncestorsSelf(log[k].root, leaked);
    } else {
      assert EpochInv(log, j);
      RootLeadsToRoot(log, k, j - 1, leaked);
      RootDepth(log, k);
      RootDepth(log, j);
      assert EpochExposed(log, j, leaked) <==> leaked.Mixes(log[j].root.dh, log[j].root.inject);
    }
  }

  /** What leads to a chain leads to each of its positions. */
  lemma {:induction false} ChainLeads(ck: Key, n: nat, a: Key, leaked: Leaked)
    requires a in Ancestors(ck, leaked)
    ensures a in Ancestors(Iter(ck, n), leaked)
  {
    if n == 0 {
    } else {
      ChainLeads(ck, n - 1, a, leaked);
    }
  }

  /** A root leads to a letter of a later epoch exactly when what was mixed in from then on has leaked. */
  lemma RootLeadsToLetter(log: seq<Epoch>, k: nat, e: nat, n: nat, leaked: Leaked)
    requires LogInv(log) && k < e && Sent(log, e, n) && log[0].root.Session?
    ensures log[k].root in Ancestors(MessageKey(log[e], n), leaked)
       <==> ExposedFrom(log, k, e, leaked)
  {
    LetterEpoch(log, e, n);
    assert EpochInv(log, e);
    RootLeadsToRoot(log, k, e - 1, leaked);
    RootKind(log, k);
    hide LogInv, EpochInv;
    var a, ck := log[k].root, log[e].chain;
    assert EpochExposed(log, e, leaked) <==> leaked.Mixes(ck.dh, ck.inject);
    if a in Ancestors(MessageKey(log[e], n), leaked) {
      var i := ChainAncestors(ck, n, a, leaked);
      ChainPositionKind(ck, i);
    }
    if a in Ancestors(ck, leaked) {
      ChainLeads(ck, n, a, leaked);
    }
  }

  lemma ChainPositionKind(ck: Key, i: nat)
    requires ck.ChainOf?
    ensures Iter(ck, i).ChainOf? || Iter(ck, i).NextOf?
  {
  }

  /** The session key is the only one that leads to a letter's key. */
  lemma OnlyTheSession(log: seq<Epoch>, e: nat, n: nat, a: Key, leaked: Leaked)
    requires LogInv(log) && Sent(log, e, n) && log[0].root.Session?
    requires a.Session? && a in Ancestors(MessageKey(log[e], n), leaked)
    ensures a == log[0].root
  {
    LetterEpoch(log, e, n);
    var i := MessageKeyAncestors(log, e, n, a, leaked);
    ChainPositionKind(log[e].chain, i);
    if i < e { RootKind(log, i); }
  }

  /** A key to which nothing known leads can be computed exactly when all that went into it has leaked. */
  lemma ComputedFromSecrets(log: seq<Epoch>, e: nat, n: nat, known: set<Key>, leaked: Leaked)
    requires LogInv(log) && Sent(log, e, n) && log[0].root.Session?
    requires known * Ancestors(MessageKey(log[e], n), leaked) == {}
    ensures Derivable(MessageKey(log[e], n), known, leaked) <==> Exposed(log, e, leaked)
  {
    var mk := MessageKey(log[e], n);
    DerivableIffAncestorKnown(mk, known, leaked);
    LetterEpoch(log, e, n);
    RootLeadsToLetter(log, 0, e, n, leaked);
    hide LogInv, Derivable;
    if Derivable(mk, known, leaked) {
      var a :| a in Ancestors(mk, leaked) && (a in known || OpenSession(a, leaked));
      assert a !in known;
      OnlyTheSession(log, e, n, a, leaked);
    }
  }

  /**
   Once a letter is sealed its sender, and once it is decrypted its receiver, holds nothing that helps to compute its
   key again: for any leaked secrets, the key can be computed if and only if the handshake's two secrets and the secrets
   of every epoch up to the letter's own have leaked. In particular one Diffie-Hellman or one ML-KEM secret among them
   that stays secret is enough.
   */
  lemma {:induction false} UsedKeysAreErased(y: Sys, e: nat, n: nat, leaked: Leaked)
    requires Reachable(y) && Sent(y.log, e, n) && y.log[0].root.Session?
    ensures Derivable(MessageKey(y.log[e], n), Held(y.Get(y.log[e].creator)), leaked) <==> Exposed(y.log, e, leaked)
    ensures (e, n) in y.decrypted ==>
              (Derivable(MessageKey(y.log[e], n), Held(y.Get(y.log[e].creator.Other())), leaked)
               <==> Exposed(y.log, e, leaked))
  {
    hide Reachable, Runnable, RolesInv, SideInv, Derivable, LogInv, Held, Exposed;
    ReachableInv(y);
    var who := y.log[e].creator;
    var s, r := SideOf(y, who);
    NothingHeldLeads(who.Other(), y.Get(who), y.log, y.decrypted, s, r, e, n, leaked);
    ComputedFromSecrets(y.log, e, n, Held(y.Get(who)), leaked);
    if (e, n) in y.decrypted {
      var s', r' := SideOf(y, who.Other());
      NothingHeldLeads(who, y.Get(who.Other()), y.log, y.decrypted, s', r', e, n, leaked);
      ComputedFromSecrets(y.log, e, n, Held(y.Get(who.Other())), leaked);
    }
  }

  /** Once an answer was opened, its addressee holds no ML-KEM private key but of a key advertised since. */
  lemma {:induction false} SpentKeyForgotten(y: Sys, e: nat, n: nat)
    requires Reachable(y) && Sent(y.log, e, n) && (e, n) in y.decrypted && y.log[e].inject.Some?
    ensures var p := y.Get(y.log[e].creator.Other());
      p.selfPendingKem.Some? ==>
        exists a :: e < a < |y.log| && y.log[a].creator == y.log[e].creator.Other() && p.selfPendingKem == y.log[a].adv
  {
    hide Reachable, Runnable, RolesInv, LogInv, SideInv;
    ReachableInv(y);
    var who := y.log[e].creator.Other();
    PendingKemExactly(y, who);
    var s, r := SideOf(y, who);
    AnswerOpened(who.Other(), y.Get(who), y.log, y.decrypted, s, r, e, n);
    AnsweredEpoch(y.log, e);
    Creators(y.log, e);
    Creators(y.log, e - 1);
    var a := Advertised(y.log, who, |y.log|);
    assert a >= e - 1;
  }

  lemma AnsweredEpoch(log: seq<Epoch>, e: nat)
    requires LogInv(log) && e < |log| && log[e].inject.Some?
    ensures e > 0 && log[e - 1].adv == Some(log[e].inject.value.pub)
  {
    assert EpochInv(log, e);
  }

  lemma AnswerOpened(peer: Who, p: Party, log: seq<Epoch>, decrypted: set<LetterId>, s: int, r: int, e: nat, n: nat)
    requires SideInv(p, log, decrypted, s, r, peer) && e < |log| && log[e].creator == peer && log[e].inject.Some?
    requires (e, n) in decrypted
    ensures (e, 0) in decrypted
  {
    assert Passed(p, log, r, peer, e, n);
  }

  /**
   An injection survives the loss of everything its addressee holds: once the answer was opened, neither the keys it
   holds nor its ML-KEM private key, with all Diffie-Hellman secrets and all that this private key opens, are enough for
   a letter of that chain, unless the same ML-KEM key was advertised again later.
   */
  lemma {:induction false} InjectionErased(y: Sys, e: nat, n: nat, leaked: Leaked)
    requires Reachable(y) && Sent(y.log, e, n) && (e, n) in y.decrypted && y.log[e].inject.Some?
    requires y.log[0].root.Session?
    requires var p := y.Get(y.log[e].creator.Other()); forall k :: k in leaked.kem ==> p.selfPendingKem == Some(k.pub)
    requires forall a :: e < a < |y.log| ==> y.log[a].adv != Some(y.log[e].inject.value.pub)
    ensures !Derivable(MessageKey(y.log[e], n), Held(y.Get(y.log[e].creator.Other())), leaked)
  {
    hide Reachable, Derivable, Held, MessageKey;
    UsedKeysAreErased(y, e, n, leaked);
    SpentKeyForgotten(y, e, n);
    LetterAfterPrekey(y, e, n);
    assert Exposed(y.log, e, leaked) ==> EpochExposed(y.log, e, leaked);
  }

  lemma LetterAfterPrekey(y: Sys, e: nat, n: nat)
    requires Reachable(y) && Sent(y.log, e, n)
    ensures e > 0
  {
    hide Reachable, RolesInv;
    ReachableInv(y);
    assert EpochInv(y.log, 0);
  }

  // ---------------------------------------------------------------- later keys

  /** Of the keys a party holds, only its root leads to letters of later epochs. */
  lemma OnlyTheRootLeads(
      peer: Who, p: Party, log: seq<Epoch>, decrypted: set<LetterId>, s: int, r: int, log': seq<Epoch>, e: nat, n: nat,
      a: Key, leaked: Leaked)
    requires LogInv(log) && SideInv(p, log, decrypted, s, r, peer)
    requires LogInv(log') && Grown(log, log') && log'[0].root.Session? && Sent(log', e, n) && e > Max(s, r)
    requires a in Held(p) && a in Ancestors(MessageKey(log'[e], n), leaked)
    ensures a == p.root == log'[Max(s, r)].root
  {
    hide LogInv, HeadsInv;
    PrekeyChain(log);
    if a == p.chainSend {
      ChainDoesNotLead(log', e, n, s, p.nSend, leaked);
    } else if a == p.chainRecv {
      ChainDoesNotLead(log', e, n, Max(r, 0), p.nRecv, leaked);
    } else if a != p.root {
      var k :| k in p.skipped && p.skipped[k] == a;
      var f: nat :| Passed(p, log, r, peer, f, k.1) && log[f].dh == k.0;
      StoredNotAncestor(log', e, n, f, k.1, leaked);
    }
  }

  /** Of the known keys, only the first k + 1 roots lead to a letter. */
  ghost predicate OnlyRootsLead(log: seq<Epoch>, k: nat, e: nat, n: nat, known: set<Key>, leaked: Leaked)
    requires k < |log| && e < |log|
  {
    forall a :: a in known && a in Ancestors(MessageKey(log[e], n), leaked) ==>
      exists i: nat :: i <= k && a == log[i].root
  }

  /** Who knows a root and nothing else that leads to a later letter needs all that was mixed in from then on. */
  lemma LaterKey(log: seq<Epoch>, k: nat, e: nat, n: nat, known: set<Key>, leaked: Leaked)
    requires LogInv(log) && log[0].root.Session? && k < e && Sent(log, e, n) && log[k].root in known
    requires OnlyRootsLead(log, k, e, n, known, leaked)
    ensures Derivable(MessageKey(log[e], n), known, leaked)
       <==> ExposedFrom(log, k, e, leaked)
  {
    var mk := MessageKey(log[e], n);
    DerivableIffAncestorKnown(mk, known, leaked);
    RootLeadsToLetter(log, k, e, n, leaked);
    hide LogInv, Derivable, EpochExposed;
    if Derivable(mk, known, leaked) {
      var a :| a in Ancestors(mk, leaked) && (a in known || OpenSession(a, leaked));
      if a in known {
        var i: nat :| i <= k && a == log[i].root;
        RootLeadsToLetter(log, i, e, n, leaked);
      } else {
        OnlyTheSession(log, e, n, a, leaked);
        RootLeadsToLetter(log, 0, e, n, leaked);
      }
    }
  }

  /** The epoch whose root a party holds. */
  lemma RootEpoch(peer: Who, p: Party, log: seq<Epoch>, decrypted: set<LetterId>, s: int, r: int, k: nat)
    requires LogInv(log) && SideInv(p, log, decrypted, s, r, peer) && k < |log| && p.root == log[k].root
    ensures k == Max(s, r)
  {
    RootDepth(log, k);
    RootDepth(log, Max(s, r));
  }

  /**
   Recovery from an intrusion: whoever has read all that a party held at some point of a run, at root k, and learns of
   other secrets besides, can compute the key of a letter of a later epoch, sent then or at any later point of the run,
   if and only if the secrets mixed in for every epoch from k + 1 up to the letter's own have leaked. One Diffie-Hellman
   secret or one ML-KEM injection among them that stays secret protects that letter and all after it.
   */
  lemma {:induction false} HealsExactly(
      states: seq<Sys>, evs: seq<Event>, c: nat, t: nat, who: Who, k: nat, e: nat, n: nat, leaked: Leaked)
    requires Run(states, evs) && c <= t <= |evs|
    requires k < |states[c].log| && states[c].Get(who).root == states[c].log[k].root
    requires k < e && Sent(states[t].log, e, n) && states[t].log[0].root.Session?
    ensures Derivable(MessageKey(states[t].log[e], n), Held(states[c].Get(who)), leaked)
       <==> ExposedFrom(states[t].log, k, e, leaked)
  {
    var y, log := states[c], states[t].log;
    hide Run, Inv, SideInv, LogInv, Derivable, Held, EpochExposed, Ancestors, Grown, MessageKey;
    RunKeeps(states, evs, c);
    RunKeeps(states, evs, t);
    RunGrows(states, evs, c, t);
    var s, r := SideOf(y, who);
    var known, mk := Held(y.Get(who)), MessageKey(log[e], n);
    RootEpoch(who.Other(), y.Get(who), y.log, y.decrypted, s, r, k);
    forall a | a in known && a in Ancestors(mk, leaked)
      ensures a == log[k].root
    {
      OnlyTheRootLeads(who.Other(), y.Get(who), y.log, y.decrypted, s, r, log, e, n, a, leaked);
    }
    RootHeld(y.Get(who));
    LaterKey(log, k, e, n, known, leaked);
  }

  lemma RootHeld(p: Party)
    ensures p.root in Held(p)
  {
  }

  /** The same for an intruder who has read all that both parties held: the newest root is then known. */
  lemma {:induction false} HealsFromBoth(states: seq<Sys>, evs: seq<Event>, c: nat, t: nat, e: nat, n: nat,
                                         leaked: Leaked)
    requires Run(states, evs) && c <= t <= |evs|
    requires |states[c].log| <= e && Sent(states[t].log, e, n) && states[t].log[0].root.Session?
    ensures Derivable(MessageKey(states[t].log[e], n), Held(states[c].alice) + Held(states[c].bob), leaked)
       <==> ExposedFrom(states[t].log, |states[c].log| - 1, e, leaked)
  {
    var y, z := states[c], states[t];
    hide Run, Inv, Held, Derivable, ExposedFrom, MessageKey, Grown;
    RunKeeps(states, evs, c);
    RunKeeps(states, evs, t);
    RunGrows(states, evs, c, t);
    FromBoth(y, z, e, n, leaked);
  }

  lemma FromBoth(y: Sys, z: Sys, e: nat, n: nat, leaked: Leaked)
    requires Inv(y) && Inv(z) && Grown(y.log, z.log)
    requires |y.log| <= e && Sent(z.log, e, n) && z.log[0].root.Session?
    ensures Derivable(MessageKey(z.log[e], n), Held(y.alice) + Held(y.bob), leaked)
       <==> ExposedFrom(z.log, |y.log| - 1, e, leaked)
  {
    hide Inv, LogInv, Held, Derivable, ExposedFrom, MessageKey, Grown, OnlyRootsLead;
    NewestRootHeld(y);
    GrownRoot(y.log, z.log);
    LogOf(z);
    BothLead(y, z.log, e, n, leaked);
    LaterKey(z.log, |y.log| - 1, e, n, Held(y.alice) + Held(y.bob), leaked);
  }

  lemma GrownRoot(log: seq<Epoch>, log': seq<Epoch>)
    requires Grown(log, log') && |log| > 0
    ensures |log| <= |log'| && log'[|log| - 1].root == log[|log| - 1].root
  {
  }

  lemma BothLead(y: Sys, log: seq<Epoch>, e: nat, n: nat, leaked: Leaked)
    requires Inv(y) && Grown(y.log, log) && LogInv(log) && log[0].root.Session? && Sent(log, e, n) && |y.log| <= e
    ensures |y.log| > 0 && OnlyRootsLead(log, |y.log| - 1, e, n, Held(y.alice) + Held(y.bob), leaked)
  {
    NewestRootHeld(y);
    hide Inv, LogInv, Held, Ancestors, MessageKey, Grown;
    forall a | a in Held(y.alice) + Held(y.bob) && a in Ancestors(MessageKey(log[e], n), leaked)
      ensures exists i: nat :: i <= |y.log| - 1 && a == log[i].root
    {
      var i := HeldLeads(y, if a in Held(y.alice) then Alice else Bob, log, e, n, a, leaked);
    }
  }

  lemma LogOf(y: Sys)
    requires Inv(y)
    ensures LogInv(y.log)
  {
    hide LogInv, RolesInv;
  }

  /** What a party holds leads to later epochs from a root only. */
  lemma HeldLeads(y: Sys, who: Who, log: seq<Epoch>, e: nat, n: nat, a: Key, leaked: Leaked) returns (i: nat)
    requires Inv(y) && Grown(y.log, log) && LogInv(log) && log[0].root.Session? && Sent(log, e, n) && |y.log| <= e
    requires a in Held(y.Get(who)) && a in Ancestors(MessageKey(log[e], n), leaked)
    ensures i < |y.log| && a == log[i].root
  {
    hide LogInv, SideInv, RolesInv, Held, Ancestors;
    var s, r := SideOf(y, who);
    RootInLog(y.Get(who), y.log, s, r, who.Other(), y.decrypted);
    OnlyTheRootLeads(who.Other(), y.Get(who), y.log, y.decrypted, s, r, log, e, n, a, leaked);
    i := Max(s, r);
  }

  /** The creator of the newest epoch holds its root. */
  lemma NewestRootHeld(y: Sys)
    requires Inv(y)
    ensures |y.log| > 0 && y.log[|y.log| - 1].root in Held(y.alice) + Held(y.bob)
  {
    hide LogInv, MailInv, HeadsInv, InjectInv;
    RootHeld(y.alice);
    RootHeld(y.bob);
  }

  // ---------------------------------------------------------------- keys that need no secret

  const NOTHING := Leaked({}, {})

  /** HMAC takes an empty key as well, so what the nil chain yields can be computed by anyone. */
  ghost predicate Unkeyed(k: Key) {
    Derivable(k, {Nil}, NOTHING)
  }

  lemma UnkeyedIff(k: Key)
    ensures Unkeyed(k) <==> Nil in Ancestors(k, NOTHING)
  {
    DerivableIffAncestorKnown(k, {Nil}, NOTHING);
  }

  /** No position of a chain that rootKDF started is unkeyed; the nil chain's first key is. */
  lemma ChainKeyed(ck: Key, n: nat)
    requires ck.ChainOf?
    ensures !Unkeyed(MsgOf(Iter(ck, n)))
    ensures Unkeyed(MsgOf(Nil))
  {
    UnkeyedIff(MsgOf(Iter(ck, n)));
    UnkeyedIff(MsgOf(Nil));
    if Nil in Ancestors(Iter(ck, n), NOTHING) {
      var i := ChainAncestors(ck, n, Nil, NOTHING);
      ChainPositionKind(ck, i);
    }
  }

  /** What a receiver's state says about the nil chain. */
  lemma NilChain(peer: Who, p: Party, log: seq<Epoch>, decrypted: set<LetterId>, s: int, r: int)
    requires LogInv(log) && SideInv(p, log, decrypted, s, r, peer)
    ensures p.chainRecv == Nil ==> p.skipped == map[]
    ensures p.chainRecv == Nil && p.dhRemote.Some? ==> peer == Bob
    ensures p.chainRecv != Nil ==> r > 0 && log[r].chain.ChainOf?
    ensures forall k :: k in p.skipped ==> exists f: nat :: Sent(log, f, k.1) && p.skipped[k] == MessageKey(log[f], k.1)
  {
    assert EpochInv(log, 0);
    if r > 0 {
      assert EpochInv(log, r);
      ChainNotNil(log, r, p.nRecv);
    }
    forall k | k in p.skipped
      ensures exists f: nat :: Sent(log, f, k.1) && p.skipped[k] == MessageKey(log[f], k.1)
      ensures r > 0
    {
      var f: nat :| Passed(p, log, r, peer, f, k.1) && log[f].dh == k.0;
      LetterEpoch(log, f, k.1);
      assert Sent(log, f, k.1) && p.skipped[k] == MessageKey(log[f], k.1);
    }
    assert p.chainRecv == Nil ==> forall k :: k !in p.skipped;
  }

  /** One receiver's side of OpensUnkeyedExactly. */
  lemma OpensUnkeyed(peer: Who, p: Party, log: seq<Epoch>, decrypted: set<LetterId>, s: int, r: int, pkt: Packet,
                     ad: bytes)
    requires LogInv(log) && SideInv(p, log, decrypted, s, r, peer) && pkt.hdr.pn < U32 && pkt.hdr.n < U32
    requires Decrypt(p, pkt, ad).1.Success? && Unkeyed(pkt.box.key)
    ensures p.chainRecv == Nil && p.dhRemote == Some(pkt.hdr.dhPub) && pkt.box.key == MsgOf(Nil)
  {
    var hdr := pkt.hdr;
    var key := (hdr.dhPub, hdr.n);
    NilChain(peer, p, log, decrypted, s, r);
    if key in p.skipped {
      var f: nat :| Sent(log, f, key.1) && p.skipped[key] == MessageKey(log[f], key.1);
      LetterEpoch(log, f, key.1);
      assert pkt.box.key == MessageKey(log[f], key.1) by { hide LogInv, MailInv, HeadsInv, Header.Marshal; }
      ChainKeyed(log[f].chain, key.1);
    } else if IsNewRatchetKey(p, hdr) {
      hide LogInv, MailInv, HeadsInv, Header.Marshal, Decrypt;
      NewChainKey(p, pkt, ad);
      ChainKeyed(ChainOf(p.root, Dh(p.dhSelf, hdr.dhPub), Answer(p, hdr)), hdr.n);
    } else {
      hide LogInv, MailInv, HeadsInv, Header.Marshal, Decrypt;
      SameChainKey(p, pkt, ad, if r < 0 then Nil else log[r].chain);
      if p.chainRecv != Nil {
        var i: nat :| pkt.box.key == MsgOf(Iter(log[r].chain, i));
        ChainKeyed(log[r].chain, i);
      }
    }
  }

  /**
   In any reachable state, and for any packet whatever: a party opens a box under a key that needs no secret if and only
   if it has received nothing yet, its peer's key was given to it, and the header names that key. Only an initiator is
   ever in that position.
   */
  lemma {:induction false} OpensUnkeyedExactly(y: Sys, who: Who, pkt: Packet, ad: bytes)
    requires Reachable(y) && pkt.hdr.pn < U32 && pkt.hdr.n < U32
    ensures y.Get(who).Valid()
    ensures var p := y.Get(who);
      Decrypt(p, pkt, ad).1.Success? && Unkeyed(pkt.box.key)
      <==> p.chainRecv == Nil && p.dhRemote == Some(pkt.hdr.dhPub)
           && pkt.box.key == MsgOf(Nil) && pkt.box.ad == AdWithHeader(pkt.hdr, ad)
    ensures y.Get(who).chainRecv == Nil && y.Get(who).dhRemote.Some? ==> who == Alice
  {
    hide Reachable, Runnable, RolesInv, SideInv, LogInv, Header.Marshal, Unkeyed;
    ReachableInv(y);
    var p := y.Get(who);
    var s, r := SideOf(y, who);
    SideValid(who.Other(), p, y.log, y.decrypted, s, r);
    if Decrypt(p, pkt, ad).1.Success? {
      AdMatches(p, pkt, ad);
      if Unkeyed(pkt.box.key) {
        OpensUnkeyed(who.Other(), p, y.log, y.decrypted, s, r, pkt, ad);
      }
    }
    if p.chainRecv == Nil {
      NilChain(who.Other(), p, y.log, y.decrypted, s, r);
    }
    ChainKeyed(ChainOf(Nil, Dh([], []), None), 0);
  }

  lemma SideValid(peer: Who, p: Party, log: seq<Epoch>, decrypted: set<LetterId>, s: int, r: int)
    requires SideInv(p, log, decrypted, s, r, peer)
    ensures p.Valid()
  {
  }

  lemma AdMatches(p: Party, pkt: Packet, ad: bytes)
    requires p.Valid() && pkt.hdr.pn < U32 && pkt.hdr.n < U32 && Decrypt(p, pkt, ad).1.Success?
    ensures pkt.box.ad == AdWithHeader(pkt.hdr, ad)
  {
    hide Advance, AdWithHeader;
  }

  /** In any reachable state, a party seals under a key that needs no secret if and only if it knows no peer key yet. */
  lemma {:induction false} SealsUnkeyedExactly(y: Sys, who: Who, c: Coins, plaintext: bytes, ad: bytes)
    requires Reachable(y)
    ensures y.Get(who).Valid()
    ensures Unkeyed(Encrypt(y.Get(who), c, plaintext, ad).1.box.key) <==> y.Get(who).dhRemote.None?
    ensures y.Get(who).dhRemote.None? ==> who == Bob
  {
    hide Reachable, Runnable, RolesInv, Header.Marshal, Unkeyed, MailInv, HeadsInv;
    ReachableInv(y);
    var p := y.Get(who);
    var s, r := SideOf(y, who);
    assert EpochInv(y.log, 0) && EpochInv(y.log, s);
    hide LogInv;
    if p.needsNewSendingChain {
      ChainKeyed(Prepare(p, c).0.chainSend, 0);
    } else {
      ChainKeyed(if s > 0 then y.log[s].chain else ChainOf(Nil, Dh([], []), None), p.nSend);
    }
  }
}
