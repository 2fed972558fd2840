/**
 One party of the Double Ratchet with periodic ML-KEM injection (crypto/ratchet/ratchet.go).

 `State` is the object the library updates in place. `Party` is its value: each method of `State` is proved to take the
 value to the one the corresponding function below gives, and the theorems about runs are about those functions.
 */
module Ratchet {
  import opened Wrappers
  import opened Bytes
  import opened Symbolic
  import opened RatchetHeader
  import opened KeyChecks

  const DEFAULT_MESSAGE_THRESHOLD := 50
  const MAX_SKIP := 1000
  const X25519_SIZE := 32
  const MLKEM_PUBLIC_SIZE := 1184
  const MLKEM_CIPHERTEXT_SIZE := 1088

  datatype RatchetError =
    | SkipTooLarge
    | UnexpectedKEMCT
    | BadPublicKey            // NewPublicKey refuses the length, or Unpack the length or the encoding
    | LowOrderKey             // ECDH refuses the peer's key
    | AuthenticationFailed    // the AEAD does not open
    | LibraryPanics           // no error value: the ML-KEM library panics on a ciphertext of another size

  /** What EncryptMessage may draw: key pairs (by their public halves), an encapsulation, and the clock's verdict. */
  datatype Coins = Coins(dh: bytes, kemPub: bytes, kemCt: bytes, clockDue: bool) {
    /** What the generators yield: keys that nobody refuses. */
    ghost predicate Generated() {
      && |dh| == X25519_SIZE && !LowOrder(dh)
      && |kemPub| == MLKEM_PUBLIC_SIZE && Normalised(kemPub)
      && |kemCt| == MLKEM_CIPHERTEXT_SIZE
    }
  }

  type SkippedKey = (bytes, nat)

  datatype Party = Party(
    root: Key,
    dhSelf: bytes,
    dhRemote: Option<bytes>,
    chainSend: Key,
    chainRecv: Key,
    nSend: nat,
    nRecv: nat,
    pn: nat,
    needsNewSendingChain: bool,
    skipped: map<SkippedKey, Key>,
    threshold: int,
    msgsSinceInject: int,
    selfPendingKem: Option<bytes>,
    peerAdvertisedKem: Option<bytes>
  ) {
    /** What the code takes for granted: counters are uint32, and a peer key is there whenever it is used. */
    ghost predicate Valid() {
      && nSend < U32 && nRecv < U32 && pn < U32
      && (needsNewSendingChain ==> dhRemote.Some?)
      && (chainRecv != Nil ==> dhRemote.Some?)
    }
  }

  function AdWithHeader(hdr: Header, ad: bytes): bytes {
    ad + hdr.Marshal()
  }

  function NewParty(root: Key, dhSelf: bytes): Party {
    Party(root, dhSelf, None, Nil, Nil, 0, 0, 0, false, map[], DEFAULT_MESSAGE_THRESHOLD, 0, None, None)
  }

  function AliceStart(sessionKey: Key, bobRatchetPub: bytes, freshDh: bytes): Party {
    var dh := Dh(freshDh, bobRatchetPub);
    NewParty(RootOf(sessionKey, dh, None), freshDh).(dhRemote := Some(bobRatchetPub),
                                                     chainSend := ChainOf(sessionKey, dh, None))
  }

  function BobStart(sessionKey: Key, bobRatchetPub: bytes): Party {
    NewParty(sessionKey, bobRatchetPub)
  }

  /** An encapsulation to an advertised key, if there is one. */
  function Answering(advertised: Option<bytes>, ct: bytes): Option<KemSecret> {
    if advertised.Some? then Some(KemSecret(advertised.value, ct)) else None
  }

  /** The encapsulation that a new sending chain carries: an answer to the key the peer has advertised, if any. */
  function Encapsulation(p: Party, c: Coins): Option<KemSecret> {
    Answering(p.peerAdvertisedKem, c.kemCt)
  }

  /** The key to advertise: a new one when an injection is due. */
  function Advertising(msgsSinceInject: int, threshold: int, c: Coins): Option<bytes> {
    if msgsSinceInject >= threshold || c.clockDue then Some(c.kemPub) else None
  }

  function CiphertextOf(inject: Option<KemSecret>): Option<bytes> {
    if inject.Some? then Some(inject.value.ct) else None
  }

  /** prepareSendingChain's branch for a party that owes a new sending chain. */
  function NewSendingChain(p: Party, c: Coins): (r: (Party, Header))
    requires p.Valid() && p.needsNewSendingChain
    ensures r.0.Valid()
  {
    var dh, kem := Dh(c.dh, p.dhRemote.value), Encapsulation(p, c);
    var adv := Advertising(p.msgsSinceInject, p.threshold, c);
    (p.(dhSelf := c.dh,
        root := RootOf(p.root, dh, kem),
        chainSend := ChainOf(p.root, dh, kem),
        pn := p.nSend,
        nSend := 0,
        needsNewSendingChain := false,
        peerAdvertisedKem := None,
        selfPendingKem := if adv.Some? then adv else p.selfPendingKem,
        msgsSinceInject := if adv.Some? then 0 else p.msgsSinceInject),
     Header(c.dh, p.nSend, 0, adv, CiphertextOf(kem)))
  }

  /** prepareSendingChain when ECDH succeeds. */
  function Prepare(p: Party, c: Coins): (r: (Party, Header))
    requires p.Valid()
    ensures r.0.Valid()
  {
    if p.needsNewSendingChain then NewSendingChain(p, c) else (p, Header(p.dhSelf, p.pn, 0, None, None))
  }

  /** prepareSendingChain fails in this state: ECDH refuses the peer's key. */
  predicate RefusesToSend(p: Party)
    requires p.Valid()
  {
    p.needsNewSendingChain && LowOrder(p.dhRemote.value)
  }

  /** prepareSendingChain. When ECDH refuses the peer's key, a key pair has been drawn already. */
  function TryPrepare(p: Party, c: Coins): (r: (Party, Result<Header, RatchetError>))
    requires p.Valid()
    ensures r.0.Valid()
  {
    if RefusesToSend(p) then (p.(dhSelf := c.dh), Failure(LowOrderKey))
    else
      var (q, hdr) := Prepare(p, c);
      (q, Success(hdr))
  }

  datatype Packet = Packet(hdr: Header, box: Sealed)

  /** EncryptMessage when ECDH succeeds. */
  function Encrypt(p: Party, c: Coins, plaintext: bytes, ad: bytes): (r: (Party, Packet))
    requires p.Valid()
    ensures r.0.Valid()
  {
    var (q, h) := Prepare(p, c);
    var hdr := h.(n := q.nSend);
    (q.(chainSend := NextOf(q.chainSend), nSend := (q.nSend + 1) % U32, msgsSinceInject := q.msgsSinceInject + 1),
     Packet(hdr, Sealed(MsgOf(q.chainSend), AdWithHeader(hdr, ad), plaintext)))
  }

  /** EncryptMessage. */
  function TryEncrypt(p: Party, c: Coins, plaintext: bytes, ad: bytes): (r: (Party, Result<Packet, RatchetError>))
    requires p.Valid()
    ensures r.0.Valid()
  {
    if RefusesToSend(p) then (p.(dhSelf := c.dh), Failure(LowOrderKey))
    else
      var (q, pkt) := Encrypt(p, c, plaintext, ad);
      (q, Success(pkt))
  }

  /** The message keys of positions from..until-1 of a chain that is at ck at position `from`, filed under key d. */
  function Stored(d: bytes, ck: Key, from: nat, until: nat): map<SkippedKey, Key>
    decreases until
  {
    if until <= from then map[]
    else Stored(d, ck, from, until - 1)[(d, until - 1) := MsgOf(Iter(ck, until - 1 - from))]
  }

  lemma {:induction false} StoredAt(d: bytes, ck: Key, from: nat, until: nat, k: SkippedKey)
    ensures k in Stored(d, ck, from, until) <==> k.0 == d && from <= k.1 < until
    ensures k in Stored(d, ck, from, until) ==> Stored(d, ck, from, until)[k] == MsgOf(Iter(ck, k.1 - from))
    decreases until
  {
    if until <= from {
    } else {
      StoredAt(d, ck, from, until - 1, k);
    }
  }

  /** skipMessageKeys. */
  function SkipTo(p: Party, until: nat): (r: (Party, Option<RatchetError>))
    requires p.Valid() && until < U32
    ensures r.0.Valid()
    ensures r.1.Some? ==> r.0 == p
  {
    if p.chainRecv == Nil || until < p.nRecv then (p, None)
    else if until - p.nRecv > MAX_SKIP then (p, Some(SkipTooLarge))
    else
      (p.(chainRecv := Iter(p.chainRecv, until - p.nRecv),
          nRecv := until,
          skipped := p.skipped + Stored(p.dhRemote.value, p.chainRecv, p.nRecv, until)), None)
  }

  /** What DhStep makes of an advertised key. */
  predicate BadKemKey(advertised: Option<bytes>) {
    advertised.Some? && (|advertised.value| != MLKEM_PUBLIC_SIZE || !Normalised(advertised.value))
  }

  predicate BadCiphertext(ct: Option<bytes>) {
    ct.Some? && |ct.value| != MLKEM_CIPHERTEXT_SIZE
  }

  /**
   dhRatchetStep. A key that ECDH refuses is noticed after it was adopted and the pending ML-KEM key was spent, an
   unusable ML-KEM public key only after the chains have moved.
   */
  function DhStep(p: Party, hdr: Header): (r: (Party, Option<RatchetError>))
    requires p.Valid()
    ensures r.0.Valid()
  {
    if |hdr.dhPub| != X25519_SIZE then (p, Some(BadPublicKey))
    else if hdr.mlkemCiphertext.Some? && p.selfPendingKem.None? then (p, Some(UnexpectedKEMCT))
    else if BadCiphertext(hdr.mlkemCiphertext) then (p, Some(LibraryPanics))
    else
      var kem := if hdr.mlkemCiphertext.Some?
                 then Some(KemSecret(p.selfPendingKem.value, hdr.mlkemCiphertext.value)) else None;
      var o := p.(dhRemote := Some(hdr.dhPub), selfPendingKem := if kem.Some? then None else p.selfPendingKem);
      if LowOrder(hdr.dhPub) then (o, Some(LowOrderKey))
      else
        var dh := Dh(p.dhSelf, hdr.dhPub);
        var q := o.(root := RootOf(p.root, dh, kem), chainRecv := ChainOf(p.root, dh, kem), nRecv := 0);
        if BadKemKey(hdr.mlkemPub) then (q, Some(BadPublicKey))
        else
          (q.(needsNewSendingChain := true,
              peerAdvertisedKem := if hdr.mlkemPub.Some? then hdr.mlkemPub else p.peerAdvertisedKem), None)
  }

  predicate IsNewRatchetKey(p: Party, hdr: Header) {
    p.dhRemote.None? || hdr.dhPub != p.dhRemote.value
  }

  function Opened(key: Key, box: Sealed, ad: bytes): Result<bytes, RatchetError> {
    var m := Open(key, box, ad);
    if m.Some? then Success(m.value) else Failure(AuthenticationFailed)
  }

  /** DecryptMessage's first half: catch up with the chain the header belongs to. */
  function Advance(p: Party, hdr: Header): (r: (Party, Option<RatchetError>))
    requires p.Valid() && hdr.pn < U32 && hdr.n < U32
    ensures r.0.Valid() && (r.1.None? ==> r.0.dhRemote.Some?)
  {
    if IsNewRatchetKey(p, hdr) then
      var (q, e) := if p.dhRemote.Some? then SkipTo(p, hdr.pn) else (p, None);
      if e.Some? then (q, e)
      else
        var (q', e') := DhStep(q, hdr);
        if e'.Some? then (q', e') else SkipTo(q', hdr.n)
    else SkipTo(p, hdr.n)
  }

  /** The receiver after it has taken the key at its position. */
  function TakeNext(q: Party): Party {
    q.(chainRecv := NextOf(q.chainRecv), nRecv := (q.nRecv + 1) % U32)
  }

  function Decrypt(p: Party, pkt: Packet, ad: bytes): (r: (Party, Result<bytes, RatchetError>))
    requires p.Valid() && pkt.hdr.pn < U32 && pkt.hdr.n < U32
    ensures r.0.Valid()
  {
    var key := (pkt.hdr.dhPub, pkt.hdr.n);
    var full := AdWithHeader(pkt.hdr, ad);
    if key in p.skipped then
      (p.(skipped := p.skipped - {key}), Opened(p.skipped[key], pkt.box, full))
    else
      var (q, e) := Advance(p, pkt.hdr);
      if e.Some? then (q, Failure(e.value))
      else
        (TakeNext(q), Opened(MsgOf(q.chainRecv), pkt.box, full))
  }

  /** One party's session object. */
  class State {
    var root: Key
    var dhSelf: bytes
    var dhRemote: Option<bytes>
    var chainSend: Key
    var chainRecv: Key
    var nSend: nat
    var nRecv: nat
    var pn: nat
    var needsNewSendingChain: bool
    var skipped: map<SkippedKey, Key>
    var threshold: int
    var msgsSinceInject: int
    var selfPendingKem: Option<bytes>
    var peerAdvertisedKem: Option<bytes>

    ghost function View(): Party
      reads this
    {
      Party(root, dhSelf, dhRemote, chainSend, chainRecv, nSend, nRecv, pn, needsNewSendingChain, skipped, threshold,
            msgsSinceInject, selfPendingKem, peerAdvertisedKem)
    }

    ghost predicate Valid()
      reads this
    {
      View().Valid()
    }

    /** newState, with a key pair. */
    constructor (rootKey: Key, dhSelf: bytes)
      ensures Valid() && View() == NewParty(rootKey, dhSelf)
    {
      root, this.dhSelf, dhRemote := rootKey, dhSelf, None;
      chainSend, chainRecv := Nil, Nil;
      nSend, nRecv, pn := 0, 0, 0;
      needsNewSendingChain := false;
      skipped := map[];
      threshold, msgsSinceInject := DEFAULT_MESSAGE_THRESHOLD, 0;
      selfPendingKem, peerAdvertisedKem := None, None;
    }

    static method InitBob(sessionKey: Key, bobRatchetPub: bytes) returns (s: State)
      ensures fresh(s) && s.Valid() && s.View() == BobStart(sessionKey, bobRatchetPub)
    {
      s := new State(sessionKey, bobRatchetPub);
    }

    static method InitAlice(sessionKey: Key, bobRatchetPub: bytes, freshDh: bytes)
      returns (r: Result<State, RatchetError>)
      ensures LowOrder(bobRatchetPub) ==> r == Failure(LowOrderKey)
      ensures !LowOrder(bobRatchetPub) ==>
                r.Success? && fresh(r.value) && r.value.Valid()
                && r.value.View() == AliceStart(sessionKey, bobRatchetPub, freshDh)
    {
      var s := new State(sessionKey, freshDh);
      s.dhRemote := Some(bobRatchetPub);
      if LowOrder(bobRatchetPub) {
        return Failure(LowOrderKey);
      }
      var dhOut := Dh(freshDh, bobRatchetPub);
      s.root, s.chainSend := RootOf(s.root, dhOut, None), ChainOf(s.root, dhOut, None);
      r := Success(s);
    }

    /** Encapsulates to the peer's advertised key, if there is one, and forgets it. */
    method AnswerAdvertisement(c: Coins) returns (kemSS: Option<KemSecret>)
      modifies this`peerAdvertisedKem
      ensures kemSS == Encapsulation(old(View()), c)
      ensures View() == old(View()).(peerAdvertisedKem := None)
    {
      kemSS := None;
      if peerAdvertisedKem.Some? {
        kemSS := Some(KemSecret(peerAdvertisedKem.value, c.kemCt));
        peerAdvertisedKem := None;
      }
    }

    /** Derives the new sending chain and starts counting on it. */
    method RekeySending(dhOut: DhSecret, kemSS: Option<KemSecret>)
      modifies this`pn, this`nSend, this`root, this`chainSend, this`needsNewSendingChain
      ensures View() == old(View()).(pn := old(nSend), nSend := 0, root := RootOf(old(root), dhOut, kemSS),
                                     chainSend := ChainOf(old(root), dhOut, kemSS), needsNewSendingChain := false)
    {
      pn := nSend;
      nSend := 0;
      root, chainSend := RootOf(root, dhOut, kemSS), ChainOf(root, dhOut, kemSS);
      needsNewSendingChain := false;
    }

    /** Advertises a new key when an injection is due. */
    method AdvertiseIfDue(c: Coins) returns (adv: Option<bytes>)
      modifies this`selfPendingKem, this`msgsSinceInject
      ensures adv == Advertising(old(msgsSinceInject), threshold, c)
      ensures View() == old(View()).(selfPendingKem := if adv.Some? then adv else old(selfPendingKem),
                                     msgsSinceInject := if adv.Some? then 0 else old(msgsSinceInject))
    {
      adv := None;
      if msgsSinceInject >= threshold || c.clockDue {
        adv := Some(c.kemPub);
        selfPendingKem := adv;
        msgsSinceInject := 0;
      }
    }

    method PrepareSendingChain(c: Coins) returns (r: Result<Header, RatchetError>)
      requires Valid()
      modifies this
      ensures (View(), r) == TryPrepare(old(View()), c)
      ensures Valid()
    {
      hide Dh, Answering, Advertising, CiphertextOf, LowOrder;
      var hdr := Header(dhSelf, pn, 0, None, None);
      if needsNewSendingChain {
        ghost var p := View();
        dhSelf := c.dh;
        assert View() == p.(dhSelf := c.dh);
        if LowOrder(dhRemote.value) {
          return Failure(LowOrderKey);
        }
        var dhOut := Dh(dhSelf, dhRemote.value);
        var kemSS := AnswerAdvertisement(c);
        RekeySending(dhOut, kemSS);
        var adv := AdvertiseIfDue(c);
        hdr := Header(dhSelf, pn, 0, adv, CiphertextOf(kemSS));
      }
      r := Success(hdr);
    }

    method EncryptMessage(c: Coins, plaintext: bytes, ad: bytes) returns (r: Result<Packet, RatchetError>)
      requires Valid()
      modifies this
      ensures (View(), r) == TryEncrypt(old(View()), c, plaintext, ad)
      ensures Valid()
    {
      hide LowOrder, NewSendingChain, Header.Marshal;
      var prepared := PrepareSendingChain(c);
      if prepared.Failure? {
        return Failure(prepared.error);
      }
      var hdr := prepared.value.(n := nSend);
      var mk := ChainStepSend();
      nSend := (nSend + 1) % U32;
      msgsSinceInject := msgsSinceInject + 1;
      r := Success(Packet(hdr, Sealed(mk, AdWithHeader(hdr, ad), plaintext)));
    }

    /** chainStep(&s.chainSend). */
    method ChainStepSend() returns (mk: Key)
      modifies this`chainSend
      ensures mk == MsgOf(old(chainSend)) && chainSend == NextOf(old(chainSend))
    {
      mk := MsgOf(chainSend);
      chainSend := NextOf(chainSend);
    }

    /** chainStep(&s.chainRecv). */
    method ChainStepRecv() returns (mk: Key)
      modifies this`chainRecv
      ensures mk == MsgOf(old(chainRecv)) && chainRecv == NextOf(old(chainRecv))
    {
      mk := MsgOf(chainRecv);
      chainRecv := NextOf(chainRecv);
    }

    method SkipMessageKeys(until: nat) returns (err: Option<RatchetError>)
      requires Valid() && until < U32
      modifies this`chainRecv, this`nRecv, this`skipped
      ensures (View(), err) == SkipTo(old(View()), until)
      ensures Valid()
    {
      if chainRecv == Nil || until < nRecv {
        return None;
      }
      if until - nRecv > MAX_SKIP {
        return Some(SkipTooLarge);
      }
      var dhKey := dhRemote.value;
      ghost var from, ck := nRecv, chainRecv;
      while nRecv < until
        invariant from <= nRecv <= until
        invariant chainRecv == Iter(ck, nRecv - from)
        invariant skipped == old(skipped) + Stored(dhKey, ck, from, nRecv)
      {
        var mk := ChainStepRecv();
        skipped := skipped[(dhKey, nRecv) := mk];
        nRecv := nRecv + 1;
      }
      err := None;
    }

    /** Derives the receiving chain of the peer's new ratchet key. */
    method AdoptChain(kemSS: Option<KemSecret>)
      requires dhRemote.Some?
      modifies this`nRecv, this`root, this`chainRecv
      ensures var dh := Dh(dhSelf, dhRemote.value);
        View() == old(View()).(nRecv := 0, root := RootOf(old(root), dh, kemSS),
                               chainRecv := ChainOf(old(root), dh, kemSS))
    {
      var dhOut := Dh(dhSelf, dhRemote.value);
      nRecv := 0;
      root, chainRecv := RootOf(root, dhOut, kemSS), ChainOf(root, dhOut, kemSS);
    }

    method DhRatchetStep(hdr: Header) returns (err: Option<RatchetError>)
      requires Valid()
      modifies this
      ensures (View(), err) == DhStep(old(View()), hdr)
      ensures Valid()
    {
      hide Dh, LowOrder, Normalised;
      if |hdr.dhPub| != X25519_SIZE {
        return Some(BadPublicKey);
      }
      ghost var p := View();
      var kemSS: Option<KemSecret> := None;
      if hdr.mlkemCiphertext.Some? {
        if selfPendingKem.None? {
          return Some(UnexpectedKEMCT);
        }
        if |hdr.mlkemCiphertext.value| != MLKEM_CIPHERTEXT_SIZE {
          return Some(LibraryPanics);
        }
        kemSS := Some(KemSecret(selfPendingKem.value, hdr.mlkemCiphertext.value));
        selfPendingKem := None;
      }
      dhRemote := Some(hdr.dhPub);
      assert View() == p.(dhRemote := Some(hdr.dhPub),
                          selfPendingKem := if kemSS.Some? then None else p.selfPendingKem);
      if LowOrder(hdr.dhPub) {
        return Some(LowOrderKey);
      }
      AdoptChain(kemSS);
      if hdr.mlkemPub.Some? {
        if |hdr.mlkemPub.value| != MLKEM_PUBLIC_SIZE || !Normalised(hdr.mlkemPub.value) {
          return Some(BadPublicKey);
        }
        peerAdvertisedKem := hdr.mlkemPub;
      }
      needsNewSendingChain := true;
      err := None;
    }

    method TakeSkippedKey(hdr: Header) returns (mk: Option<Key>)
      modifies this`skipped
      ensures mk == if (hdr.dhPub, hdr.n) in old(skipped) then Some(old(skipped)[(hdr.dhPub, hdr.n)]) else None
      ensures skipped == old(skipped) - {(hdr.dhPub, hdr.n)}
    {
      var key := (hdr.dhPub, hdr.n);
      if key in skipped {
        mk := Some(skipped[key]);
        skipped := skipped - {key};
      } else {
        mk := None;
        assert skipped == skipped - {key};
      }
    }

    /** DecryptMessage up to the point where the next message key is the header's. */
    method CatchUp(hdr: Header) returns (err: Option<RatchetError>)
      requires Valid() && hdr.pn < U32 && hdr.n < U32
      modifies this
      ensures (View(), err) == Advance(old(View()), hdr)
      ensures Valid()
    {
      if dhRemote.None? || hdr.dhPub != dhRemote.value {
        if dhRemote.Some? {
          err := SkipMessageKeys(hdr.pn);
          if err.Some? {
            return;
          }
        }
        err := DhRatchetStep(hdr);
        if err.Some? {
          return;
        }
      }
      err := SkipMessageKeys(hdr.n);
    }

    method DecryptMessage(pkt: Packet, ad: bytes) returns (r: Result<bytes, RatchetError>)
      requires Valid() && pkt.hdr.pn < U32 && pkt.hdr.n < U32
      modifies this
      ensures (View(), r) == Decrypt(old(View()), pkt, ad)
      ensures Valid()
    {
      hide Advance, Opened, Header.Marshal;
      var hdr := pkt.hdr;
      var full := AdWithHeader(hdr, ad);
      var stored := TakeSkippedKey(hdr);
      if stored.Some? {
        return Opened(stored.value, pkt.box, full);
      }
      assert skipped == old(skipped);
      var err := CatchUp(hdr);
      if err.Some? {
        return Failure(err.value);
      }
      var mk := ChainStepRecv();
      nRecv := (nRecv + 1) % U32;
      r := Opened(mk, pkt.box, full);
    }
  }
}
