/**
 Session establishment (crypto/session/session.go): a hybrid encapsulation and the first ratchet message in one packet.

 `Initiate` and `Respond` are the common part of the four Establish functions; the four differ in the prekey they check
 and in the transcript they bind.
 */
module Session {
  import opened Wrappers
  import opened Bytes
  import opened Symbolic
  import opened RatchetHeader
  import opened Ratchet
  import opened Identity
  import opened Merkle
  import opened KemHybrid
  import opened Prekey
  import opened KeyChecks
  import opened Wire
  import Conversation
  import Runs

  /** How the AEAD's boxes travel as bytes. */
  datatype Aead = Aead(enc: Sealed -> bytes, dec: bytes -> Sealed) {
    /** A box is read back from its own bytes. */
    ghost predicate Carries(box: Sealed) {
      dec(enc(box)) == box && |enc(box)| < U32
    }
  }

  datatype SessionError =
    | Prekeys(prekey: PrekeyError)
    | Codec(codec: CodecError)
    | Kem(kem: KemError)
    | Ratcheting(ratchet: RatchetError)
    | NotInitial

  // ---------------------------------------------------------------- transcripts

  function BuildTranscript(initiator: PublicKey, responder: PublicKey, bundle: Bundle): bytes {
    initiator.Marshal() + (responder.Marshal() + (bundle.root.raw + PutU32(bundle.index)))
  }

  function BuildLastResortTranscript(initiator: PublicKey, responder: PublicKey, lr: LastResort): bytes {
    initiator.Marshal() + (responder.Marshal() + lr.publicKey)
  }

  lemma IdentitiesBound(a: PublicKey, b: PublicKey, rest: bytes, a': PublicKey, b': PublicKey, rest': bytes)
    ensures a.Marshal() + (b.Marshal() + rest) == a'.Marshal() + (b'.Marshal() + rest')
            <==> a == a' && b == b' && rest == rest'
  {
    if a.Marshal() + (b.Marshal() + rest) == a'.Marshal() + (b'.Marshal() + rest') {
      ConcatInjective(a.Marshal(), b.Marshal() + rest, a'.Marshal(), b'.Marshal() + rest');
      ConcatInjective(b.Marshal(), rest, b'.Marshal(), rest');
      MarshalInjective(a, a');
      MarshalInjective(b, b');
    }
  }

  /** The same prekey slot, as far as a transcript tells: the batch root and the low 32 bits of the index. */
  predicate SameSlot(x: Bundle, y: Bundle) {
    x.root == y.root && x.index % U32 == y.index % U32
  }

  lemma SlotBound(x: Bundle, y: Bundle)
    ensures x.root.raw + PutU32(x.index) == y.root.raw + PutU32(y.index) <==> SameSlot(x, y)
  {
    PutU32Injective(x.index, y.index);
    hide PutU32;
    if x.root.raw + PutU32(x.index) == y.root.raw + PutU32(y.index) {
      ConcatInjective(x.root.raw, PutU32(x.index), y.root.raw, PutU32(y.index));
    }
  }

  /** Transcripts agree exactly when both identities and the prekey slot do. */
  lemma {:induction false} TranscriptBinds(a: PublicKey, b: PublicKey, x: Bundle, a': PublicKey, b': PublicKey,
                                           x': Bundle)
    ensures BuildTranscript(a, b, x) == BuildTranscript(a', b', x') <==> a == a' && b == b' && SameSlot(x, x')
  {
    hide PutU32;
    IdentitiesBound(a, b, x.root.raw + PutU32(x.index), a', b', x'.root.raw + PutU32(x'.index));
    SlotBound(x, x');
  }

  lemma {:induction false} LastResortTranscriptBinds(
      a: PublicKey, b: PublicKey, lr: LastResort, a': PublicKey, b': PublicKey, lr': LastResort)
    ensures BuildLastResortTranscript(a, b, lr) == BuildLastResortTranscript(a', b', lr')
       <==> a == a' && b == b' && lr.publicKey == lr'.publicKey
  {
    IdentitiesBound(a, b, lr.publicKey, a', b', lr'.publicKey);
  }

  /** The two kinds of transcript coincide only for a last-resort "key" of 36 bytes, which is not a key. */
  lemma {:induction false} TranscriptsDisjoint(
      a: PublicKey, b: PublicKey, x: Bundle, a': PublicKey, b': PublicKey, lr: LastResort)
    ensures BuildTranscript(a, b, x) == BuildLastResortTranscript(a', b', lr)
       <==> a == a' && b == b' && lr.publicKey == x.root.raw + PutU32(x.index)
    ensures |lr.publicKey| == PUBLIC_KEY_SIZE ==> BuildTranscript(a, b, x) != BuildLastResortTranscript(a', b', lr)
  {
    hide PutU32;
    IdentitiesBound(a, b, x.root.raw + PutU32(x.index), a', b', lr.publicKey);
  }

  // ---------------------------------------------------------------- establishing

  /** What the initiator draws: the encapsulation, its first ratchet key, and what EncryptMessage is handed. */
  datatype InitiatorDraw = InitiatorDraw(kem: Draw, freshDh: bytes, coins: Coins)

  function Initiate(aead: Aead, initiator: PublicKey, pub: KeyPair, transcript: bytes, index: int, lastResort: bool,
                    d: InitiatorDraw, first: bytes): (Party, InitialMessage)
  {
    var (ct, sessionKey) := Encapsulated(pub, transcript, d.kem);
    var (p, pkt) := Encrypt(AliceStart(sessionKey, pub.x25519, d.freshDh), d.coins, first, []);
    (p, InitialMessage(initiator, ct, index, lastResort, pkt.hdr, aead.enc(pkt.box)))
  }

  /** The common end of the two initiators: encapsulation refuses a key that ECDH refuses. */
  function TryInitiate(aead: Aead, initiator: PublicKey, pub: KemKey, transcript: bytes, index: int, lastResort: bool,
                       d: InitiatorDraw, first: bytes): Result<(Party, InitialMessage), SessionError>
  {
    var sealed := Encapsulate(pub, transcript, d.kem);
    if sealed.Failure? then Failure(Kem(sealed.error))
    else Success(Initiate(aead, initiator, pub, transcript, index, lastResort, d, first))
  }

  function Respond(aead: Aead, priv: KeyPair, transcript: bytes, msg: InitialMessage)
    : Result<(Party, bytes), SessionError>
    requires msg.header.pn < U32 && msg.header.n < U32
  {
    var sessionKey := Decapsulate(priv, msg.kemCiphertext, transcript);
    if sessionKey.Failure? then Failure(Kem(sessionKey.error))
    else
      var (p, r) := Decrypt(BobStart(sessionKey.value, priv.x25519), Packet(msg.header, aead.dec(msg.ciphertext)), []);
      if r.Failure? then Failure(Ratcheting(r.error)) else Success((p, r.value))
  }

  function AsInitiator(h: HashFn, aead: Aead, initiator: PublicKey, responder: PublicKey, bundle: Bundle,
                       d: InitiatorDraw, first: bytes): Result<(Party, InitialMessage), SessionError>
  {
    var bad := VerifyBundle(h, responder, bundle);
    if bad.Some? then Failure(Prekeys(bad.value))
    else
      var pub := UnmarshalPublicKey(bundle.publicKey);
      if pub.Failure? then Failure(Codec(pub.error))
      else
        TryInitiate(aead, initiator, pub.value, BuildTranscript(initiator, responder, bundle), bundle.index, false, d,
                    first)
  }

  function AsInitiatorLastResort(aead: Aead, initiator: PublicKey, responder: PublicKey, lr: LastResort,
                                 d: InitiatorDraw, first: bytes): Result<(Party, InitialMessage), SessionError>
  {
    var bad := VerifyLastResort(responder, lr);
    if bad.Some? then Failure(Prekeys(bad.value))
    else
      var pub := UnmarshalPublicKey(lr.publicKey);
      if pub.Failure? then Failure(Codec(pub.error))
      else TryInitiate(aead, initiator, pub.value, BuildLastResortTranscript(initiator, responder, lr), 0, true, d,
                       first)
  }

  function AsResponder(aead: Aead, responder: PublicKey, bundle: Bundle, priv: KeyPair, msg: InitialMessage)
    : Result<(Party, bytes), SessionError>
    requires msg.header.pn < U32 && msg.header.n < U32
  {
    Respond(aead, priv, BuildTranscript(msg.senderIdentity, responder, bundle), msg)
  }

  function AsResponderLastResort(aead: Aead, responder: PublicKey, lr: LastResort, priv: KeyPair, msg: InitialMessage)
    : Result<(Party, bytes), SessionError>
    requires msg.header.pn < U32 && msg.header.n < U32
  {
    Respond(aead, priv, BuildLastResortTranscript(msg.senderIdentity, responder, lr), msg)
  }

  // ---------------------------------------------------------------- who can answer

  /** The chain of the initiator's first message. */
  function FirstChain(sessionKey: Key, freshDh: bytes, remote: bytes): Key {
    ChainOf(sessionKey, Dh(freshDh, remote), None)
  }

  lemma InitiateFacts(aead: Aead, initiator: PublicKey, pub: KeyPair, transcript: bytes, index: int, lastResort: bool,
                      d: InitiatorDraw, first: bytes, alice: Party, msg: InitialMessage)
    requires (alice, msg) == Initiate(aead, initiator, pub, transcript, index, lastResort, d, first)
    ensures var (ct, sk) := Encapsulated(pub, transcript, d.kem); var hdr := Header(d.freshDh, 0, 0, None, None);
      && alice == Encrypt(AliceStart(sk, pub.x25519, d.freshDh), d.coins, first, []).0
      && msg == InitialMessage(initiator, ct, index, lastResort, hdr,
                  aead.enc(Sealed(MsgOf(FirstChain(sk, d.freshDh, pub.x25519)), AdWithHeader(hdr, []), first)))
  {
    hide Header.Marshal;
  }

  /** A fresh responder meets the first header of a conversation. */
  lemma BobFirst(sk: Key, bobPub: bytes, dh: bytes, box: Sealed)
    requires Runs.RatchetKey(dh)
    ensures Decrypt(BobStart(sk, bobPub), Packet(Header(dh, 0, 0, None, None), box), []).1
         == Opened(MsgOf(ChainOf(sk, Dh(bobPub, dh), None)), box, AdWithHeader(Header(dh, 0, 0, None, None), []))
  {
    hide Header.Marshal;
  }

  /**
   The responder accepts the initiator's message if and only if it uses the private key that was encapsulated to and the
   transcript that the initiator bound, whatever identity the message claims; and then it reads the first message.
   */
  lemma {:induction false} RespondsExactly(
      aead: Aead, initiator: PublicKey, pub: KeyPair, transcript: bytes, index: int, lastResort: bool,
      d: InitiatorDraw, first: bytes, alice: Party, msg: InitialMessage,
      priv: KeyPair, transcript': bytes)
    requires (alice, msg) == Initiate(aead, initiator, pub, transcript, index, lastResort, d, first)
    requires Runs.RatchetKey(d.freshDh) && FirstBoxCarried(aead, pub, transcript, d, first)
    ensures msg.header.pn < U32 && msg.header.n < U32
    ensures var r := Respond(aead, priv, transcript', msg);
      && (r.Success? <==> priv == pub && transcript' == transcript)
      && (r.Success? ==> r.value.1 == first)
  {
    hide Decrypt, Encrypt, AdWithHeader, Decapsulate, Encapsulated;
    InitiateFacts(aead, initiator, pub, transcript, index, lastResort, d, first, alice, msg);
    var sk := Encapsulated(pub, transcript, d.kem).1;
    KeysAgreeExactly(pub, transcript, d.kem, priv, transcript');
    var sk' := Decapsulate(priv, msg.kemCiphertext, transcript').value;
    BobFirst(sk', priv.x25519, d.freshDh, FirstBox(pub, transcript, d, first));
    assert Dh(d.freshDh, pub.x25519) == Dh(pub.x25519, d.freshDh);
  }

  /** The box of the first message. */
  function FirstBox(pub: KeyPair, transcript: bytes, d: InitiatorDraw, first: bytes): Sealed {
    var sk := Encapsulated(pub, transcript, d.kem).1;
    Sealed(MsgOf(FirstChain(sk, d.freshDh, pub.x25519)), AdWithHeader(Header(d.freshDh, 0, 0, None, None), []), first)
  }

  ghost predicate FirstBoxCarried(aead: Aead, pub: KeyPair, transcript: bytes, d: InitiatorDraw, first: bytes) {
    aead.Carries(FirstBox(pub, transcript, d, first))
  }

  // ---------------------------------------------------------------- the conversation begins

  /** Two parties stand at the beginning of a conversation: one letter sent by Alice, and opened by Bob. */
  ghost predicate Begun(y: Conversation.Sys, alice: Party, bob: Party, first: bytes) {
    && Runs.Reachable(y)
    && y.alice == alice && y.bob == bob
    && |y.log| == 2 && |y.log[1].letters| == 1 && y.log[1].letters[0].plaintext == first
    && y.decrypted == {(1, 0)}
    && y.log[0].root.Session?
    && alice.threshold == bob.threshold == 50
  }

  /** The run that an establishment amounts to: Alice sends, Bob receives. */
  function Opening(coins: Coins, first: bytes): seq<Conversation.Event> {
    [Conversation.Send(Conversation.Alice, coins, first, []), Conversation.Deliver(1, 0)]
  }

  lemma SendOpens(sk: Key, bobPub: bytes, freshDh: bytes, coins: Coins, first: bytes, y0: Conversation.Sys,
                  y1: Conversation.Sys)
    requires Runs.RatchetKey(bobPub) && Runs.RatchetKey(freshDh) && bobPub != freshDh
    requires y0 == Conversation.Start(sk, bobPub, freshDh, DEFAULT_MESSAGE_THRESHOLD, DEFAULT_MESSAGE_THRESHOLD)
    requires y1 == Conversation.SendStep(y0, Conversation.Alice, coins, first, [])
    ensures Runs.Admissible(y0, Opening(coins, first)[0]) && y1 == Runs.Step(y0, Opening(coins, first)[0])
    ensures y1.alice == Encrypt(AliceStart(sk, bobPub, freshDh), coins, first, []).0 && y1.bob == BobStart(sk, bobPub)
    ensures |y1.log| == 2 && y1.log[0].root == sk && y1.log[0].letters == [] && y1.decrypted == {}
    ensures y1.log[1].creator == Conversation.Alice && y1.log[1].inject.None?
    ensures y1.log[1].letters == [Conversation.Letter(
              Packet(Header(freshDh, 0, 0, None, None),
                     Sealed(MsgOf(FirstChain(sk, freshDh, bobPub)),
                            AdWithHeader(Header(freshDh, 0, 0, None, None), []), first)),
              first, [])]
  {
    hide Header.Marshal;
  }

  /** Handing the first letter to the fresh responder. */
  lemma DeliverOpens(sk: Key, bobPub: bytes, freshDh: bytes, first: bytes, y1: Conversation.Sys)
    requires Runs.RatchetKey(freshDh) && y1.bob == BobStart(sk, bobPub) && |y1.log| == 2 && y1.decrypted == {}
    requires y1.alice.Valid() && y1.log[0].letters == [] && y1.log[1].inject.None?
             && y1.log[1].creator == Conversation.Alice
    requires y1.log[1].letters == [Conversation.Letter(
               Packet(Header(freshDh, 0, 0, None, None),
                      Sealed(MsgOf(FirstChain(sk, freshDh, bobPub)),
                             AdWithHeader(Header(freshDh, 0, 0, None, None), []), first)),
               first, [])]
    ensures Runs.Admissible(y1, Conversation.Deliver(1, 0))
    ensures var y2 := Runs.Step(y1, Conversation.Deliver(1, 0));
      && y2.alice == y1.alice && y2.log == y1.log && y2.decrypted == {(1, 0)}
      && (y2.bob, Success(first)) == Decrypt(BobStart(sk, bobPub), y1.log[1].letters[0].pkt, [])
  {
    hide Decrypt, AdWithHeader;
    var pkt := y1.log[1].letters[0].pkt;
    BobFirst(sk, bobPub, freshDh, pkt.box);
    assert Dh(freshDh, bobPub) == Dh(bobPub, freshDh);
  }

  lemma OpeningRuns(y0: Conversation.Sys, y1: Conversation.Sys, y2: Conversation.Sys, coins: Coins, first: bytes)
    requires Runs.Fresh(y0)
    requires Runs.Admissible(y0, Opening(coins, first)[0]) && y1 == Runs.Step(y0, Opening(coins, first)[0])
    requires Runs.Admissible(y1, Opening(coins, first)[1]) && y2 == Runs.Step(y1, Opening(coins, first)[1])
    ensures Runs.Reachable(y2)
  {
    hide Runs.Admissible, Runs.Step, Runs.Fresh, Runs.Reachable;
    Runs.FreshReachable(y0);
    Runs.StepReachable(y0, Opening(coins, first)[0]);
    Runs.StepReachable(y1, Opening(coins, first)[1]);
  }

  lemma OpeningThresholds(y0: Conversation.Sys, y1: Conversation.Sys, y2: Conversation.Sys, coins: Coins, first: bytes)
    requires Runs.Admissible(y0, Opening(coins, first)[0]) && y1 == Runs.Step(y0, Opening(coins, first)[0])
    requires Runs.Admissible(y1, Opening(coins, first)[1]) && y2 == Runs.Step(y1, Opening(coins, first)[1])
    ensures y2.alice.threshold == y0.alice.threshold && y2.bob.threshold == y0.bob.threshold
  {
    hide Runs.Admissible, Runs.Step;
    Runs.StepThreshold(y0, Opening(coins, first)[0], Conversation.Alice);
    Runs.StepThreshold(y0, Opening(coins, first)[0], Conversation.Bob);
    Runs.StepThreshold(y1, Opening(coins, first)[1], Conversation.Alice);
    Runs.StepThreshold(y1, Opening(coins, first)[1], Conversation.Bob);
  }

  /** The right responder answers, and the two ratchet states begin a conversation. */
  lemma {:induction false} Establishes(
      aead: Aead, initiator: PublicKey, pub: KeyPair, transcript: bytes, index: int, lastResort: bool,
      d: InitiatorDraw, first: bytes, alice: Party, msg: InitialMessage) returns (bob: Party, y: Conversation.Sys)
    requires (alice, msg) == Initiate(aead, initiator, pub, transcript, index, lastResort, d, first)
    requires Runs.RatchetKey(d.freshDh) && d.freshDh != pub.x25519 && FirstBoxCarried(aead, pub, transcript, d, first)
    ensures msg.header.pn < U32 && msg.header.n < U32
    ensures Respond(aead, pub, transcript, msg) == Success((bob, first))
    ensures Begun(y, alice, bob, first)
  {
    hide Decrypt, Encrypt, AdWithHeader;
    InitiateFacts(aead, initiator, pub, transcript, index, lastResort, d, first, alice, msg);
    RespondsExactly(aead, initiator, pub, transcript, index, lastResort, d, first, alice, msg, pub, transcript);
    bob := Respond(aead, pub, transcript, msg).value.0;
    var sk := Encapsulated(pub, transcript, d.kem).1;
    assert sk == Decapsulate(pub, msg.kemCiphertext, transcript).value by {
      KeysAgreeExactly(pub, transcript, d.kem, pub, transcript);
    }
    var y0 := Conversation.Start(sk, pub.x25519, d.freshDh, DEFAULT_MESSAGE_THRESHOLD, DEFAULT_MESSAGE_THRESHOLD);
    var y1 := Conversation.SendStep(y0, Conversation.Alice, d.coins, first, []);
    SendOpens(sk, pub.x25519, d.freshDh, d.coins, first, y0, y1);
    DeliverOpens(sk, pub.x25519, d.freshDh, first, y1);
    y := Runs.Step(y1, Conversation.Deliver(1, 0));
    OpeningRuns(y0, y1, y, d.coins, first);
    OpeningThresholds(y0, y1, y, d.coins, first);
  }

  // ---------------------------------------------------------------- end to end

  lemma {:induction false} FitsTheWire(
      aead: Aead, initiator: PublicKey, pub: KeyPair, transcript: bytes, index: int, lastResort: bool,
      d: InitiatorDraw, first: bytes, alice: Party, msg: InitialMessage)
    requires (alice, msg) == Initiate(aead, initiator, pub, transcript, index, lastResort, d, first)
    requires Runs.RatchetKey(d.freshDh) && FirstBoxCarried(aead, pub, transcript, d, first) && 0 <= index < U32
    ensures UnmarshalEnvelope(Initial(msg).Marshal()) == Success(Initial(msg))
  {
    InitiateFacts(aead, initiator, pub, transcript, index, lastResort, d, first, alice, msg);
    assert |msg.header.Marshal()| < U32 && msg.header.Encodable();
    hide Initiate, UnmarshalEnvelope, Envelope.Marshal, InitialMessage.Marshal, Header.Marshal;
    EnvelopeRoundTrip(Initial(msg));
  }

  /**
   One-time prekeys, end to end: for every batch, every index and every first message, the initiator succeeds, its
   message survives the wire, the responder returns the first message, and both ends stand in a reachable state of the
   ratchet.
   */
  lemma {:induction false} OneTimeSession(
      h: HashFn, aead: Aead, initiator: PublicKey, responder: PublicKey, b: Batch, index: nat,
      bundle: Bundle, d: InitiatorDraw, first: bytes)
    returns (alice: Party, msg: InitialMessage, bob: Party, y: Conversation.Sys)
    requires b.IssuedBy(h, responder) && index < |b.privates| <= U32
    requires bundle == HonestBundle(h, b, index)
    requires Runs.RatchetKey(d.freshDh) && d.freshDh != b.privates[index].x25519
    requires aead.Carries(FirstBox(b.privates[index], BuildTranscript(initiator, responder, bundle), d, first))
    ensures AsInitiator(h, aead, initiator, responder, bundle, d, first) == Success((alice, msg))
    ensures UnmarshalEnvelope(Initial(msg).Marshal()) == Success(Initial(msg))
    ensures msg.header.pn < U32 && msg.header.n < U32
    ensures AsResponder(aead, responder, bundle, b.privates[index], msg) == Success((bob, first))
    ensures Begun(y, alice, bob, first)
  {
    BundleVerifies(h, responder, b, index);
    PublicKeyCodec(b.privates[index], bundle.publicKey);
    hide VerifyBundle, Initiate, Respond, BuildTranscript, UnmarshalEnvelope, Envelope.Marshal, FirstBox, Begun,
         RawKemKey.Marshal;
    var pub, t := b.privates[index], BuildTranscript(initiator, responder, bundle);
    var start := Initiate(aead, initiator, pub, t, index, false, d, first);
    alice, msg := start.0, start.1;
    FitsTheWire(aead, initiator, pub, t, index, false, d, first, alice, msg);
    bob, y := Establishes(aead, initiator, pub, t, index, false, d, first, alice, msg);
    InitiateFacts(aead, initiator, pub, t, index, false, d, first, alice, msg);
  }

  /**
   Whoever answers a one-time message succeeds if and only if both identities, the prekey slot and the private key are
   the ones the initiator used; a last-resort key never answers it.
   */
  lemma {:induction false} OneTimeExactly(
      h: HashFn, aead: Aead, initiator: PublicKey, responder: PublicKey, bundle: Bundle, pub: KeyPair,
      d: InitiatorDraw, first: bytes, alice: Party, msg: InitialMessage,
      sender': PublicKey, responder': PublicKey, bundle': Bundle, priv': KeyPair, lr: LastResort)
    requires AsInitiator(h, aead, initiator, responder, bundle, d, first) == Success((alice, msg))
    requires UnmarshalPublicKey(bundle.publicKey) == Success(pub) && Runs.RatchetKey(d.freshDh)
    requires aead.Carries(FirstBox(pub, BuildTranscript(initiator, responder, bundle), d, first))
    ensures msg.header.pn < U32 && msg.header.n < U32
    ensures AsResponder(aead, responder', bundle', priv', msg.(senderIdentity := sender')).Success?
       <==> sender' == initiator && responder' == responder && SameSlot(bundle', bundle) && priv' == pub
    ensures |lr.publicKey| == PUBLIC_KEY_SIZE ==>
              AsResponderLastResort(aead, responder', lr, priv', msg.(senderIdentity := sender')).Failure?
  {
    var t := BuildTranscript(initiator, responder, bundle);
    var t', l' := BuildTranscript(sender', responder', bundle'), BuildLastResortTranscript(sender', responder', lr);
    assert (alice, msg) == Initiate(aead, initiator, pub, t, bundle.index, false, d, first);
    hide VerifyBundle, Initiate, BuildTranscript, BuildLastResortTranscript, FirstBox, Decapsulate, Decrypt;
    RespondsExactly(aead, initiator, pub, t, bundle.index, false, d, first, alice, msg, priv', t');
    RespondsExactly(aead, initiator, pub, t, bundle.index, false, d, first, alice, msg, priv', l');
    RespondIgnoresSender(aead, priv', t', msg, sender');
    RespondIgnoresSender(aead, priv', l', msg, sender');
    TranscriptBinds(sender', responder', bundle', initiator, responder, bundle);
    TranscriptsDisjoint(initiator, responder, bundle, sender', responder', lr);
  }

  /** The claimed sender matters through the transcript alone. */
  lemma RespondIgnoresSender(aead: Aead, priv: KeyPair, transcript: bytes, msg: InitialMessage, sender: PublicKey)
    requires msg.header.pn < U32 && msg.header.n < U32
    ensures Respond(aead, priv, transcript, msg.(senderIdentity := sender)) == Respond(aead, priv, transcript, msg)
  {
    hide Decrypt, Decapsulate;
  }

  /** The last-resort key, end to end. */
  lemma {:induction false} LastResortSession(
      aead: Aead, initiator: PublicKey, responder: PublicKey, priv: KeyPair, lr: LastResort,
      d: InitiatorDraw, first: bytes)
    returns (alice: Party, msg: InitialMessage, bob: Party, y: Conversation.Sys)
    requires lr == SignLastResort(responder, priv)
    requires Runs.RatchetKey(d.freshDh) && d.freshDh != priv.x25519
    requires aead.Carries(FirstBox(priv, BuildLastResortTranscript(initiator, responder, lr), d, first))
    ensures AsInitiatorLastResort(aead, initiator, responder, lr, d, first) == Success((alice, msg))
    ensures UnmarshalEnvelope(Initial(msg).Marshal()) == Success(Initial(msg))
    ensures msg.header.pn < U32 && msg.header.n < U32
    ensures AsResponderLastResort(aead, responder, lr, priv, msg) == Success((bob, first))
    ensures Begun(y, alice, bob, first)
  {
    LastResortExact(responder, priv, responder, priv.Marshal());
    PublicKeyCodec(priv, lr.publicKey);
    hide VerifyLastResort, Initiate, Respond, BuildLastResortTranscript, UnmarshalEnvelope, Envelope.Marshal, FirstBox,
         Begun, RawKemKey.Marshal;
    var t := BuildLastResortTranscript(initiator, responder, lr);
    var start := Initiate(aead, initiator, priv, t, 0, true, d, first);
    alice, msg := start.0, start.1;
    FitsTheWire(aead, initiator, priv, t, 0, true, d, first, alice, msg);
    bob, y := Establishes(aead, initiator, priv, t, 0, true, d, first, alice, msg);
    InitiateFacts(aead, initiator, priv, t, 0, true, d, first, alice, msg);
  }

  /** Whoever answers a last-resort message succeeds if and only if it has both identities and the key right. */
  lemma {:induction false} LastResortExactly(
      aead: Aead, initiator: PublicKey, responder: PublicKey, lr: LastResort, pub: KeyPair,
      d: InitiatorDraw, first: bytes, alice: Party, msg: InitialMessage,
      sender': PublicKey, responder': PublicKey, lr': LastResort, priv': KeyPair, bundle: Bundle)
    requires AsInitiatorLastResort(aead, initiator, responder, lr, d, first) == Success((alice, msg))
    requires UnmarshalPublicKey(lr.publicKey) == Success(pub) && Runs.RatchetKey(d.freshDh)
    requires aead.Carries(FirstBox(pub, BuildLastResortTranscript(initiator, responder, lr), d, first))
    ensures msg.header.pn < U32 && msg.header.n < U32
    ensures AsResponderLastResort(aead, responder', lr', priv', msg.(senderIdentity := sender')).Success?
       <==> sender' == initiator && responder' == responder && lr'.publicKey == lr.publicKey && priv' == pub
    ensures AsResponder(aead, responder', bundle, priv', msg.(senderIdentity := sender')).Failure?
  {
    var t := BuildLastResortTranscript(initiator, responder, lr);
    var t', l' := BuildTranscript(sender', responder', bundle), BuildLastResortTranscript(sender', responder', lr');
    assert (alice, msg) == Initiate(aead, initiator, pub, t, 0, true, d, first);
    assert |lr.publicKey| == PUBLIC_KEY_SIZE;
    hide VerifyLastResort, Initiate, BuildTranscript, BuildLastResortTranscript, FirstBox, Decapsulate, Decrypt;
    RespondsExactly(aead, initiator, pub, t, 0, true, d, first, alice, msg, priv', l');
    RespondsExactly(aead, initiator, pub, t, 0, true, d, first, alice, msg, priv', t');
    RespondIgnoresSender(aead, priv', l', msg, sender');
    RespondIgnoresSender(aead, priv', t', msg, sender');
    LastResortTranscriptBinds(sender', responder', lr', initiator, responder, lr);
    TranscriptsDisjoint(sender', responder', bundle, initiator, responder, lr);
  }

  // ---------------------------------------------------------------- from the bytes alone

  /** What a responder keeps: a batch of one-time keys and the last-resort key. */
  datatype Keyring = Keyring(batch: Batch, lastResort: LastResort, lastResortPriv: KeyPair)

  /** What a responder does with an envelope: the message itself says which of its keys to answer with. */
  ghost function AnswerEnvelope(h: HashFn, aead: Aead, responder: PublicKey, keys: Keyring, envelope: bytes)
    : Result<(Party, bytes), SessionError>
    requires keys.batch.IssuedBy(h, responder)
  {
    var v := UnmarshalEnvelope(envelope);
    if v.Failure? then Failure(Codec(v.error))
    else if v.value.Subsequent? then Failure(NotInitial)
    else
      EnvelopeCodec(v.value, envelope);
      var msg := v.value.initial;
      if msg.isLastResort
      then AsResponderLastResort(aead, responder, keys.lastResort, keys.lastResortPriv, msg)
      else if msg.prekeyIndex < 0 || msg.prekeyIndex >= |keys.batch.privates| then Failure(Prekeys(IndexOutOfRange))
      else
        AsResponder(aead, responder, HonestBundle(h, keys.batch, msg.prekeyIndex), keys.batch.privates[msg.prekeyIndex],
                    msg)
  }

  /** The message names its sender, its slot and its kind. */
  lemma MessageNames(h: HashFn, aead: Aead, initiator: PublicKey, responder: PublicKey, bundle: Bundle, lr: LastResort,
                     d: InitiatorDraw, first: bytes)
    ensures var r := AsInitiator(h, aead, initiator, responder, bundle, d, first);
      r.Success? ==> var msg := r.value.1;
        msg.senderIdentity == initiator && msg.prekeyIndex == bundle.index && !msg.isLastResort
    ensures var r := AsInitiatorLastResort(aead, initiator, responder, lr, d, first);
      r.Success? ==> r.value.1.senderIdentity == initiator && r.value.1.isLastResort
  {
    hide VerifyBundle, VerifyLastResort, UnmarshalPublicKey, Encapsulate, Encapsulated, Encrypt;
  }

  /**
   One-time prekeys from the bytes alone: whatever the batch, the index and the last-resort key, the envelope leads the
   responder to the right key and bundle among its own, and it returns the first message.
   */
  lemma {:induction false} OneTimeFromBytes(
      h: HashFn, aead: Aead, initiator: PublicKey, responder: PublicKey, keys: Keyring, index: nat,
      bundle: Bundle, d: InitiatorDraw, first: bytes)
    returns (alice: Party, msg: InitialMessage, bob: Party, y: Conversation.Sys)
    requires keys.batch.IssuedBy(h, responder) && index < |keys.batch.privates| <= U32
    requires bundle == HonestBundle(h, keys.batch, index)
    requires Runs.RatchetKey(d.freshDh) && d.freshDh != keys.batch.privates[index].x25519
    requires aead.Carries(FirstBox(keys.batch.privates[index], BuildTranscript(initiator, responder, bundle), d, first))
    ensures AsInitiator(h, aead, initiator, responder, bundle, d, first) == Success((alice, msg))
    ensures AnswerEnvelope(h, aead, responder, keys, Initial(msg).Marshal()) == Success((bob, first))
    ensures Begun(y, alice, bob, first)
  {
    hide AsInitiator, AsResponder, UnmarshalEnvelope, Envelope.Marshal, FirstBox, Begun;
    alice, msg, bob, y := OneTimeSession(h, aead, initiator, responder, keys.batch, index, bundle, d, first);
    MessageNames(h, aead, initiator, responder, bundle, keys.lastResort, d, first);
  }

  /** The same for the last-resort key, whatever the batch. */
  lemma {:induction false} LastResortFromBytes(
      h: HashFn, aead: Aead, initiator: PublicKey, responder: PublicKey, keys: Keyring, bundle: Bundle,
      d: InitiatorDraw, first: bytes)
    returns (alice: Party, msg: InitialMessage, bob: Party, y: Conversation.Sys)
    requires keys.batch.IssuedBy(h, responder)
    requires keys.lastResort == SignLastResort(responder, keys.lastResortPriv)
    requires Runs.RatchetKey(d.freshDh) && d.freshDh != keys.lastResortPriv.x25519
    requires aead.Carries(FirstBox(keys.lastResortPriv,
                                   BuildLastResortTranscript(initiator, responder, keys.lastResort),
                                   d, first))
    ensures AsInitiatorLastResort(aead, initiator, responder, keys.lastResort, d, first) == Success((alice, msg))
    ensures AnswerEnvelope(h, aead, responder, keys, Initial(msg).Marshal()) == Success((bob, first))
    ensures Begun(y, alice, bob, first)
  {
    hide AsInitiatorLastResort, AsResponderLastResort, UnmarshalEnvelope, Envelope.Marshal, FirstBox, Begun;
    alice, msg, bob, y :=
      LastResortSession(aead, initiator, responder, keys.lastResortPriv, keys.lastResort, d, first);
    MessageNames(h, aead, initiator, responder, bundle, keys.lastResort, d, first);
  }

  // ---------------------------------------------------------------- what an initiator accepts

  /** A key that parses and that ECDH does not refuse. */
  predicate Usable(key: bytes) {
    |key| == PUBLIC_KEY_SIZE && Normalised(key[X25519_SIZE..]) && !LowOrder(key[..X25519_SIZE])
  }

  /** A session is begun exactly with a bundle that the responder signed, whose proof holds and whose key is usable. */
  lemma {:induction false} InitiatesExactly(
      h: HashFn, aead: Aead, initiator: PublicKey, responder: PublicKey, bundle: Bundle, d: InitiatorDraw, first: bytes)
    ensures AsInitiator(h, aead, initiator, responder, bundle, d, first).Success?
       <==> && Verify(responder, bundle.root.raw, bundle.rootSignature)
            && Accepts(h, LeafData(bundle.publicKey, bundle.index), bundle.index, bundle.batchSize, bundle.proof,
                       bundle.root)
            && Usable(bundle.publicKey)
  {
    hide LowOrder, Normalised, Verify, Accepts, LeafData, Encapsulated, Initiate;
  }

  lemma {:induction false} InitiatesLastResortExactly(
      aead: Aead, initiator: PublicKey, responder: PublicKey, lr: LastResort, d: InitiatorDraw, first: bytes)
    ensures AsInitiatorLastResort(aead, initiator, responder, lr, d, first).Success?
       <==> Verify(responder, LastResortMessage(lr.publicKey), lr.signature) && Usable(lr.publicKey)
  {
    hide LowOrder, Normalised, Verify, LastResortMessage, Encapsulated, Initiate;
  }

  /**
   Nobody can slip in another key: under a signature that the responder made for a batch, a session is begun with that
   batch's own key at the index that the message names, or else a collision of the hash is at hand.
   */
  lemma {:induction false} InitiatorBound(
      h: HashFn, aead: Aead, initiator: PublicKey, responder: PublicKey, b: Batch, bundle: Bundle, d: InitiatorDraw,
      first: bytes, alice: Party, msg: InitialMessage)
    requires b.IssuedBy(h, responder) && |b.privates| <= MAX_LEAVES && bundle.rootSignature == b.rootSig
    requires AsInitiator(h, aead, initiator, responder, bundle, d, first) == Success((alice, msg))
    ensures msg.prekeyIndex == bundle.index && 0 <= bundle.index < Pow2(|bundle.proof|)
    ensures
      || (&& bundle.index < |b.privates|
          && msg.kemCiphertext
             == Encapsulated(b.privates[bundle.index], BuildTranscript(initiator, responder, bundle), d.kem).0
          && alice.root.RootOf?
          && alice.root.salt
             == Encapsulated(b.privates[bundle.index], BuildTranscript(initiator, responder, bundle), d.kem).1)
      || Collision(h, ProofClash(h, Prekey.MERKLE_DOMAIN, BatchLeaves(b.pubBytes),
                                 LeafData(bundle.publicKey, bundle.index),
                                 bundle.index, bundle.proof))
  {
    assert bundle.root == b.root;
    BundleBinding(h, responder, b, bundle);
    MessageNames(h, aead, initiator, responder, bundle, LastResort(bundle.publicKey, bundle.rootSignature), d, first);
    hide VerifyBundle, UnmarshalPublicKey, Collision, ProofClash, BatchLeaves, LeafData, BuildTranscript, AdWithHeader;
  }

  // ---------------------------------------------------------------- the code

  /** The common end of the two initiators. */
  method StartInitiator(aead: Aead, initiator: PublicKey, pub: KemKey, transcript: bytes, index: int, lastResort: bool,
                        d: InitiatorDraw, first: bytes) returns (r: Result<(State, InitialMessage), SessionError>)
    ensures match TryInitiate(aead, initiator, pub, transcript, index, lastResort, d, first)
            case Failure(e) => r == Failure(e)
            case Success((p, msg)) => r.Success? && fresh(r.value.0) && r.value.0.View() == p && r.value.1 == msg
  {
    hide LowOrder;
    var sealed := Encapsulate(pub, transcript, d.kem);
    if sealed.Failure? {
      return Failure(Kem(sealed.error));
    }
    var (ct, sessionKey) := sealed.value;
    var state := State.InitAlice(sessionKey, pub.x25519, d.freshDh);
    // Encapsulation has exchanged with the same key already, so neither of these fails.
    var pkt := state.value.EncryptMessage(d.coins, first, []);
    r := Success((state.value,
                  InitialMessage(initiator, ct, index, lastResort, pkt.value.hdr, aead.enc(pkt.value.box))));
  }

  method EstablishAsInitiator(h: HashFn, aead: Aead, initiator: PublicKey, responder: PublicKey, bundle: Bundle,
                              d: InitiatorDraw, first: bytes) returns (r: Result<(State, InitialMessage), SessionError>)
    ensures match AsInitiator(h, aead, initiator, responder, bundle, d, first)
            case Failure(e) => r == Failure(e)
            case Success((p, msg)) => r.Success? && fresh(r.value.0) && r.value.0.View() == p && r.value.1 == msg
  {
    var bad := VerifyBundle(h, responder, bundle);
    if bad.Some? {
      return Failure(Prekeys(bad.value));
    }
    var pub := UnmarshalPublicKey(bundle.publicKey);
    if pub.Failure? {
      return Failure(Codec(pub.error));
    }
    hide VerifyBundle, UnmarshalPublicKey, BuildTranscript, TryInitiate;
    r := StartInitiator(aead, initiator, pub.value, BuildTranscript(initiator, responder, bundle),
                        bundle.index, false, d, first);
  }

  method EstablishAsInitiatorLastResort(aead: Aead, initiator: PublicKey, responder: PublicKey, lr: LastResort,
                                        d: InitiatorDraw, first: bytes)
    returns (r: Result<(State, InitialMessage), SessionError>)
    ensures match AsInitiatorLastResort(aead, initiator, responder, lr, d, first)
            case Failure(e) => r == Failure(e)
            case Success((p, msg)) => r.Success? && fresh(r.value.0) && r.value.0.View() == p && r.value.1 == msg
  {
    var bad := VerifyLastResort(responder, lr);
    if bad.Some? {
      return Failure(Prekeys(bad.value));
    }
    var pub := UnmarshalPublicKey(lr.publicKey);
    if pub.Failure? {
      return Failure(Codec(pub.error));
    }
    hide VerifyLastResort, UnmarshalPublicKey, BuildLastResortTranscript, TryInitiate;
    r := StartInitiator(aead, initiator, pub.value, BuildLastResortTranscript(initiator, responder, lr),
                        0, true, d, first);
  }

  /** The common end of the two responders. */
  method StartResponder(aead: Aead, priv: KeyPair, transcript: bytes, msg: InitialMessage)
    returns (r: Result<(State, bytes), SessionError>)
    requires msg.header.pn < U32 && msg.header.n < U32
    ensures match Respond(aead, priv, transcript, msg)
            case Failure(e) => r == Failure(e)
            case Success((p, first)) => r.Success? && fresh(r.value.0) && r.value.0.View() == p && r.value.1 == first
  {
    var sessionKey := Decapsulate(priv, msg.kemCiphertext, transcript);
    if sessionKey.Failure? {
      return Failure(Kem(sessionKey.error));
    }
    hide Decrypt, Decapsulate;
    var state := State.InitBob(sessionKey.value, priv.x25519);
    var first := state.DecryptMessage(Packet(msg.header, aead.dec(msg.ciphertext)), []);
    if first.Failure? {
      return Failure(Ratcheting(first.error));
    }
    r := Success((state, first.value));
  }

  method EstablishAsResponder(aead: Aead, responder: PublicKey, bundle: Bundle, priv: KeyPair, msg: InitialMessage)
    returns (r: Result<(State, bytes), SessionError>)
    requires msg.header.pn < U32 && msg.header.n < U32
    ensures match AsResponder(aead, responder, bundle, priv, msg)
            case Failure(e) => r == Failure(e)
            case Success((p, first)) => r.Success? && fresh(r.value.0) && r.value.0.View() == p && r.value.1 == first
  {
    hide Respond, BuildTranscript;
    r := StartResponder(aead, priv, BuildTranscript(msg.senderIdentity, responder, bundle), msg);
  }

  method EstablishAsResponderLastResort(aead: Aead, responder: PublicKey, lr: LastResort, priv: KeyPair,
                                        msg: InitialMessage)
    returns (r: Result<(State, bytes), SessionError>)
    requires msg.header.pn < U32 && msg.header.n < U32
    ensures match AsResponderLastResort(aead, responder, lr, priv, msg)
            case Failure(e) => r == Failure(e)
            case Success((p, first)) => r.Success? && fresh(r.value.0) && r.value.0.View() == p && r.value.1 == first
  {
    hide Respond, BuildLastResortTranscript;
    r := StartResponder(aead, priv, BuildLastResortTranscript(msg.senderIdentity, responder, lr), msg);
  }
}
