/**
 A conversation over the relay, as its end-to-end test holds one (relay/e2e_test.go): each side encrypts, wraps and
 sends, and reads by polling, unwrapping and decrypting what it is handed, in order. As long as no letter between the
 two expires, ratchet, wire format and relay together are a channel that delivers everything, once, in order and
 unchanged.
 */
module Channel {
  import opened Wrappers
  import opened Bytes
  import opened Symbolic
  import opened RatchetHeader
  import opened Ratchet
  import opened Conversation
  import opened Runs
  import opened Wire
  import opened Session
  import opened Mailbox

  /** What the two agree on: how boxes travel as bytes, their names at the relay, and the associated data. */
  datatype Link = Link(aead: Aead, aliceName: bytes, bobName: bytes, ad: bytes) {
    function Name(who: Who): bytes {
      if who == Alice then aliceName else bobName
    }
  }

  datatype ReadError =
    | Unwrapping(codec: CodecError)
    | NotSubsequent
    | Decrypting(ratchet: RatchetError)

  function Wrap(link: Link, pkt: Packet): bytes {
    Subsequent(SubsequentMessage(pkt.hdr, link.aead.enc(pkt.box))).Marshal()
  }

  /** What a client does with one envelope from its peer. */
  function ReadEnvelope(link: Link, p: Party, envelope: bytes): (r: (Party, Result<bytes, ReadError>))
    requires p.Valid()
    ensures r.0.Valid()
  {
    var v := UnmarshalEnvelope(envelope);
    if v.Failure? then (p, Failure(Unwrapping(v.error)))
    else if v.value.Initial? then (p, Failure(NotSubsequent))
    else
      EnvelopeCodec(v.value, envelope);
      var m := v.value.subsequent;
      var (q, res) := Decrypt(p, Packet(m.header, link.aead.dec(m.ciphertext)), link.ad);
      (q, if res.Success? then Success(res.value) else Failure(Decrypting(res.error)))
  }

  /** And with all that a poll has returned, in order. */
  function ReadAll(link: Link, p: Party, msgs: seq<QueuedMessage>): (r: (Party, seq<Result<bytes, ReadError>>))
    requires p.Valid()
    ensures r.0.Valid() && |r.1| == |msgs|
    decreases |msgs|
  {
    if msgs == [] then (p, [])
    else
      var (q, res) := ReadEnvelope(link, p, msgs[0].envelope);
      var (q', rest) := ReadAll(link, q, msgs[1..]);
      (q', [res] + rest)
  }

  /** The messages of one sender; a client keeps a session for each. */
  function FromSender(msgs: seq<QueuedMessage>, sender: bytes): seq<QueuedMessage> {
    if msgs == [] then []
    else
      var rest, m := FromSender(msgs[..|msgs| - 1], sender), msgs[|msgs| - 1];
      if m.from == sender then rest + [m] else rest
  }

  // ---------------------------------------------------------------- the whole system

  /** What was written to a user by the other, and what the user has read. */
  datatype Inbox = Inbox(written: seq<bytes>, read: seq<Result<bytes, ReadError>>)

  /** Both parties, the relay, the ratchet keys in use so far, and the record of what was written and read. */
  datatype World = World(alice: Party, bob: Party, post: Post, keys: set<bytes>, toAlice: Inbox, toBob: Inbox) {
    function Get(who: Who): Party {
      if who == Alice then alice else bob
    }

    function Put(who: Who, p: Party): World {
      if who == Alice then this.(alice := p) else this.(bob := p)
    }

    function To(who: Who): Inbox {
      if who == Alice then toAlice else toBob
    }

    function PutTo(who: Who, inbox: Inbox): World {
      if who == Alice then this.(toAlice := inbox) else this.(toBob := inbox)
    }

    /** The letters between the two that the relay holds for one of them. */
    function Queue(link: Link, who: Who): seq<QueuedMessage> {
      FromSender(At(post.queues, link.Name(who)), link.Name(who.Other()))
    }
  }

  datatype Action =
    | Write(who: Who, coins: Coins, plaintext: bytes, now: int)
    | Collect(who: Who)
    | Elsewhere(ev: PostEvent)

  /** EncryptMessage, MarshalEnvelope, SendMessage. */
  ghost function WriteStep(link: Link, w: World, who: Who, c: Coins, plaintext: bytes, now: int): World
    requires w.Get(who).Valid()
  {
    var (q, r) := TryEncrypt(w.Get(who), c, plaintext, link.ad);
    if r.Failure? then w.Put(who, q)
    else
      var to, inbox := link.Name(who.Other()), w.To(who.Other());
      var post' := PostStep(w.post, PostEvent.Send(to, link.Name(who), Wrap(link, r.value), now)).0;
      w.Put(who, q).PutTo(who.Other(), inbox.(written := inbox.written + [plaintext]))
      .(post := post', keys := w.keys + {q.dhSelf})
  }

  /** PollMessages, then UnmarshalEnvelope and DecryptMessage for each letter of the peer's. */
  ghost function CollectStep(link: Link, w: World, who: Who): World
    requires w.Get(who).Valid()
  {
    var (post', polled) := PostStep(w.post, Poll(link.Name(who)));
    var (q, read) := ReadAll(link, w.Get(who), FromSender(polled.msgs, link.Name(who.Other())));
    var inbox := w.To(who);
    w.Put(who, q).PutTo(who, inbox.(read := inbox.read + read)).(post := post')
  }

  /**
   Whatever else happens at the relay: anyone may register, send, poll and purge, but nobody else sends in the name of
   one of the two to the other or polls for one of them, and no purge finds a letter between them that has expired.
   */
  predicate LeavesAlone(link: Link, w: World, ev: PostEvent) {
    match ev
    case Register(_) => true
    case Send(u, s, _, _) => !(u == link.aliceName && s == link.bobName) && !(u == link.bobName && s == link.aliceName)
    case Poll(u) => u != link.aliceName && u != link.bobName
    case Purge(now, ttl) => forall m :: m in w.Queue(link, Alice) + w.Queue(link, Bob) ==> now <= m.queuedAt + ttl
  }

  /** What is asked of the world: generated keys, counters that do not wrap, boxes that fit, everyone else as above. */
  ghost predicate MayAct(link: Link, w: World, act: Action) {
    && w.alice.Valid() && w.bob.Valid()
    && match act
       case Write(who, c, plaintext, _) =>
         var p := w.Get(who);
         && (if p.needsNewSendingChain
             then c.Generated() && c.dh !in w.keys
             else p.chainSend != Nil && p.nSend + 1 < U32)
         && link.aead.Carries(Encrypt(p, c, plaintext, link.ad).1.box)
       case Collect(_) => true
       case Elsewhere(ev) => LeavesAlone(link, w, ev)
  }

  ghost function Act(link: Link, w: World, act: Action): World
    requires MayAct(link, w, act)
  {
    match act
    case Write(who, c, plaintext, now) => WriteStep(link, w, who, c, plaintext, now)
    case Collect(who) => CollectStep(link, w, who)
    case Elsewhere(ev) => w.(post := PostStep(w.post, ev).0)
  }

  // ---------------------------------------------------------------- the invariant

  /** These are the letters on their way to `who`, in the order in which they were sealed. */
  ghost predicate OnTheWay(y: Sys, who: Who, ids: seq<LetterId>) {
    && (forall i :: 0 <= i < |ids| ==> InFlight(y, who, ids[i].0, ids[i].1))
    && (forall e: nat, n: nat :: InFlight(y, who, e, n) ==> (e, n) in ids)
    && (forall i, j :: 0 <= i < j < |ids| ==> Before(ids[i], ids[j]))
  }

  /** The letter's envelope is read back. */
  ghost predicate Readable(link: Link, l: Letter) {
    && l.ad == link.ad
    && UnmarshalEnvelope(Wrap(link, l.pkt))
       == Success(Subsequent(SubsequentMessage(l.pkt.hdr, link.aead.enc(l.pkt.box))))
    && link.aead.dec(link.aead.enc(l.pkt.box)) == l.pkt.box
  }

  /** The queue holds the envelopes of these letters. */
  ghost predicate Queued(link: Link, log: seq<Epoch>, ids: seq<LetterId>, msgs: seq<QueuedMessage>) {
    && |msgs| == |ids|
    && forall i :: 0 <= i < |ids| ==>
         && Sent(log, ids[i].0, ids[i].1) && Readable(link, log[ids[i].0].letters[ids[i].1])
         && msgs[i].envelope == Wrap(link, log[ids[i].0].letters[ids[i].1].pkt)
  }

  /** What was read is what was written, but for these letters, which are still to come. */
  ghost predicate Accounted(inbox: Inbox, log: seq<Epoch>, ids: seq<LetterId>) {
    && |inbox.written| == |inbox.read| + |ids|
    && (forall j :: 0 <= j < |inbox.read| ==> inbox.read[j] == Success(inbox.written[j]))
    && forall i :: 0 <= i < |ids| ==>
         Sent(log, ids[i].0, ids[i].1) && inbox.written[|inbox.read| + i] == log[ids[i].0].letters[ids[i].1].plaintext
  }

  ghost predicate InStep(link: Link, w: World, y: Sys, who: Who, ids: seq<LetterId>) {
    OnTheWay(y, who, ids) && Queued(link, y.log, ids, w.Queue(link, who)) && Accounted(w.To(who), y.log, ids)
  }

  /** The system is where the conversation y is; a and b are the letters on their way to Alice and to Bob. */
  ghost predicate Follows(link: Link, w: World, y: Sys, a: seq<LetterId>, b: seq<LetterId>) {
    && Reachable(y) && y.alice == w.alice && y.bob == w.bob
    && (forall i :: 0 <= i < |y.log| ==> y.log[i].dh in w.keys)
    && link.aliceName != link.bobName && link.aliceName in w.post.users && link.bobName in w.post.users
    && InStep(link, w, y, Alice, a) && InStep(link, w, y, Bob, b)
  }

  // ---------------------------------------------------------------- reading

  /** Whatever a party seals in a reachable state fits the wire, if its box does. */
  lemma SentReadable(link: Link, y: Sys, e: nat, n: nat)
    requires Reachable(y) && Sent(y.log, e, n)
    requires y.log[e].letters[n].ad == link.ad && link.aead.Carries(y.log[e].letters[n].pkt.box)
    ensures Readable(link, y.log[e].letters[n])
  {
    hide Reachable, RolesInv;
    ReachableInv(y);
    LetterFits(y.log, e, n);
    assert EpochInv(y.log, e) && LetterInv(y.log[e], n);
    var l := y.log[e].letters[n];
    assert l.pkt.hdr.Encodable() && |l.pkt.hdr.Marshal()| < U32;
    hide *;
    WrapReadable(link, l);
  }

  lemma WrapReadable(link: Link, l: Letter)
    requires l.pkt.hdr.Encodable() && |l.pkt.hdr.Marshal()| < U32 && l.ad == link.ad && link.aead.Carries(l.pkt.box)
    ensures Readable(link, l)
  {
    hide UnmarshalEnvelope, Envelope.Marshal, Header.Marshal;
    EnvelopeRoundTrip(Subsequent(SubsequentMessage(l.pkt.hdr, link.aead.enc(l.pkt.box))));
  }

  /** Reading an envelope is delivering its letter. */
  lemma ReadsLetter(link: Link, y: Sys, who: Who, e: nat, n: nat, envelope: bytes)
    requires Runnable(y) && InFlight(y, who, e, n) && Readable(link, y.log[e].letters[n])
    requires envelope == Wrap(link, y.log[e].letters[n].pkt)
    requires DeliverStep(y, e, n).1 == Success(y.log[e].letters[n].plaintext)
    ensures y.Get(who).Valid()
    ensures ReadEnvelope(link, y.Get(who), envelope)
         == (DeliverStep(y, e, n).0.Get(who), Success(y.log[e].letters[n].plaintext))
  {
    hide Decrypt, UnmarshalEnvelope, Wrap;
  }

  /** The first of the letters on their way is the earliest. */
  lemma FirstIsEarliest(y: Sys, who: Who, ids: seq<LetterId>)
    requires OnTheWay(y, who, ids) && ids != []
    ensures Earliest(y, who, ids[0].0, ids[0].1)
  {
    forall f: nat, m: nat | InFlight(y, who, f, m)
      ensures (f, m) == ids[0] || Before(ids[0], (f, m))
    {
      assert (f, m) in ids;
    }
  }

  /** One letter fewer is on its way to `who`, and none more or fewer to the other. */
  lemma FirstDelivered(y: Sys, y': Sys, who: Who, ids: seq<LetterId>)
    requires OnTheWay(y, who, ids) && ids != [] && y'.log == y.log && y'.decrypted == y.decrypted + {ids[0]}
    ensures OnTheWay(y', who, ids[1..])
  {
    forall e: nat, n: nat | InFlight(y', who, e, n)
      ensures (e, n) in ids[1..]
    {
      assert InFlight(y, who, e, n);
    }
    forall i | 0 <= i < |ids[1..]|
      ensures InFlight(y', who, ids[1..][i].0, ids[1..][i].1)
    {
      assert InFlight(y, who, ids[i + 1].0, ids[i + 1].1) && Before(ids[0], ids[i + 1]);
    }
  }

  /** The plaintexts of these letters, as they are read. */
  function Plaintexts(log: seq<Epoch>, ids: seq<LetterId>): (r: seq<Result<bytes, ReadError>>)
    requires forall i :: 0 <= i < |ids| ==> Sent(log, ids[i].0, ids[i].1)
    ensures |r| == |ids|
  {
    seq(|ids|, i requires 0 <= i < |ids| && Sent(log, ids[i].0, ids[i].1) =>
      Success(log[ids[i].0].letters[ids[i].1].plaintext))
  }

  lemma QueuedTail(link: Link, log: seq<Epoch>, ids: seq<LetterId>, msgs: seq<QueuedMessage>)
    requires Queued(link, log, ids, msgs) && ids != []
    ensures Queued(link, log, ids[1..], msgs[1..])
  {
    hide Readable, Wrap;
  }

  lemma PlaintextsTail(log: seq<Epoch>, ids: seq<LetterId>)
    requires ids != [] && forall i :: 0 <= i < |ids| ==> Sent(log, ids[i].0, ids[i].1)
    ensures forall i :: 0 <= i < |ids[1..]| ==> Sent(log, ids[1..][i].0, ids[1..][i].1)
    ensures Plaintexts(log, ids)
         == [Success(log[ids[0].0].letters[ids[0].1].plaintext)] + Plaintexts(log, ids[1..])
  {
  }

  /** Reading the letters on their way, in order: each opens, and the conversation has delivered them all. */
  lemma {:induction false} ReadsAll(link: Link, y: Sys, who: Who, ids: seq<LetterId>, msgs: seq<QueuedMessage>)
    returns (y': Sys)
    requires Reachable(y) && OnTheWay(y, who, ids) && Queued(link, y.log, ids, msgs)
    ensures Reachable(y') && y'.log == y.log && y'.Get(who.Other()) == y.Get(who.Other()) && y.Get(who).Valid()
    ensures OnTheWay(y', who, [])
    ensures forall e: nat, n: nat :: InFlight(y', who.Other(), e, n) <==> InFlight(y, who.Other(), e, n)
    ensures ReadAll(link, y.Get(who), msgs) == (y'.Get(who), Plaintexts(y.log, ids))
    decreases |ids|
  {
    hide Reachable, Runnable, Readable, Wrap, ReadEnvelope, MayDeliver, Decrypt, OnTheWay, Queued;
    ReachableInv(y);
    RunnableValid(y, who);
    y' := y;
    if ids == [] {
      QueuedLength(link, y.log, ids, msgs);
    } else {
      var (e, n) := ids[0];
      FirstIsEarliest(y, who, ids);
      EarliestOpens(y, who, e, n);
      StepReachable(y, Deliver(e, n));
      var y1 := DeliverStep(y, e, n).0;
      QueuedHead(link, y.log, ids, msgs);
      ReadsLetter(link, y, who, e, n, msgs[0].envelope);
      FirstDelivered(y, y1, who, ids);
      QueuedTail(link, y.log, ids, msgs);
      y' := ReadsAll(link, y1, who, ids[1..], msgs[1..]);
      PlaintextsTail(y.log, ids);
    }
  }

  lemma RunnableValid(y: Sys, who: Who)
    requires Runnable(y)
    ensures y.Get(who).Valid()
  {
  }

  lemma QueuedLength(link: Link, log: seq<Epoch>, ids: seq<LetterId>, msgs: seq<QueuedMessage>)
    requires Queued(link, log, ids, msgs)
    ensures |msgs| == |ids| && forall i :: 0 <= i < |ids| ==> Sent(log, ids[i].0, ids[i].1)
  {
    hide Readable, Wrap;
  }

  lemma QueuedHead(link: Link, log: seq<Epoch>, ids: seq<LetterId>, msgs: seq<QueuedMessage>)
    requires Queued(link, log, ids, msgs) && ids != []
    ensures |msgs| == |ids| && forall i :: 0 <= i < |ids| ==> Sent(log, ids[i].0, ids[i].1)
    ensures Readable(link, log[ids[0].0].letters[ids[0].1])
    ensures msgs[0].envelope == Wrap(link, log[ids[0].0].letters[ids[0].1].pkt)
  {
    hide Readable, Wrap;
  }

  // ---------------------------------------------------------------- each action keeps the two in step

  /** All that was on its way is accounted for once it was read. */
  lemma ReadAccounts(inbox: Inbox, log: seq<Epoch>, ids: seq<LetterId>)
    requires Accounted(inbox, log, ids)
    ensures Accounted(inbox.(read := inbox.read + Plaintexts(log, ids)), log, [])
  {
    var k, read := |inbox.read|, inbox.read + Plaintexts(log, ids);
    forall j | 0 <= j < |read|
      ensures read[j] == Success(inbox.written[j])
    {
      if j < k {
        assert inbox.read[j] == Success(inbox.written[j]);
      } else {
        assert inbox.written[k + (j - k)] == log[ids[j - k].0].letters[ids[j - k].1].plaintext;
      }
    }
  }

  /** In which nothing that concerns one direction changes. */
  lemma InStepFrame(link: Link, w: World, w': World, y: Sys, y': Sys, who: Who, ids: seq<LetterId>)
    requires InStep(link, w, y, who, ids) && Grown(y.log, y'.log)
    requires w'.To(who) == w.To(who) && w'.Queue(link, who) == w.Queue(link, who)
    requires forall e: nat, n: nat :: InFlight(y', who, e, n) <==> InFlight(y, who, e, n)
    ensures InStep(link, w', y', who, ids)
  {
    hide Readable, Wrap;
    forall i | 0 <= i < |ids|
      ensures InFlight(y', who, ids[i].0, ids[i].1)
    {
      assert InFlight(y, who, ids[i].0, ids[i].1);
    }
  }

  /** Collecting empties one queue and leaves the other alone. */
  lemma CollectQueues(link: Link, w: World, who: Who)
    requires w.Get(who).Valid() && link.aliceName != link.bobName
    ensures CollectStep(link, w, who).Queue(link, who) == []
    ensures CollectStep(link, w, who).Queue(link, who.Other()) == w.Queue(link, who.Other())
  {
    hide ReadAll;
  }

  lemma CollectKeeps(link: Link, w: World, y: Sys, a: seq<LetterId>, b: seq<LetterId>, who: Who, w': World)
    returns (y': Sys)
    requires Follows(link, w, y, a, b) && w.Get(who).Valid() && w' == CollectStep(link, w, who)
    ensures Follows(link, w', y', if who == Alice then [] else a, if who == Bob then [] else b)
  {
    var ids := if who == Alice then a else b;
    hide Reachable, ReadAll, Plaintexts, OnTheWay, Queued, Accounted, InFlight;
    y' := ReadsAll(link, y, who, ids, w.Queue(link, who));
    CollectQueues(link, w, who);
    ReadAccounts(w.To(who), y.log, ids);
    QueuedNone(link, y'.log);
    InStepFrame(link, w, w', y, y', who.Other(), if who == Alice then b else a);
  }

  lemma QueuedNone(link: Link, log: seq<Epoch>)
    ensures Queued(link, log, [], [])
  {
  }

  // ---------------------------------------------------------------- writing

  /** Where the next letter of a party goes. */
  function NextId(y: Sys, who: Who): LetterId
    requires |y.log| >= 2
  {
    var s := SendEpoch(y.log, who);
    if y.Get(who).needsNewSendingChain then (|y.log|, 0) else (s, |y.log[s].letters|)
  }

  /** A new letter comes after all others of its sender's, and nothing else is new. */
  lemma SendAddsOne(y: Sys, who: Who, c: Coins, plaintext: bytes, ad: bytes, y': Sys)
    requires Reachable(y) && Runnable(y) && y' == SendStep(y, who, c, plaintext, ad)
    ensures Grown(y.log, y'.log) && y'.decrypted == y.decrypted && y'.Get(who.Other()) == y.Get(who.Other())
    ensures var (e, n) := NextId(y, who);
      && Sent(y'.log, e, n) && y'.log[e].creator == who && (e, n) !in y.decrypted
      && y'.log[e].letters[n] == Letter(Encrypt(y.Get(who), c, plaintext, ad).1, plaintext, ad)
      && (forall f: nat, m: nat :: Sent(y'.log, f, m) <==> Sent(y.log, f, m) || (f, m) == (e, n))
      && (forall f: nat, m: nat :: Sent(y.log, f, m) && y.log[f].creator == who ==> Before((f, m), (e, n)))
  {
    hide Reachable, LogInv, SideInv, RolesInv, Encrypt, Prepare, Encapsulation;
    ReachableInv(y);
    var s, r := SideOf(y, who);
    DecryptedSent(y);
  }

  lemma DecryptedSent(y: Sys)
    requires Reachable(y)
    ensures forall e: nat, n: nat :: (e, n) in y.decrypted ==> Sent(y.log, e, n)
  {
    hide Reachable, LogInv, PartyInv, HeadsInv, InjectInv;
    ReachableInv(y);
    var c := y.log[|y.log| - 1].creator;
    forall e: nat, n: nat | (e, n) in y.decrypted
      ensures Sent(y.log, e, n)
    {
      assert e < |y.log| && (y.log[e].creator == c || y.log[e].creator == c.Other());
    }
  }

  /** The new letter is on its way behind the others. */
  lemma SentOnTheWay(y: Sys, who: Who, y': Sys, ids: seq<LetterId>, id: LetterId)
    requires OnTheWay(y, who.Other(), ids) && Grown(y.log, y'.log) && y'.decrypted == y.decrypted
    requires Sent(y'.log, id.0, id.1) && y'.log[id.0].creator == who && id !in y.decrypted
    requires forall f: nat, m: nat :: Sent(y'.log, f, m) <==> Sent(y.log, f, m) || (f, m) == id
    requires forall f: nat, m: nat :: Sent(y.log, f, m) && y.log[f].creator == who ==> Before((f, m), id)
    ensures OnTheWay(y', who.Other(), ids + [id])
    ensures forall e: nat, n: nat :: InFlight(y', who, e, n) <==> InFlight(y, who, e, n)
  {
    var ids' := ids + [id];
    forall e: nat, n: nat | InFlight(y', who.Other(), e, n)
      ensures (e, n) in ids'
    {
      assert (e, n) == id || InFlight(y, who.Other(), e, n);
    }
    forall i | 0 <= i < |ids'|
      ensures InFlight(y', who.Other(), ids'[i].0, ids'[i].1)
    {
      if i < |ids| { assert InFlight(y, who.Other(), ids[i].0, ids[i].1); }
    }
    forall i, j | 0 <= i < j < |ids'|
      ensures Before(ids'[i], ids'[j])
    {
      assert InFlight(y, who.Other(), ids[i].0, ids[i].1);
      assert j < |ids| ==> Before(ids[i], ids[j]);
    }
  }

  lemma SentQueued(link: Link, log: seq<Epoch>, log': seq<Epoch>, ids: seq<LetterId>, id: LetterId,
                   msgs: seq<QueuedMessage>, m: QueuedMessage)
    requires Queued(link, log, ids, msgs) && Grown(log, log')
    requires Sent(log', id.0, id.1) && Readable(link, log'[id.0].letters[id.1])
    requires m.envelope == Wrap(link, log'[id.0].letters[id.1].pkt)
    ensures Queued(link, log', ids + [id], msgs + [m])
  {
    hide Readable, Wrap;
  }

  lemma SentAccounted(inbox: Inbox, log: seq<Epoch>, log': seq<Epoch>, ids: seq<LetterId>, id: LetterId,
                      plaintext: bytes)
    requires Accounted(inbox, log, ids) && Grown(log, log')
    requires Sent(log', id.0, id.1) && log'[id.0].letters[id.1].plaintext == plaintext
    ensures Accounted(inbox.(written := inbox.written + [plaintext]), log', ids + [id])
  {
  }

  lemma FromSenderAppend(msgs: seq<QueuedMessage>, m: QueuedMessage, sender: bytes)
    ensures FromSender(msgs + [m], sender) == FromSender(msgs, sender) + (if m.from == sender then [m] else [])
  {
    assert (msgs + [m])[..|msgs|] == msgs;
  }

  /** Writing appends to one queue and leaves the other alone. */
  lemma WriteQueues(link: Link, w: World, who: Who, c: Coins, plaintext: bytes, now: int, pkt: Packet, q: Party)
    requires w.Get(who).Valid() && TryEncrypt(w.Get(who), c, plaintext, link.ad) == (q, Success(pkt))
    requires link.aliceName != link.bobName && link.Name(who.Other()) in w.post.users
    ensures var w' := WriteStep(link, w, who, c, plaintext, now);
      && w'.Queue(link, who) == w.Queue(link, who)
      && w'.Queue(link, who.Other())
         == w.Queue(link, who.Other()) + [QueuedMessage(link.Name(who), Wrap(link, pkt), now)]
      && w'.Get(who) == q && w'.Get(who.Other()) == w.Get(who.Other()) && w'.post.users == w.post.users
      && w'.keys == w.keys + {q.dhSelf} && w'.To(who) == w.To(who)
      && w'.To(who.Other()) == w.To(who.Other()).(written := w.To(who.Other()).written + [plaintext])
  {
    hide TryEncrypt, Wrap, FromSender;
    var to, m := link.Name(who.Other()), QueuedMessage(link.Name(who), Wrap(link, pkt), now);
    FromSenderAppend(At(w.post.queues, to), m, link.Name(who));
  }

  /** The conversation takes the step that a write amounts to. */
  lemma WriteSends(link: Link, w: World, y: Sys, who: Who, c: Coins, plaintext: bytes, now: int, y': Sys)
    requires Reachable(y) && w.Get(who).Valid() && y.Get(who) == w.Get(who)
    requires forall i :: 0 <= i < |y.log| ==> y.log[i].dh in w.keys
    requires MayAct(link, w, Write(who, c, plaintext, now))
    requires Runnable(y) && y' == SendStep(y, who, c, plaintext, link.ad)
    ensures Reachable(y')
    ensures y'.Get(who) == Encrypt(w.Get(who), c, plaintext, link.ad).0
    ensures forall i :: 0 <= i < |y'.log| ==> y'.log[i].dh in w.keys + {y'.Get(who).dhSelf}
  {
    hide Reachable, Encrypt, Prepare, Encapsulation, Aead.Carries;
    StepReachable(y, Event.Send(who, c, plaintext, link.ad));
    forall i | 0 <= i < |y'.log|
      ensures y'.log[i].dh in w.keys + {y'.Get(who).dhSelf}
    {
      assert i < |y.log| ==> y'.log[i].dh == y.log[i].dh;
    }
  }

  /** One more letter is on its way, to the other side. */
  lemma WriteInStep(link: Link, w: World, y: Sys, who: Who, ids: seq<LetterId>, w': World, y': Sys, id: LetterId,
                    m: QueuedMessage, plaintext: bytes)
    requires InStep(link, w, y, who.Other(), ids) && Grown(y.log, y'.log) && y'.decrypted == y.decrypted
    requires Sent(y'.log, id.0, id.1) && y'.log[id.0].creator == who && id !in y.decrypted
    requires forall f: nat, m: nat :: Sent(y'.log, f, m) <==> Sent(y.log, f, m) || (f, m) == id
    requires forall f: nat, m: nat :: Sent(y.log, f, m) && y.log[f].creator == who ==> Before((f, m), id)
    requires Readable(link, y'.log[id.0].letters[id.1]) && plaintext == y'.log[id.0].letters[id.1].plaintext
    requires m.envelope == Wrap(link, y'.log[id.0].letters[id.1].pkt)
    requires w'.Queue(link, who.Other()) == w.Queue(link, who.Other()) + [m]
    requires w'.To(who.Other()) == w.To(who.Other()).(written := w.To(who.Other()).written + [plaintext])
    ensures InStep(link, w', y', who.Other(), ids + [id])
    ensures forall e: nat, n: nat :: InFlight(y', who, e, n) <==> InFlight(y, who, e, n)
  {
    hide OnTheWay, Queued, Accounted, Readable, Wrap, Grown, InFlight;
    SentOnTheWay(y, who, y', ids, id);
    SentQueued(link, y.log, y'.log, ids, id, w.Queue(link, who.Other()), m);
    SentAccounted(w.To(who.Other()), y.log, y'.log, ids, id, plaintext);
  }

  lemma WriteKeeps(link: Link, w: World, y: Sys, a: seq<LetterId>, b: seq<LetterId>, who: Who, c: Coins,
                   plaintext: bytes, now: int, w': World)
    returns (y': Sys, id: LetterId)
    requires Follows(link, w, y, a, b) && MayAct(link, w, Write(who, c, plaintext, now))
    requires w' == WriteStep(link, w, who, c, plaintext, now)
    ensures Follows(link, w', y', if who == Bob then a + [id] else a, if who == Alice then b + [id] else b)
  {
    hide Reachable, Runnable, Encrypt, TryEncrypt, InStep, InFlight, WriteStep, Readable, Wrap, World.Queue, Before,
         SendStep;
    ReachableInv(y);
    var (q, pkt) := Encrypt(w.Get(who), c, plaintext, link.ad);
    SendsSucceed(y, who, c, plaintext, link.ad);
    WriteQueues(link, w, who, c, plaintext, now, pkt, q);
    y', id := SendStep(y, who, c, plaintext, link.ad), NextId(y, who);
    SendAddsOne(y, who, c, plaintext, link.ad, y');
    WriteSends(link, w, y, who, c, plaintext, now, y');
    SentReadable(link, y', id.0, id.1);
    var m := QueuedMessage(link.Name(who), Wrap(link, pkt), now);
    WriteInStep(link, w, y, who, if who == Alice then b else a, w', y', id, m, plaintext);
    InStepFrame(link, w, w', y, y', who, if who == Alice then a else b);
  }

  // ---------------------------------------------------------------- everyone else

  /** A purge that finds nothing expired among a sender's messages keeps them all. */
  lemma {:induction false} PurgeSpares(msgs: seq<QueuedMessage>, sender: bytes, now: int, ttl: int)
    requires forall m :: m in FromSender(msgs, sender) ==> now <= m.queuedAt + ttl
    ensures FromSender(Kept(msgs, now, ttl), sender) == FromSender(msgs, sender)
  {
    if msgs == [] {
    } else {
      var init, m := msgs[..|msgs| - 1], msgs[|msgs| - 1];
      PurgeSpares(init, sender, now, ttl);
      FromSenderAppend(Kept(init, now, ttl), m, sender);
      assert m.from == sender ==> FromSender(msgs, sender)[|FromSender(init, sender)|] == m;
    }
  }

  lemma ElsewhereQueue(link: Link, w: World, ev: PostEvent, who: Who)
    requires LeavesAlone(link, w, ev) && link.aliceName != link.bobName
    ensures w.(post := PostStep(w.post, ev).0).Queue(link, who) == w.Queue(link, who)
  {
    var u, q := link.Name(who), At(w.post.queues, link.Name(who));
    match ev
    case Register(_) =>
    case Poll(_) =>
    case Send(v, s, envelope, now) =>
      if v == u { FromSenderAppend(q, QueuedMessage(s, envelope, now), link.Name(who.Other())); }
    case Purge(now, ttl) =>
      PurgedAt(w.post.queues, now, ttl, u);
      forall m | m in w.Queue(link, who)
        ensures now <= m.queuedAt + ttl
      {
        assert m in w.Queue(link, Alice) + w.Queue(link, Bob);
      }
      PurgeSpares(q, link.Name(who.Other()), now, ttl);
  }

  lemma ElsewhereKeeps(link: Link, w: World, y: Sys, a: seq<LetterId>, b: seq<LetterId>, ev: PostEvent, w': World)
    requires Follows(link, w, y, a, b) && LeavesAlone(link, w, ev) && w' == w.(post := PostStep(w.post, ev).0)
    ensures Follows(link, w', y, a, b)
  {
    hide Reachable, OnTheWay, Queued, Accounted, LeavesAlone, World.Queue;
    ElsewhereQueue(link, w, ev, Alice);
    ElsewhereQueue(link, w, ev, Bob);
  }

  /** Every action keeps the system in step with some conversation. */
  lemma ActKeeps(link: Link, w: World, y: Sys, a: seq<LetterId>, b: seq<LetterId>, act: Action)
    returns (y': Sys, a': seq<LetterId>, b': seq<LetterId>)
    requires Follows(link, w, y, a, b) && MayAct(link, w, act)
    ensures Follows(link, Act(link, w, act), y', a', b')
    ensures act == Collect(Alice) ==> a' == []
    ensures act == Collect(Bob) ==> b' == []
  {
    hide Follows, WriteStep, CollectStep, LeavesAlone, PostStep;
    y', a', b' := y, a, b;
    match act
    case Write(who, c, plaintext, now) =>
      var id;
      y', id := WriteKeeps(link, w, y, a, b, who, c, plaintext, now, Act(link, w, act));
      a', b' := if who == Bob then a + [id] else a, if who == Alice then b + [id] else b;
    case Collect(who) =>
      y' := CollectKeeps(link, w, y, a, b, who, Act(link, w, act));
      a', b' := if who == Alice then [] else a, if who == Bob then [] else b;
    case Elsewhere(ev) => ElsewhereKeeps(link, w, y, a, b, ev, Act(link, w, act));
  }

  // ---------------------------------------------------------------- whole runs

  /** Where a conversation over the relay begins: nothing is on its way, and nothing was written or read. */
  ghost predicate Opened(link: Link, w: World, y: Sys) {
    Follows(link, w, y, [], []) && w.toAlice == w.toBob == Inbox([], [])
  }

  ghost predicate ActAt(link: Link, worlds: seq<World>, acts: seq<Action>, i: nat)
    requires i < |acts| && |worlds| == |acts| + 1
  {
    MayAct(link, worlds[i], acts[i]) && worlds[i + 1] == Act(link, worlds[i], acts[i])
  }

  ghost predicate WorldRun(link: Link, worlds: seq<World>, acts: seq<Action>, y: Sys) {
    && |worlds| == |acts| + 1 && Opened(link, worlds[0], y)
    && forall i: nat :: i < |acts| ==> ActAt(link, worlds, acts, i)
  }

  lemma {:induction false} RunFollows(link: Link, worlds: seq<World>, acts: seq<Action>, y: Sys, i: nat)
    returns (y': Sys, a: seq<LetterId>, b: seq<LetterId>)
    requires WorldRun(link, worlds, acts, y) && i <= |acts|
    ensures Follows(link, worlds[i], y', a, b)
    ensures i > 0 && acts[i - 1] == Collect(Alice) ==> a == []
    ensures i > 0 && acts[i - 1] == Collect(Bob) ==> b == []
  {
    hide Follows, MayAct, Act;
    y', a, b := y, [], [];
    if i == 0 {
    } else {
      y', a, b := RunFollows(link, worlds, acts, y, i - 1);
      assert ActAt(link, worlds, acts, i - 1);
      y', a, b := ActKeeps(link, worlds[i - 1], y', a, b, acts[i - 1]);
    }
  }

  /**
   Ratchet, wire format and relay are a reliable channel in either direction: at any point of any run, whatever the two
   write and collect and everyone else does, what a user has read is what the other has written to that user, in order
   and without a gap; what has not been read is in the relay's queue; and after collecting, nothing is missing.
   */
  lemma {:induction false} ChannelIsFifo(link: Link, worlds: seq<World>, acts: seq<Action>, y: Sys, i: nat, who: Who)
    requires WorldRun(link, worlds, acts, y) && i <= |acts|
    ensures var inbox := worlds[i].To(who);
      && |inbox.written| == |inbox.read| + |worlds[i].Queue(link, who)|
      && (forall j :: 0 <= j < |inbox.read| ==> inbox.read[j] == Success(inbox.written[j]))
      && (i > 0 && acts[i - 1] == Collect(who) ==> |inbox.read| == |inbox.written|)
  {
    hide WorldRun, Reachable, OnTheWay, Readable, Wrap, World.Queue;
    var y', a, b := RunFollows(link, worlds, acts, y, i);
  }

  /** A session that was just established is such a beginning. */
  lemma {:induction false} SessionOpens(link: Link, y: Sys, alice: Party, bob: Party, first: bytes, post: Post)
    returns (w: World)
    requires Begun(y, alice, bob, first)
    requires link.aliceName != link.bobName && link.aliceName in post.users && link.bobName in post.users
    requires FromSender(At(post.queues, link.aliceName), link.bobName) == []
    requires FromSender(At(post.queues, link.bobName), link.aliceName) == []
    ensures Opened(link, w, y) && w.alice == alice && w.bob == bob && w.post == post
  {
    hide Reachable, Readable, Wrap, RolesInv;
    ReachableInv(y);
    PrekeyChain(y.log);
    w := World(alice, bob, post, set i | 0 <= i < |y.log| :: y.log[i].dh, Inbox([], []), Inbox([], []));
  }
}
