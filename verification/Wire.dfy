/** The wire encoding of session messages (crypto/session/wire.go): what the relay stores and forwards. */
module Wire {
  import opened Wrappers
  import opened Bytes
  import opened RatchetHeader
  import opened Identity
  import opened KemHybrid
  import opened Ratchet

  const ENVELOPE_INITIAL: byte := 1
  const ENVELOPE_SUBSEQUENT: byte := 2

  // ---------------------------------------------------------------- header and ciphertext

  datatype SubsequentMessage = SubsequentMessage(header: Header, ciphertext: bytes) {
    function Marshal(): bytes {
      PutField(header.Marshal()) + PutField(ciphertext)
    }

    /** What fits the wire: lengths and counters below 2^32, and no optional field that is set but empty. */
    predicate Encodable() {
      header.Encodable() && |header.Marshal()| < U32 && |ciphertext| < U32
    }
  }

  /** UnmarshalSubsequentMessage, and the end of UnmarshalInitialMessage. */
  function UnmarshalSubsequent(buf: bytes): Result<SubsequentMessage, CodecError> {
    var h := ReadField(buf);
    if h.Failure? then Failure(h.error)
    else
      var hdr := UnmarshalHeader(h.value.0);
      if hdr.Failure? then Failure(hdr.error)
      else
        var c := ReadField(h.value.1);
        if c.Failure? then Failure(c.error)
        else if |c.value.1| != 0 then Failure(TrailingBytes)
        else Success(SubsequentMessage(hdr.value, c.value.0))
  }

  /** Subsequent messages that fit the wire and accepted buffers correspond one to one. */
  lemma {:induction false} SubsequentCodec(m: SubsequentMessage, buf: bytes)
    ensures UnmarshalSubsequent(buf) == Success(m) <==> m.Encodable() && m.Marshal() == buf
  {
    hide UnmarshalHeader, Header.Marshal, Header.Encodable;
    if UnmarshalSubsequent(buf) == Success(m) {
      var (h, rest) := ReadField(buf).value;
      PutReadField(buf);
      PutReadField(rest);
      HeaderCodec(m.header, h);
      assert rest == PutField(m.ciphertext) + [];
    }
    if m.Encodable() && m.Marshal() == buf {
      ReadPutField(m.header.Marshal(), PutField(m.ciphertext));
      ReadPutField(m.ciphertext, []);
      assert PutField(m.ciphertext) + [] == PutField(m.ciphertext);
      HeaderCodec(m.header, m.header.Marshal());
    }
  }

  // ---------------------------------------------------------------- initial messages

  datatype InitialMessage = InitialMessage(
    senderIdentity: PublicKey,
    kemCiphertext: KemCiphertext,
    prekeyIndex: int,
    isLastResort: bool,
    header: Header,
    ciphertext: bytes
  ) {
    function Rest(): SubsequentMessage {
      SubsequentMessage(header, ciphertext)
    }

    function Flag(): byte {
      if isLastResort then 1 else 0
    }

    function Marshal(): bytes {
      PutField(senderIdentity.Marshal())
      + (PutField(kemCiphertext.Marshal()) + (PutU32(prekeyIndex) + ([Flag()] + Rest().Marshal())))
    }

    predicate Encodable() {
      Rest().Encodable() && 0 <= prekeyIndex < U32 && |kemCiphertext.mlkem| == MLKEM_CIPHERTEXT_SIZE
    }
  }

  function UnmarshalIdentity(buf: bytes): Result<PublicKey, CodecError> {
    if |buf| != MARSHALLED_SIZE then Failure(BadLength)
    else Success(RawPublicKey(buf[..ED25519_SIZE], buf[ED25519_SIZE..]))
  }

  function UnmarshalInitial(buf: bytes): Result<InitialMessage, CodecError> {
    var id := ReadField(buf);
    if id.Failure? then Failure(id.error)
    else
      var sender := UnmarshalIdentity(id.value.0);
      if sender.Failure? then Failure(sender.error)
      else
        var c := ReadField(id.value.1);
        if c.Failure? then Failure(c.error)
        else
          var ct := UnmarshalCiphertext(c.value.0);
          if ct.Failure? then Failure(ct.error)
          else
            var index := ReadU32(c.value.1);
            if index.Failure? then Failure(index.error)
            else if |index.value.1| < 1 then Failure(Truncated)
            else
              var rest := UnmarshalSubsequent(index.value.1[1..]);
              if rest.Failure? then Failure(rest.error)
              else
                Success(InitialMessage(sender.value, ct.value, index.value.0, index.value.1[0] != 0,
                                       rest.value.header, rest.value.ciphertext))
  }

  lemma {:induction false} IdentityCodec(k: PublicKey, buf: bytes)
    ensures UnmarshalIdentity(buf) == Success(k) <==> k.Marshal() == buf
  {
    if k.Marshal() == buf {
      assert buf[..ED25519_SIZE] == k.ed25519 && buf[ED25519_SIZE..] == k.mldsa;
    }
    if UnmarshalIdentity(buf) == Success(k) {
      assert buf == buf[..ED25519_SIZE] + buf[ED25519_SIZE..];
    }
  }

  /**
   Where the last-resort flag stands in an initial message: behind two prefixed fields of fixed size and the index.
   */
  const FLAG_AT := 4 + MARSHALLED_SIZE + 4 + CIPHERTEXT_SIZE + 4

  /** Any flag byte but 0 is read as 1. */
  function Normal(buf: bytes): bytes {
    if |buf| > FLAG_AT then buf[FLAG_AT := if buf[FLAG_AT] == 0 then 0 else 1] else buf
  }

  /** The three fields before the flag. */
  function Prefix(m: InitialMessage): (p: bytes)
    ensures |m.kemCiphertext.mlkem| == MLKEM_CIPHERTEXT_SIZE ==> |p| == FLAG_AT
  {
    PutField(m.senderIdentity.Marshal()) + (PutField(m.kemCiphertext.Marshal()) + PutU32(m.prekeyIndex))
  }

  lemma MarshalSplit(m: InitialMessage)
    ensures m.Marshal() == Prefix(m) + ([m.Flag()] + m.Rest().Marshal())
  {
    hide SubsequentMessage.Marshal, PutField, PutU32;
    var a, b, c, d := PutField(m.senderIdentity.Marshal()), PutField(m.kemCiphertext.Marshal()), PutU32(m.prekeyIndex),
                      [m.Flag()] + m.Rest().Marshal();
    assert a + (b + (c + d)) == (a + (b + c)) + d;
  }

  lemma NormalSplit(prefix: bytes, flag: byte, rest: bytes)
    requires |prefix| == FLAG_AT
    ensures Normal(prefix + ([flag] + rest)) == prefix + ([if flag == 0 then 0 else 1] + rest)
  {
  }

  /** What UnmarshalInitial accepts starts with the fields it returns. */
  lemma InitialPrefix(buf: bytes) returns (flag: byte, rest: bytes)
    requires UnmarshalInitial(buf).Success?
    ensures var m := UnmarshalInitial(buf).value;
      && buf == Prefix(m) + ([flag] + rest) && UnmarshalSubsequent(rest) == Success(m.Rest())
      && m.isLastResort == (flag != 0) && 0 <= m.prekeyIndex < U32 && |m.kemCiphertext.mlkem| == MLKEM_CIPHERTEXT_SIZE
  {
    hide UnmarshalSubsequent, PutU32, GetU32;
    var (id, b1) := ReadField(buf).value;
    var (ct, b2) := ReadField(b1).value;
    var (index, b3) := ReadU32(b2).value;
    var m := UnmarshalInitial(buf).value;
    flag, rest := b3[0], b3[1..];
    PutReadField(buf);
    PutReadField(b1);
    PutReadU32(b2);
    IdentityCodec(m.senderIdentity, id);
    CiphertextCodec(m.kemCiphertext, ct);
    assert b3 == [flag] + rest;
    SplitFour(PutField(id), PutField(ct), PutU32(index), b3);
  }

  lemma SplitFour(a: bytes, b: bytes, c: bytes, d: bytes)
    ensures a + (b + (c + d)) == (a + (b + c)) + d
  {
  }

  /** Behind a message's prefix, any flag byte that says what the message says leads to the message. */
  lemma ReadsInitial(m: InitialMessage, flag: byte)
    requires m.Encodable() && m.isLastResort == (flag != 0)
    ensures UnmarshalInitial(Prefix(m) + ([flag] + m.Rest().Marshal())) == Success(m)
  {
    hide UnmarshalSubsequent, SubsequentMessage.Marshal, SubsequentMessage.Encodable, PutU32, GetU32, ReadU32,
         ReadField, PutField, UnmarshalCiphertext, UnmarshalIdentity;
    var d := [flag] + m.Rest().Marshal();
    var c := PutU32(m.prekeyIndex) + d;
    SplitFour(PutField(m.senderIdentity.Marshal()), PutField(m.kemCiphertext.Marshal()), PutU32(m.prekeyIndex), d);
    ReadPutField(m.senderIdentity.Marshal(), PutField(m.kemCiphertext.Marshal()) + c);
    ReadPutField(m.kemCiphertext.Marshal(), c);
    ReadPutU32(m.prekeyIndex, d);
    IdentityCodec(m.senderIdentity, m.senderIdentity.Marshal());
    CiphertextCodec(m.kemCiphertext, m.kemCiphertext.Marshal());
    SubsequentCodec(m.Rest(), m.Rest().Marshal());
    assert d[1..] == m.Rest().Marshal();
  }

  /** A buffer that normalises to a message's encoding is that encoding but for the flag byte. */
  lemma NormalPrefix(m: InitialMessage, buf: bytes) returns (flag: byte)
    requires m.Encodable() && m.Marshal() == Normal(buf)
    ensures buf == Prefix(m) + ([flag] + m.Rest().Marshal()) && m.isLastResort == (flag != 0)
  {
    hide SubsequentMessage.Marshal, SubsequentMessage.Encodable, Prefix;
    MarshalSplit(m);
    hide InitialMessage.Marshal;
    assert |Normal(buf)| == |buf|;
    var p, r := buf[..FLAG_AT], buf[FLAG_AT + 1..];
    flag := buf[FLAG_AT];
    assert buf == p + ([flag] + r);
    NormalSplit(p, flag, r);
    hide Normal;
    var bit: byte := if flag == 0 then 0 else 1;
    ConcatInjective(Prefix(m), [m.Flag()] + m.Rest().Marshal(), p, [bit] + r);
    ConcatInjective([m.Flag()], m.Rest().Marshal(), [bit], r);
    assert [m.Flag()][0] == [bit][0];
  }

  /** An initial message is read from exactly the buffers that are its own encoding up to the value of a set flag. */
  lemma {:induction false} InitialCodec(m: InitialMessage, buf: bytes)
    ensures UnmarshalInitial(buf) == Success(m) <==> m.Encodable() && m.Marshal() == Normal(buf)
  {
    hide UnmarshalInitial, UnmarshalSubsequent, SubsequentMessage.Marshal, SubsequentMessage.Encodable,
         InitialMessage.Marshal, Normal;
    if UnmarshalInitial(buf) == Success(m) {
      var flag, rest := InitialPrefix(buf);
      SubsequentCodec(m.Rest(), rest);
      NormalSplit(Prefix(m), flag, rest);
      MarshalSplit(m);
    }
    if m.Encodable() && m.Marshal() == Normal(buf) {
      var flag := NormalPrefix(m, buf);
      ReadsInitial(m, flag);
    }
  }

  /** A message's own encoding is normal. */
  lemma MarshalNormal(m: InitialMessage)
    requires m.Encodable()
    ensures Normal(m.Marshal()) == m.Marshal()
  {
    hide SubsequentMessage.Marshal, SubsequentMessage.Encodable, InitialMessage.Marshal, Normal;
    MarshalSplit(m);
    NormalSplit(Prefix(m), m.Flag(), m.Rest().Marshal());
  }

  // ---------------------------------------------------------------- envelopes

  datatype Envelope = Initial(initial: InitialMessage) | Subsequent(subsequent: SubsequentMessage) {
    /** MarshalEnvelope of either kind of message. */
    function Marshal(): bytes {
      match this
      case Initial(m) => [ENVELOPE_INITIAL] + m.Marshal()
      case Subsequent(m) => [ENVELOPE_SUBSEQUENT] + m.Marshal()
    }

    predicate Encodable() {
      match this
      case Initial(m) => m.Encodable()
      case Subsequent(m) => m.Encodable()
    }
  }

  function UnmarshalEnvelope(buf: bytes): Result<Envelope, CodecError> {
    if |buf| == 0 then Failure(EmptyEnvelope)
    else if buf[0] == ENVELOPE_INITIAL then
      var m := UnmarshalInitial(buf[1..]);
      if m.Failure? then Failure(m.error) else Success(Initial(m.value))
    else if buf[0] == ENVELOPE_SUBSEQUENT then
      var m := UnmarshalSubsequent(buf[1..]);
      if m.Failure? then Failure(m.error) else Success(Subsequent(m.value))
    else Failure(UnknownEnvelopeType)
  }

  function NormalEnvelope(buf: bytes): bytes {
    if |buf| > 0 && buf[0] == ENVELOPE_INITIAL then [ENVELOPE_INITIAL] + Normal(buf[1..]) else buf
  }

  /**
   An envelope is read from exactly the buffers that are its own encoding, up to the value of a set last-resort flag.
   */
  lemma {:induction false} EnvelopeCodec(v: Envelope, buf: bytes)
    ensures UnmarshalEnvelope(buf) == Success(v) <==> v.Encodable() && v.Marshal() == NormalEnvelope(buf)
  {
    hide UnmarshalInitial, UnmarshalSubsequent, SubsequentMessage.Marshal, SubsequentMessage.Encodable,
         InitialMessage.Marshal, InitialMessage.Encodable, Normal;
    if |buf| > 0 {
      if v.Initial? { InitialCodec(v.initial, buf[1..]); } else { SubsequentCodec(v.subsequent, buf[1..]); }
      assert buf == [buf[0]] + buf[1..];
      assert v.Marshal()[1..] == if v.Initial? then v.initial.Marshal() else v.subsequent.Marshal();
      assert NormalEnvelope(buf)[1..] == if buf[0] == ENVELOPE_INITIAL then Normal(buf[1..]) else buf[1..];
    }
  }

  /** UnmarshalEnvelope inverts both MarshalEnvelopes. */
  lemma {:induction false} EnvelopeRoundTrip(v: Envelope)
    requires v.Encodable()
    ensures UnmarshalEnvelope(v.Marshal()) == Success(v)
  {
    hide UnmarshalInitial, UnmarshalSubsequent, SubsequentMessage.Marshal, SubsequentMessage.Encodable,
         InitialMessage.Marshal, InitialMessage.Encodable, Normal, UnmarshalEnvelope;
    EnvelopeCodec(v, v.Marshal());
    if v.Initial? {
      MarshalNormal(v.initial);
      assert v.Marshal()[1..] == v.initial.Marshal();
    }
  }
}
