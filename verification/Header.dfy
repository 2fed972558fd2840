/** The ratchet header and its codec (crypto/ratchet/header.go). */
module RatchetHeader {
  import opened Wrappers
  import opened Bytes

  datatype Header = Header(
    dhPub: bytes,
    pn: nat,
    n: nat,
    mlkemPub: Option<bytes>,
    mlkemCiphertext: Option<bytes>
  ) {
    /** Go ranges over a nil slice and an empty one alike. */
    static function Content(field: Option<bytes>): bytes {
      if field.Some? then field.value else []
    }

    function Marshal(): bytes {
      PutField(dhPub) + (PutU32(pn) + (PutU32(n) + (PutField(Content(mlkemPub)) + PutField(Content(mlkemCiphertext)))))
    }

    /** The headers the wire can carry: 32-bit counters and lengths, and an optional field that is set is not empty. */
    predicate Encodable() {
      && |dhPub| < U32 && pn < U32 && n < U32
      && (mlkemPub.Some? ==> 0 < |mlkemPub.value| < U32)
      && (mlkemCiphertext.Some? ==> 0 < |mlkemCiphertext.value| < U32)
    }
  }

  /** An empty field comes back as nil. */
  function NonEmpty(field: bytes): Option<bytes> {
    if |field| == 0 then None else Some(field)
  }

  function UnmarshalHeader(buf: bytes): Result<Header, CodecError> {
    var dh := ReadField(buf);
    if dh.Failure? then Failure(dh.error)
    else
      var pn := ReadU32(dh.value.1);
      if pn.Failure? then Failure(pn.error)
      else
        var n := ReadU32(pn.value.1);
        if n.Failure? then Failure(n.error)
        else
          var pub := ReadField(n.value.1);
          if pub.Failure? then Failure(pub.error)
          else
            var ct := ReadField(pub.value.1);
            if ct.Failure? then Failure(ct.error)
            else if |ct.value.1| != 0 then Failure(TrailingBytes)
            else Success(Header(dh.value.0, pn.value.0, n.value.0, NonEmpty(pub.value.0), NonEmpty(ct.value.0)))
  }

  /** The two trailing optional fields alone. */
  lemma ReadOptionalFields(pub: bytes, ct: bytes)
    requires |pub| < U32 && |ct| < U32
    ensures ReadField(PutField(pub) + PutField(ct)) == Success((pub, PutField(ct)))
    ensures ReadField(PutField(ct)) == Success((ct, []))
  {
    ReadPutField(pub, PutField(ct));
    ReadPutField(ct, []);
    assert PutField(ct) + [] == PutField(ct);
  }

  lemma UnmarshalInvertsMarshal(h: Header)
    requires h.Encodable()
    ensures UnmarshalHeader(h.Marshal()) == Success(h)
  {
    var pub, ct := Header.Content(h.mlkemPub), Header.Content(h.mlkemCiphertext);
    var r3 := PutField(pub) + PutField(ct);
    var r2 := PutU32(h.n) + r3;
    var r1 := PutU32(h.pn) + r2;
    ReadPutField(h.dhPub, r1);
    ReadPutU32(h.pn, r2);
    ReadPutU32(h.n, r3);
    ReadOptionalFields(pub, ct);
  }

  lemma MarshalInvertsUnmarshal(buf: bytes)
    requires UnmarshalHeader(buf).Success?
    ensures UnmarshalHeader(buf).value.Encodable()
    ensures UnmarshalHeader(buf).value.Marshal() == buf
  {
    var (dh, b1) := ReadField(buf).value;
    var (pn, b2) := ReadU32(b1).value;
    var (n, b3) := ReadU32(b2).value;
    var (pub, b4) := ReadField(b3).value;
    var (ct, b5) := ReadField(b4).value;
    PutReadField(buf);
    PutReadU32(b1);
    PutReadU32(b2);
    PutReadField(b3);
    PutReadField(b4);
    assert b5 == [];
    assert b4 == PutField(ct);
  }

  /** The header codec is a bijection between the encodable headers and the accepted buffers. */
  lemma {:induction false} HeaderCodec(h: Header, buf: bytes)
    ensures UnmarshalHeader(buf) == Success(h) <==> h.Encodable() && h.Marshal() == buf
  {
    if UnmarshalHeader(buf) == Success(h) { MarshalInvertsUnmarshal(buf); }
    if h.Encodable() && h.Marshal() == buf { UnmarshalInvertsMarshal(h); }
  }
}
