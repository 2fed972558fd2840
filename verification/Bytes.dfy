/** Byte strings and the big-endian, length-prefixed fields that every codec of the library is built from. */
module Bytes {
  import opened Wrappers

  newtype byte = x: int | 0 <= x < 0x100

  type bytes = seq<byte>

  /** One more than the largest uint32. */
  const U32: int := 0x1_0000_0000

  datatype CodecError =
    | Truncated          // fewer than four bytes where a length or a number should be
    | TruncatedBody      // a length prefix that promises more bytes than there are
    | TrailingBytes
    | BadLength          // a fixed-size key or ciphertext of another size
    | NotNormalised      // an ML-KEM public key that fails the modulus check
    | EmptyEnvelope
    | UnknownEnvelopeType

  /** How many bytes a uint32 takes. */
  const WORD: nat := 4

  /** The low `width` base-256 digits of n, highest first. */
  function BigEndian(n: int, width: nat): (b: bytes)
    ensures |b| == width
    decreases width
  {
    if width == 0 then [] else BigEndian(n / 0x100, width - 1) + [(n % 0x100) as byte]
  }

  /** binary.BigEndian.AppendUint32(nil, uint32(n)): the conversion keeps the low 32 bits. */
  function PutU32(n: int): (b: bytes)
    ensures |b| == 4
  {
    BigEndian(n, WORD)
  }

  lemma PutU32Digits(n: int)
    ensures PutU32(n) == [(n / 0x100 / 0x100 / 0x100 % 0x100) as byte, (n / 0x100 / 0x100 % 0x100) as byte,
                          (n / 0x100 % 0x100) as byte, (n % 0x100) as byte]
  {
    var p, q, r := n / 0x100, n / 0x100 / 0x100, n / 0x100 / 0x100 / 0x100;
    assert BigEndian(r, 1) == BigEndian(r / 0x100, 0) + [(r % 0x100) as byte];
    assert BigEndian(q, 2) == BigEndian(r, 1) + [(q % 0x100) as byte];
    assert BigEndian(p, 3) == BigEndian(q, 2) + [(p % 0x100) as byte];
    assert BigEndian(n, 4) == BigEndian(p, 3) + [(n % 0x100) as byte];
  }

  /** binary.BigEndian.Uint32(b). */
  function GetU32(b: bytes): (n: nat)
    requires |b| >= 4
    ensures n < U32
  {
    b[0] as int * 0x100_0000 + b[1] as int * 0x1_0000 + b[2] as int * 0x100 + b[3] as int
  }

  /** The quotient and remainder are determined by the division equation. */
  lemma Divided(n: int, d: int, q: int, r: int)
    requires d > 0 && n == q * d + r && 0 <= r < d
    ensures n / d == q && n % d == r
  {
    var k := n / d - q;
    assert n == (n / d) * d + n % d;
    assert k * d == r - n % d;
    assert k >= 1 ==> k * d >= d;
    assert k <= -1 ==> k * d <= -d;
  }

  /** The base-256 digits of n, lowest first, and what is left above them. */
  lemma Digits(n: int) returns (a: int, b: int, c: int, d: int, e: int)
    ensures n == a + 0x100 * b + 0x1_0000 * c + 0x100_0000 * d + U32 * e
    ensures 0 <= a < 0x100 && 0 <= b < 0x100 && 0 <= c < 0x100 && 0 <= d < 0x100
  {
    var p, q, r := n / 0x100, n / 0x100 / 0x100, n / 0x100 / 0x100 / 0x100;
    a, b, c, d, e := n % 0x100, p % 0x100, q % 0x100, r % 0x100, r / 0x100;
  }

  lemma GetPutU32(n: int)
    ensures GetU32(PutU32(n)) == n % U32
  {
    var a, b, c, d, e := Digits(n);
    var q1, q2, q3 := b + 0x100 * c + 0x1_0000 * d + 0x100_0000 * e, c + 0x100 * d + 0x1_0000 * e, d + 0x100 * e;
    Divided(n, 0x100, q1, a);
    Divided(q1, 0x100, q2, b);
    Divided(q2, 0x100, q3, c);
    Divided(q3, 0x100, e, d);
    Divided(n, U32, e, a + 0x100 * b + 0x1_0000 * c + 0x100_0000 * d);
    PutU32Digits(n);
  }

  lemma PutGetU32(b: bytes)
    requires |b| >= 4
    ensures PutU32(GetU32(b)) == b[..4]
  {
    var n := GetU32(b);
    Divided(n, 0x100, b[0] as int * 0x1_0000 + b[1] as int * 0x100 + b[2] as int, b[3] as int);
    Divided(n / 0x100, 0x100, b[0] as int * 0x100 + b[1] as int, b[2] as int);
    Divided(n / 0x100 / 0x100, 0x100, b[0] as int, b[1] as int);
    PutU32Digits(n);
  }

  /** Two numbers have the same 32-bit encoding exactly when they agree modulo 2^32. */
  lemma {:induction false} PutU32Injective(m: int, n: int)
    ensures PutU32(m) == PutU32(n) <==> m % U32 == n % U32
  {
    GetPutU32(m);
    GetPutU32(n);
    PutGetU32(PutU32(m));
    PutGetU32(PutU32(n));
    assert PutU32(m)[..4] == PutU32(m) && PutU32(n)[..4] == PutU32(n);
    hide *;
  }

  /** binary.BigEndian.AppendUint64(nil, uint64(n)). */
  function PutU64(n: int): (b: bytes)
    ensures |b| == 8
  {
    PutU32(n / U32) + PutU32(n)
  }

  const U64: int := 0x1_0000_0000_0000_0000

  /** A number modulo 2^64 is its two halves. */
  lemma Halves(n: int)
    ensures n % U64 == (n / U32 % U32) * U32 + n % U32
  {
    var q, r := n / U32, n % U32;
    Divided(n, U64, q / U32, (q % U32) * U32 + r);
  }

  /** Two numbers have the same 64-bit encoding exactly when they agree modulo 2^64. */
  lemma {:induction false} PutU64Injective(m: int, n: int)
    ensures PutU64(m) == PutU64(n) <==> m % U64 == n % U64
  {
    Halves(m);
    Halves(n);
    PutU32Injective(m / U32, n / U32);
    PutU32Injective(m, n);
    var a, b, c, d := PutU32(m / U32), PutU32(m), PutU32(n / U32), PutU32(n);
    if a + b == c + d { ConcatInjective(a, b, c, d); }
    hide PutU32;
    var p, q, r, s := m / U32 % U32, m % U32, n / U32 % U32, n % U32;
    assert p * U32 + q == r * U32 + s ==> p == r && q == s;
  }

  /** appendBytes and appendLenPrefixed: a 32-bit length, then the data. */
  function PutField(data: bytes): (b: bytes)
    ensures |b| == 4 + |data|
  {
    PutU32(|data|) + data
  }

  /** readUint32: the number and what is left of the buffer. */
  function ReadU32(buf: bytes): Result<(nat, bytes), CodecError> {
    if |buf| < 4 then Failure(Truncated) else Success((GetU32(buf), buf[4..]))
  }

  /** readBytes and readLenPrefixed: the field and what is left of the buffer. */
  function ReadField(buf: bytes): Result<(bytes, bytes), CodecError> {
    if |buf| < 4 then Failure(Truncated)
    else
      var n, rest := GetU32(buf), buf[4..];
      if |rest| < n then Failure(TruncatedBody) else Success((rest[..n], rest[n..]))
  }

  lemma ReadPutU32(n: int, rest: bytes)
    ensures ReadU32(PutU32(n) + rest) == Success((n % U32, rest))
    ensures 0 <= n < U32 ==> ReadU32(PutU32(n) + rest) == Success((n, rest))
  {
    GetPutU32(n);
    assert 0 <= n < U32 ==> n % U32 == n;
    var buf := PutU32(n) + rest;
    assert buf[..4] == PutU32(n) && buf[4..] == rest;
    assert GetU32(buf) == GetU32(buf[..4]);
  }

  lemma {:induction false} ReadPutField(data: bytes, rest: bytes)
    requires |data| < U32
    ensures ReadField(PutField(data) + rest) == Success((data, rest))
  {
    ReadPutU32(|data|, data + rest);
    assert PutField(data) + rest == PutU32(|data|) + (data + rest);
    assert (data + rest)[..|data|] == data && (data + rest)[|data|..] == rest;
  }

  /** Whatever ReadU32 accepts, writing it again gives the same bytes. */
  lemma PutReadU32(buf: bytes)
    requires ReadU32(buf).Success?
    ensures var (n, rest) := ReadU32(buf).value; n < U32 && buf == PutU32(n) + rest
  {
    PutGetU32(buf);
  }

  /** Whatever ReadField accepts, writing it again gives the same bytes. */
  lemma {:induction false} PutReadField(buf: bytes)
    requires ReadField(buf).Success?
    ensures var (data, rest) := ReadField(buf).value; |data| < U32 && buf == PutField(data) + rest
  {
    PutGetU32(buf);
    var (data, rest) := ReadField(buf).value;
    assert buf == buf[..4] + buf[4..];
    assert buf[4..] == data + rest;
  }

  /** Equal concatenations with equally long heads have equal heads and equal tails. */
  lemma ConcatInjective<T>(a: seq<T>, b: seq<T>, c: seq<T>, d: seq<T>)
    requires a + b == c + d && |a| == |c|
    ensures a == c && b == d
  {
    assert a == (a + b)[..|a|] && c == (c + d)[..|c|];
    assert b == (a + b)[|a|..] && d == (c + d)[|c|..];
  }
}
