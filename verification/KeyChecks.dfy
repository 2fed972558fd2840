/** What Go's crypto/ecdh and the ML-KEM library refuse about a public key of the right length. */
module KeyChecks {
  import opened Bytes

  const P25519: int := 0x7fff_ffff_ffff_ffff_ffff_ffff_ffff_ffff_ffff_ffff_ffff_ffff_ffff_ffff_ffff_ffed

  /** The coordinates below 2^255, P25519 and its successor among them, whose exchanges yield the all-zero secret. */
  const SMALL_ORDER: set<int> := {0, 1, P25519 - 1, P25519, P25519 + 1, ORDER_8A, ORDER_8B}

  const ORDER_8A: int := 0x00b8_495f_1605_6286_fdb1_329c_eb8d_09da_6ac4_9ff1_fae3_5616_aeb8_413b_7c7a_ebe0
  const ORDER_8B: int := 0x5711_9fd0_dd4e_22d8_868e_1c58_c45c_4404_5bef_839c_55b1_d0b1_248c_50a3_bc95_9c5f

  /** Doubling on Curve25519, (u^2 - 1)^2 / 4u(u^2 + 486662u + 1), takes u to the coordinate w. */
  predicate DoublesTo(u: int, w: int) {
    ((u * u - 1) * (u * u - 1) - 4 * w * u * (u * u + 486662 * u + 1)) % P25519 == 0
  }

  /**
   What makes them small: each is 0, the point of order two, or doubles to 0, or doubles to 1, which doubles to 0
   itself; so eight times any of them is no point at all.
   */
  lemma {:induction false} SmallOrderDoubles(u: int)
    requires u in SMALL_ORDER
    ensures u % P25519 == 0 || DoublesTo(u, 0) || DoublesTo(u, 1)
    ensures DoublesTo(1, 0)
  {
    OneDoubles();
    Order8ADoubles();
    Order8BDoubles();
    hide DoublesTo;
  }

  lemma OneDoubles()
    ensures DoublesTo(1, 0) && DoublesTo(P25519 - 1, 0) && DoublesTo(P25519 + 1, 0)
  {
  }

  lemma Order8ADoubles()
    ensures DoublesTo(ORDER_8A, 1)
  {
  }

  lemma Order8BDoubles()
    ensures DoublesTo(ORDER_8B, 1)
  {
  }

  /** The little-endian number of a key, without the highest bit (section 5 of RFC 7748). */
  function Coordinate(b: bytes): (n: nat) {
    if b == [] then 0
    else if |b| == 1 then b[0] as int % 0x80
    else b[0] as int + 0x100 * Coordinate(b[1..])
  }

  /** The highest bit of a key makes no difference. */
  lemma {:induction false} TopBitIgnored(b: bytes, x: byte)
    ensures Coordinate(b + [x]) == Coordinate(b + [(x as int % 0x80) as byte])
  {
    var y := (x as int % 0x80) as byte;
    if b == [] {
    } else {
      assert (b + [x])[1..] == b[1..] + [x] && (b + [y])[1..] == b[1..] + [y];
      TopBitIgnored(b[1..], x);
    }
  }

  /** ECDH returns an error for these keys (section 6.1 of RFC 7748). */
  predicate LowOrder(pub: bytes) {
    Coordinate(pub) in SMALL_ORDER
  }

  const MLKEM_Q := 3329
  const MLKEM_TRIPLES := 384

  /** Three bytes hold two coefficients of twelve bits each. */
  predicate Reduced(a: byte, b: byte, c: byte) {
    a as int + 0x100 * (b as int % 16) < MLKEM_Q && b as int / 16 + 16 * c as int < MLKEM_Q
  }

  /** The modulus check of section 7.2 of FIPS 203, which Unpack makes on an encapsulation key. */
  predicate Normalised(mlkem: bytes) {
    && |mlkem| >= 3 * MLKEM_TRIPLES
    && forall i :: 0 <= i < MLKEM_TRIPLES ==> Reduced(mlkem[3 * i], mlkem[3 * i + 1], mlkem[3 * i + 2])
  }

  /** The three bytes are one little-endian number of 24 bits, and each half of it must be below 3329. */
  lemma {:induction false} ReducedExactly(a: byte, b: byte, c: byte)
    ensures var n := a as int + 0x100 * b as int + 0x1_0000 * c as int;
      Reduced(a, b, c) <==> n % 0x1000 < 3329 && n / 0x1000 < 3329
  {
    var low, high := b as int % 16, b as int / 16;
    Divided(a as int + 0x100 * b as int + 0x1_0000 * c as int, 0x1000, high + 16 * c as int, a as int + 0x100 * low);
  }

  /** The key whose first byte is 1 and whose others are 0 is refused, with the highest bit set or not. */
  lemma {:induction false} OneIsRefused()
    ensures var zeros: bytes := seq(30, _ => 0); LowOrder([1] + (zeros + [0])) && LowOrder([1] + (zeros + [128]))
  {
    var zeros: bytes := seq(30, _ => 0);
    TopBitIgnored(zeros, 128);
    ZeroCoordinate(zeros + [0]);
    assert ([1] + (zeros + [0]))[1..] == zeros + [0] && ([1] + (zeros + [128]))[1..] == zeros + [128];
  }

  function BasePoint(): (pub: bytes)
    ensures |pub| == 32 && !LowOrder(pub)
  {
    var zeros: bytes := seq(31, _ => 0);
    ZeroCoordinate(zeros);
    assert ([9] + zeros)[1..] == zeros;
    [9] + zeros
  }

  lemma {:induction false} ZeroCoordinate(zeros: bytes)
    requires forall i :: 0 <= i < |zeros| ==> zeros[i] == 0
    ensures Coordinate(zeros) == 0
  {
    if |zeros| <= 1 {
    } else {
      ZeroCoordinate(zeros[1..]);
    }
  }
}
