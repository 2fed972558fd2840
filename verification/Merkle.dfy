/**
 The padded Merkle tree shared by the prekey batches and the transparency log (crypto/merkle/merkle.go).

 The hash is an arbitrary function. What would need collision resistance is stated as extraction instead: a computable
 function yields, from what contradicts the claim, two different inputs with the same hash.
 */
module Merkle {
  import opened Wrappers
  import opened Bytes

  const HASH_SIZE := 32

  datatype Digest = Digest(raw: bytes)

  const ZERO := Digest(seq(32, _ => 0))

  type Hash = h: Digest | |h.raw| == HASH_SIZE witness ZERO

  /** An arbitrary hash function, such as SHA-256. */
  datatype HashFn = HashFn(f: bytes -> Hash) {
    function Of(input: bytes): Hash {
      f(input)
    }
  }

  /** The largest n whose next power of two is an int64. */
  const MAX_LEAVES: int := 0x4000_0000_0000_0000

  // ---------------------------------------------------------------- hashing

  function LeafInput(data: bytes): bytes {
    [0] + data
  }

  function NodeInput(left: Hash, right: Hash): bytes {
    [1] + left.raw + right.raw
  }

  function LeafHash(h: HashFn, data: bytes): Hash {
    h.Of(LeafInput(data))
  }

  function NodeHash(h: HashFn, left: Hash, right: Hash): Hash {
    h.Of(NodeInput(left, right))
  }

  predicate Collision(h: HashFn, pair: (bytes, bytes)) {
    pair.0 != pair.1 && h.Of(pair.0) == h.Of(pair.1)
  }

  lemma LeafInputInjective(a: bytes, b: bytes)
    requires LeafInput(a) == LeafInput(b)
    ensures a == b
  {
    ConcatInjective([0], a, [0], b);
  }

  lemma NodeInputInjective(a: Hash, b: Hash, c: Hash, d: Hash)
    requires NodeInput(a, b) == NodeInput(c, d)
    ensures a == c && b == d
  {
    ConcatInjective([1 as byte] + a.raw, b.raw, [1] + c.raw, d.raw);
    ConcatInjective([1], a.raw, [1], c.raw);
  }

  /** Domain separation: a leaf and an inner node are never hashed from the same input. */
  lemma {:induction false} LeafIsNoNode(data: bytes, left: Hash, right: Hash)
    ensures LeafInput(data) != NodeInput(left, right)
  {
    assert LeafInput(data)[0] == 0 && NodeInput(left, right)[0] == 1;
  }

  // ---------------------------------------------------------------- sizes

  function Pow2(k: nat): (p: nat)
    ensures p >= 1
  {
    if k == 0 then 1 else 2 * Pow2(k - 1)
  }

  /** The ceiling of the binary logarithm. */
  function Depth(n: int): nat
    decreases n
  {
    if n <= 1 then 0 else 1 + Depth((n + 1) / 2)
  }

  lemma {:induction false} DepthIsCeilLog2(n: int)
    ensures n <= Pow2(Depth(n))
    ensures Depth(n) > 0 ==> Pow2(Depth(n) - 1) < n
    decreases n
  {
    if n <= 1 {
    } else {
      DepthIsCeilLog2((n + 1) / 2);
      if Depth(n) > 1 { assert Pow2(Depth(n) - 1) == 2 * Pow2(Depth((n + 1) / 2) - 1); }
    }
  }

  lemma {:induction false} Pow2Monotone(a: nat, b: nat)
    requires a <= b
    ensures Pow2(a) <= Pow2(b)
    decreases b
  {
    if a == b {
    } else {
      Pow2Monotone(a, b - 1);
    }
  }

  /** Depth(n) is the only exponent whose power of two is the next one at or above n. */
  lemma DepthUnique(n: int, k: nat)
    requires n <= Pow2(k) && (k > 0 ==> Pow2(k - 1) < n)
    ensures k == Depth(n)
  {
    DepthIsCeilLog2(n);
    if k < Depth(n) { Pow2Monotone(k, Depth(n) - 1); }
    if Depth(n) < k { Pow2Monotone(Depth(n), k - 1); }
  }

  /** p <<= 1 on an int64. */
  function Shl1(p: int): int {
    if 2 * p >= 0x8000_0000_0000_0000 then 2 * p - 0x1_0000_0000_0000_0000
    else if 2 * p < -0x8000_0000_0000_0000 then 2 * p + 0x1_0000_0000_0000_0000
    else 2 * p
  }

  /** The loop variable of nextPowerOfTwo after k iterations. */
  function Doubled(k: nat): int {
    if k == 0 then 1 else Shl1(Doubled(k - 1))
  }

  lemma Pow2Of62()
    ensures Pow2(62) == MAX_LEAVES
  {
    assert Pow2(10) == 0x400;
    assert Pow2(20) == 0x10_0000;
    assert Pow2(30) == 0x4000_0000;
    assert Pow2(40) == 0x100_0000_0000;
    assert Pow2(50) == 0x4_0000_0000_0000;
    assert Pow2(60) == 0x1000_0000_0000_0000;
  }

  lemma {:induction false} DoubledValue(k: nat)
    ensures k <= 62 ==> Doubled(k) == Pow2(k) <= MAX_LEAVES
    ensures k == 63 ==> Doubled(k) == -0x8000_0000_0000_0000
    ensures k >= 64 ==> Doubled(k) == 0
  {
    if k == 0 {
    } else {
      DoubledValue(k - 1);
      Pow2Of62();
      if k <= 62 { Pow2Monotone(k, 62); }
    }
  }

  /** Doubling an int64 from 1 reaches n if and only if n is at most 2^62. */
  lemma {:induction false} DoublingStopsExactly(n: int)
    ensures (exists k: nat :: Doubled(k) >= n) <==> n <= MAX_LEAVES
  {
    Pow2Of62();
    if n <= MAX_LEAVES {
      DoubledValue(62);
      assert Doubled(62) >= n;
    }
    forall k: nat
      ensures Doubled(k) <= MAX_LEAVES
    {
      DoubledValue(k);
    }
  }

  method NextPowerOfTwo(n: int) returns (p: int)
    requires n <= MAX_LEAVES
    ensures p == Pow2(Depth(n))
  {
    p := 1;
    ghost var k := 0;
    while p < n
      invariant k <= 62 && p == Doubled(k) == Pow2(k)
      invariant k > 0 ==> Pow2(k - 1) < n
      decreases 62 - k
    {
      DoubledValue(62);
      Pow2Of62();
      if k == 62 { assert false; }
      DoubledValue(k + 1);
      p := Shl1(p);
      k := k + 1;
    }
    DepthUnique(n, k);
  }

  // ---------------------------------------------------------------- the tree as a function

  /** fmt.Sprintf("%d", n) for n >= 0. */
  function Decimal(n: nat): bytes {
    if n < 10 then [(48 + n) as byte] else Decimal(n / 10) + [(48 + n % 10) as byte]
  }

  function Pow10(k: nat): nat {
    if k == 0 then 1 else 10 * Pow10(k - 1)
  }

  lemma Pow10Of19()
    ensures Pow10(19) == 1_0000_0000_0000_0000_000
  {
    assert Pow10(5) == 10_0000;
    assert Pow10(10) == 1_0000_0000_00;
    assert Pow10(15) == 1_0000_0000_0000_000;
  }

  lemma {:induction false} DecimalLength(n: nat, k: nat)
    requires k > 0 && n < Pow10(k)
    ensures |Decimal(n)| <= k
    decreases k
  {
    if n < 10 {
    } else {
      DecimalLength(n / 10, k - 1);
    }
  }

  function Ascii(s: string): bytes {
    seq(|s|, i requires 0 <= i < |s| => (s[i] as int % 0x100) as byte)
  }

  function PaddingLeaf(domain: string, index: nat): bytes {
    Ascii("pqchat-merkle-padding-leaf-") + Ascii(domain) + Ascii("-") + Decimal(index)
  }

  /** The data of leaf i of the padded tree. */
  function PaddedLeaf(domain: string, leaves: seq<bytes>, i: nat): bytes {
    if i < |leaves| then leaves[i] else PaddingLeaf(domain, i)
  }

  function Base(h: HashFn, domain: string, leaves: seq<bytes>): (b: seq<Hash>)
    ensures |b| == Pow2(Depth(|leaves|))
  {
    seq(Pow2(Depth(|leaves|)), i requires 0 <= i => LeafHash(h, PaddedLeaf(domain, leaves, i)))
  }

  /** The level above: each pair of neighbours hashed into one node. */
  function Up(h: HashFn, level: seq<Hash>): (up: seq<Hash>)
    ensures |up| == |level| / 2
  {
    seq(|level| / 2, i requires 0 <= i < |level| / 2 => NodeHash(h, level[2 * i], level[2 * i + 1]))
  }

  function RootOf(h: HashFn, level: seq<Hash>): Hash
    requires |level| > 0
    decreases |level|
  {
    if |level| == 1 then level[0] else RootOf(h, Up(h, level))
  }

  /** The leaf level and all levels above it. */
  function Levels(h: HashFn, level: seq<Hash>): (ls: seq<seq<Hash>>)
    ensures |ls| > 0
    decreases |level|
  {
    if |level| <= 1 then [level] else [level] + Levels(h, Up(h, level))
  }

  /** idx ^ 1. */
  function Sibling(idx: nat): nat {
    if idx % 2 == 0 then idx + 1 else idx - 1
  }

  function AuditPath(h: HashFn, level: seq<Hash>, d: nat, idx: nat): (path: seq<Hash>)
    requires |level| == Pow2(d) && idx < |level|
    ensures |path| == d
    decreases d
  {
    if d == 0 then [] else [level[Sibling(idx)]] + AuditPath(h, Up(h, level), d - 1, idx / 2)
  }

  function StepInput(x: Hash, idx: nat, sibling: Hash): bytes {
    if idx % 2 == 0 then NodeInput(x, sibling) else NodeInput(sibling, x)
  }

  /** What the verifier computes from a hash at position idx and the siblings above it. */
  function Climb(h: HashFn, x: Hash, idx: nat, path: seq<Hash>): Hash
    decreases |path|
  {
    if path == [] then x else Climb(h, h.Of(StepInput(x, idx, path[0])), idx / 2, path[1..])
  }

  predicate Accepts(h: HashFn, data: bytes, index: int, size: int, path: seq<Hash>, root: Hash) {
    0 <= index < size && |path| == Depth(size) && Climb(h, LeafHash(h, data), index, path) == root
  }

  function TreeRoot(h: HashFn, domain: string, leaves: seq<bytes>): Hash {
    RootOf(h, Base(h, domain, leaves))
  }

  // ---------------------------------------------------------------- completeness

  /** A node is what its two children are hashed to, from either child's point of view. */
  lemma UpAt(h: HashFn, level: seq<Hash>, d: nat, idx: nat)
    requires |level| == Pow2(d) && d > 0 && idx < |level|
    ensures |level| > 1 && |Up(h, level)| == Pow2(d - 1) && idx / 2 < Pow2(d - 1)
    ensures Sibling(idx) < |level|
    ensures Up(h, level)[idx / 2] == h.Of(StepInput(level[idx], idx, level[Sibling(idx)]))
  {
    hide NodeInput;
    assert idx == 2 * (idx / 2) + idx % 2;
  }

  lemma ClimbNothing(h: HashFn, level: seq<Hash>)
    requires |level| == 1
    ensures |level| == Pow2(0) && Climb(h, level[0], 0, AuditPath(h, level, 0, 0)) == RootOf(h, level)
  {
  }

  lemma {:induction false} ClimbHonestPath(h: HashFn, level: seq<Hash>, d: nat, idx: nat)
    requires |level| == Pow2(d) && idx < |level|
    ensures Climb(h, level[idx], idx, AuditPath(h, level, d, idx)) == RootOf(h, level)
    decreases d
  {
    assert d == 0 ==> |level| == 1;
    hide *;
    if d == 0 {
      ClimbNothing(h, level);
    } else {
      UpAt(h, level, d, idx);
      PathStep(h, level, d, idx);
      var rest := AuditPath(h, Up(h, level), d - 1, idx / 2);
      ClimbHonestPath(h, Up(h, level), d - 1, idx / 2);
      ClimbStep(h, level[idx], idx, level[Sibling(idx)], rest);
    }
  }

  /** The honest path and the root, one level up. */
  lemma PathStep(h: HashFn, level: seq<Hash>, d: nat, idx: nat)
    requires |level| == Pow2(d) && d > 0 && idx < |level| && Sibling(idx) < |level|
    requires |Up(h, level)| == Pow2(d - 1) && idx / 2 < |Up(h, level)| && |level| > 1
    ensures RootOf(h, level) == RootOf(h, Up(h, level))
    ensures AuditPath(h, level, d, idx) == [level[Sibling(idx)]] + AuditPath(h, Up(h, level), d - 1, idx / 2)
  {
    hide Up, Pow2, Sibling;
  }

  lemma ClimbStep(h: HashFn, x: Hash, idx: nat, sibling: Hash, rest: seq<Hash>)
    ensures Climb(h, x, idx, [sibling] + rest) == Climb(h, h.Of(StepInput(x, idx, sibling)), idx / 2, rest)
  {
    hide StepInput;
    assert ([sibling] + rest)[1..] == rest;
  }

  /**
   Every leaf of every tree has a proof that is accepted, and it has as many hashes as the ceiling of log2 of the size.
   */
  lemma {:induction false} Completeness(h: HashFn, domain: string, leaves: seq<bytes>, i: nat)
    requires i < |leaves|
    ensures i < Pow2(Depth(|leaves|))
    ensures var path := AuditPath(h, Base(h, domain, leaves), Depth(|leaves|), i);
      Accepts(h, leaves[i], i, |leaves|, path, TreeRoot(h, domain, leaves))
  {
    DepthIsCeilLog2(|leaves|);
    ClimbHonestPath(h, Base(h, domain, leaves), Depth(|leaves|), i);
  }

  // ---------------------------------------------------------------- soundness by extraction

  /** Where a path that climbs to the root of `level` leaves the honest one, two inputs of the same hash. */
  function PathClash(h: HashFn, level: seq<Hash>, d: nat, x: Hash, idx: nat, path: seq<Hash>): (bytes, bytes)
    requires |level| == Pow2(d) && idx < |level| && |path| == d
    decreases d
  {
    if d == 0 then ([], [])
    else
      var y, up := h.Of(StepInput(x, idx, path[0])), Up(h, level);
      if y == up[idx / 2] && (x != level[idx] || path[0] != level[Sibling(idx)])
      then (StepInput(x, idx, path[0]), StepInput(level[idx], idx, level[Sibling(idx)]))
      else PathClash(h, up, d - 1, y, idx / 2, path[1..])
  }

  lemma ClimbHead(h: HashFn, x: Hash, idx: nat, path: seq<Hash>)
    requires |path| > 0
    ensures Climb(h, x, idx, path) == Climb(h, h.Of(StepInput(x, idx, path[0])), idx / 2, path[1..])
  {
    hide StepInput;
  }

  lemma ClashHead(h: HashFn, level: seq<Hash>, d: nat, x: Hash, idx: nat, path: seq<Hash>)
    requires |level| == Pow2(d) && idx < |level| && |path| == d && d > 0 && Sibling(idx) < |level|
    requires |Up(h, level)| == Pow2(d - 1) && idx / 2 < |Up(h, level)|
    ensures var y, up := h.Of(StepInput(x, idx, path[0])), Up(h, level);
      PathClash(h, level, d, x, idx, path)
      == if y == up[idx / 2] && (x != level[idx] || path[0] != level[Sibling(idx)])
         then (StepInput(x, idx, path[0]), StepInput(level[idx], idx, level[Sibling(idx)]))
         else PathClash(h, up, d - 1, y, idx / 2, path[1..])
  {
    hide StepInput, Up, Pow2, Sibling;
  }

  lemma ClimbBindsLeaf(h: HashFn, level: seq<Hash>, x: Hash, idx: nat, path: seq<Hash>)
    requires |level| == Pow2(0) && idx < |level| && |path| == 0
    requires Climb(h, x, idx, path) == RootOf(h, level)
    ensures x == level[idx] && path == AuditPath(h, level, 0, idx)
  {
  }

  lemma {:induction false} ClimbBinds(h: HashFn, level: seq<Hash>, d: nat, x: Hash, idx: nat, path: seq<Hash>)
    requires |level| == Pow2(d) && idx < |level| && |path| == d
    requires Climb(h, x, idx, path) == RootOf(h, level)
    ensures (x == level[idx] && path == AuditPath(h, level, d, idx))
            || Collision(h, PathClash(h, level, d, x, idx, path))
    decreases d
  {
    hide *;
    if d == 0 {
      ClimbBindsLeaf(h, level, x, idx, path);
    } else {
      UpAt(h, level, d, idx);
      ClimbHead(h, x, idx, path);
      ClashHead(h, level, d, x, idx, path);
      PathStep(h, level, d, idx);
      var y, up := h.Of(StepInput(x, idx, path[0])), Up(h, level);
      ClimbBinds(h, up, d - 1, y, idx / 2, path[1..]);
      StepInputInjective(x, path[0], level[idx], level[Sibling(idx)], idx);
      if y == up[idx / 2] {
        if x == level[idx] && path[0] == level[Sibling(idx)] {
          HeadAndTail(path);
        } else {
          IsCollision(h, StepInput(x, idx, path[0]), StepInput(level[idx], idx, level[Sibling(idx)]));
        }
      }
    }
  }

  lemma HeadAndTail<T>(s: seq<T>)
    requires |s| > 0
    ensures s == [s[0]] + s[1..]
  {
  }

  lemma IsCollision(h: HashFn, a: bytes, b: bytes)
    requires a != b && h.Of(a) == h.Of(b)
    ensures Collision(h, (a, b))
  {
  }

  lemma StepInputInjective(x: Hash, s: Hash, x': Hash, s': Hash, idx: nat)
    ensures StepInput(x, idx, s) == StepInput(x', idx, s') <==> x == x' && s == s'
  {
    if StepInput(x, idx, s) == StepInput(x', idx, s') {
      if idx % 2 == 0 { NodeInputInjective(x, s, x', s'); } else { NodeInputInjective(s, x, s', x'); }
    }
  }

  lemma UpSize(h: HashFn, level: seq<Hash>, d: nat)
    requires |level| == Pow2(d) && d > 0
    ensures |Up(h, level)| == Pow2(d - 1)
    ensures RootOf(h, Up(h, level)) == RootOf(h, level)
  {
    hide NodeHash;
  }

  /** The k-th level above a level of 2^d nodes. */
  function LevelAt(h: HashFn, level: seq<Hash>, d: nat, k: nat): (r: seq<Hash>)
    requires |level| == Pow2(d) && k <= d
    ensures |r| == Pow2(d - k)
  {
    if k == 0 then level else
      var below := LevelAt(h, level, d, k - 1);
      UpSize(h, below, d - k + 1);
      Up(h, below)
  }

  lemma {:induction false} LevelAtRoot(h: HashFn, level: seq<Hash>, d: nat, k: nat)
    requires |level| == Pow2(d) && k <= d
    ensures RootOf(h, LevelAt(h, level, d, k)) == RootOf(h, level)
  {
    hide Up, RootOf, Pow2;
    if k == 0 {
    } else {
      LevelAtRoot(h, level, d, k - 1);
      UpSize(h, LevelAt(h, level, d, k - 1), d - k + 1);
    }
  }

  /** idx >> k. */
  function Shift(idx: nat, k: nat): nat {
    if k == 0 then idx else Shift(idx, k - 1) / 2
  }

  lemma {:induction false} ShiftBelow(idx: nat, d: nat, k: nat)
    requires idx < Pow2(d) && k <= d
    ensures Shift(idx, k) < Pow2(d - k)
  {
    if k == 0 {
    } else {
      ShiftBelow(idx, d, k - 1);
      assert Pow2(d - k + 1) == 2 * Pow2(d - k);
    }
  }

  lemma {:induction false} ShiftHalf(idx: nat, k: nat)
    ensures Shift(idx / 2, k) == Shift(idx, k + 1)
  {
    if k == 0 {
    } else {
      ShiftHalf(idx, k - 1);
    }
  }

  /** Climbing a path is climbing its first part, then the rest. */
  lemma {:induction false} ClimbSplit(h: HashFn, x: Hash, idx: nat, path: seq<Hash>, k: nat)
    requires k <= |path|
    ensures Climb(h, x, idx, path) == Climb(h, Climb(h, x, idx, path[..k]), Shift(idx, k), path[k..])
    decreases k
  {
    hide StepInput;
    if k == 0 {
      assert path[0..] == path;
    } else {
      var y := h.Of(StepInput(x, idx, path[0]));
      ClimbSplit(h, y, idx / 2, path[1..], k - 1);
      ShiftHalf(idx, k - 1);
      assert path[1..][..k - 1] == path[..k][1..];
      assert path[1..][k - 1..] == path[k..];
    }
  }

  /**
   The inputs that two nodes with equal hashes were computed from: node i of the level above, as a pair of its children.
   */
  function ChildrenInput(level: seq<Hash>, i: nat): bytes
    requires 2 * i + 1 < |level|
  {
    NodeInput(level[2 * i], level[2 * i + 1])
  }

  /** ProofClash for a path no longer than the tree is deep. */
  function ShallowClash(h: HashFn, base: seq<Hash>, d: nat, leaf: bytes, data: bytes, index: nat, path: seq<Hash>)
    : (bytes, bytes)
    requires |base| == Pow2(d) && |path| <= d && index < Pow2(|path|)
  {
    var level := LevelAt(h, base, d, d - |path|);
    if LeafHash(h, data) != level[index] || (|path| == d && data == leaf) then
      PathClash(h, level, |path|, LeafHash(h, data), index, path)
    else if |path| == d then (LeafInput(data), LeafInput(leaf))
    else (LeafInput(data), ChildrenInput(LevelAt(h, base, d, d - |path| - 1), index))
  }

  /** ProofClash for a longer path, whose upper part meets the tree at a leaf. */
  function DeepClash(h: HashFn, base: seq<Hash>, d: nat, leaf: bytes, data: bytes, index: nat, path: seq<Hash>)
    : (bytes, bytes)
    requires |base| == Pow2(d) && |path| > d && index < Pow2(|path|)
  {
    var k := |path| - d;
    var y, j := Climb(h, LeafHash(h, data), index, path[..k]), Shift(index, k);
    ShiftBelow(index, |path|, k);
    if y != base[j] then PathClash(h, base, d, y, j, path[k..])
    else (StepInput(Climb(h, LeafHash(h, data), index, path[..k - 1]), Shift(index, k - 1), path[k - 1]),
          LeafInput(leaf))
  }

  /**
   Two inputs of the same hash, from any accepted proof that is not the honest one: in the path itself, between leaf
   data, or, when the claimed size has another depth, between a leaf and an inner node.
   */
  function ProofClash(h: HashFn, domain: string, leaves: seq<bytes>, data: bytes, index: nat, path: seq<Hash>)
    : (bytes, bytes)
    requires index < Pow2(|path|)
  {
    var base, d := Base(h, domain, leaves), Depth(|leaves|);
    if |path| <= d then ShallowClash(h, base, d, PaddedLeaf(domain, leaves, index), data, index, path)
    else DeepClash(h, base, d, PaddedLeaf(domain, leaves, Shift(index, |path| - d)), data, index, path)
  }

  /** The proof is the honest one for the padded leaf at that index. */
  predicate IsHonest(h: HashFn, domain: string, leaves: seq<bytes>, data: bytes, index: nat, path: seq<Hash>) {
    && |path| == Depth(|leaves|) && index < Pow2(Depth(|leaves|))
    && data == PaddedLeaf(domain, leaves, index)
    && path == AuditPath(h, Base(h, domain, leaves), Depth(|leaves|), index)
  }

  lemma ChildrenAt(h: HashFn, below: seq<Hash>, i: nat)
    requires i < |below| / 2
    ensures Up(h, below)[i] == h.Of(ChildrenInput(below, i))
  {
  }

  /** The claimed size has the tree's own depth. */
  lemma SoundLevel(h: HashFn, base: seq<Hash>, d: nat, leaf: bytes, data: bytes, index: nat, path: seq<Hash>)
    requires |base| == Pow2(d) && |path| == d && index < Pow2(d)
    requires base[index] == LeafHash(h, leaf)
    requires Climb(h, LeafHash(h, data), index, path) == RootOf(h, base)
    ensures
      || (data == leaf && path == AuditPath(h, base, d, index))
      || Collision(h, ShallowClash(h, base, d, leaf, data, index, path))
  {
    hide PathClash, Climb, AuditPath, RootOf, LeafInput, Pow2;
    ClimbBinds(h, base, d, LeafHash(h, data), index, path);
    if LeafInput(data) == LeafInput(leaf) { LeafInputInjective(data, leaf); }
  }

  /** The claimed size has a smaller depth. */
  lemma SoundShallow(h: HashFn, base: seq<Hash>, d: nat, leaf: bytes, data: bytes, index: nat, path: seq<Hash>)
    requires |base| == Pow2(d) && |path| < d && index < Pow2(|path|)
    requires Climb(h, LeafHash(h, data), index, path) == RootOf(h, base)
    ensures Collision(h, ShallowClash(h, base, d, leaf, data, index, path))
  {
    var below := LevelAt(h, base, d, d - |path| - 1);
    var level := LevelAt(h, base, d, d - |path|);
    assert level == Up(h, below);
    hide LevelAt, PathClash, Climb, AuditPath, RootOf, NodeInput, LeafInput, Up, Pow2;
    LevelAtRoot(h, base, d, d - |path|);
    ClimbBinds(h, level, |path|, LeafHash(h, data), index, path);
    ChildrenAt(h, below, index);
    LeafIsNoNode(data, below[2 * index], below[2 * index + 1]);
  }

  lemma SoundDeep(h: HashFn, base: seq<Hash>, d: nat, leaf: bytes, data: bytes, index: nat, path: seq<Hash>)
    requires |base| == Pow2(d) && |path| > d && index < Pow2(|path|)
    requires Shift(index, |path| - d) < |base| ==> base[Shift(index, |path| - d)] == LeafHash(h, leaf)
    requires Climb(h, LeafHash(h, data), index, path) == RootOf(h, base)
    ensures Collision(h, DeepClash(h, base, d, leaf, data, index, path))
  {
    hide PathClash, AuditPath, RootOf, NodeInput, LeafInput, StepInput, Climb, Pow2;
    var k, x := |path| - d, LeafHash(h, data);
    ShiftBelow(index, |path|, k);
    ClimbSplit(h, x, index, path, k);
    var y, j := Climb(h, x, index, path[..k]), Shift(index, k);
    ClimbBinds(h, base, d, y, j, path[k..]);
    if y == base[j] {
      var z := Climb(h, x, index, path[..k - 1]);
      ClimbSplit(h, x, index, path[..k], k - 1);
      assert path[..k][..k - 1] == path[..k - 1];
      assert path[..k][k - 1..] == [path[k - 1]];
      ClimbOne(h, z, Shift(index, k - 1), path[k - 1]);
      StepIsNoLeaf(z, Shift(index, k - 1), path[k - 1], leaf);
    }
  }

  lemma ClimbOne(h: HashFn, x: Hash, idx: nat, s: Hash)
    ensures Climb(h, x, idx, [s]) == h.Of(StepInput(x, idx, s))
  {
    hide StepInput;
    assert [s][1..] == [];
  }

  lemma StepIsNoLeaf(x: Hash, idx: nat, s: Hash, data: bytes)
    ensures StepInput(x, idx, s) != LeafInput(data)
  {
    if idx % 2 == 0 { LeafIsNoNode(data, x, s); } else { LeafIsNoNode(data, s, x); }
  }

  /**
   Soundness: a proof accepted against a tree's root, for any claimed size, is the honest proof of the padded leaf at
   that index, or ProofClash is a collision of the hash. A claimed size of another depth always yields a collision.
   */
  lemma {:induction false} Soundness(
      h: HashFn, domain: string, leaves: seq<bytes>, data: bytes, index: int, size: int, path: seq<Hash>)
    requires Accepts(h, data, index, size, path, TreeRoot(h, domain, leaves))
    ensures 0 <= index < Pow2(|path|)
    ensures IsHonest(h, domain, leaves, data, index, path)
            || Collision(h, ProofClash(h, domain, leaves, data, index, path))
    ensures Depth(size) != Depth(|leaves|) ==> Collision(h, ProofClash(h, domain, leaves, data, index, path))
  {
    DepthIsCeilLog2(size);
    var base, d := Base(h, domain, leaves), Depth(|leaves|);
    hide ShallowClash, DeepClash, Climb, RootOf, Pow2, PaddingLeaf, LeafHash;
    if |path| == d {
      SoundLevel(h, base, d, PaddedLeaf(domain, leaves, index), data, index, path);
    } else if |path| < d {
      SoundShallow(h, base, d, PaddedLeaf(domain, leaves, index), data, index, path);
    } else {
      ShiftBelow(index, |path|, |path| - d);
      SoundDeep(h, base, d, PaddedLeaf(domain, leaves, Shift(index, |path| - d)), data, index, path);
    }
  }

  // ---------------------------------------------------------------- root binding

  function FirstDiff<T(==)>(a: seq<T>, b: seq<T>): (i: nat)
    requires |a| == |b| && a != b
    ensures i < |a| && a[i] != b[i]
  {
    if a[0] != b[0] then 0
    else
      assert a == [a[0]] + a[1..] && b == [b[0]] + b[1..];
      1 + FirstDiff(a[1..], b[1..])
  }

  /** Two inputs of the same hash, from two different levels under the same root. */
  function LevelClash(h: HashFn, a: seq<Hash>, b: seq<Hash>, d: nat): (bytes, bytes)
    requires |a| == |b| == Pow2(d)
    decreases d
  {
    if d == 0 || a == b then ([], [])
    else if Up(h, a) != Up(h, b) then LevelClash(h, Up(h, a), Up(h, b), d - 1)
    else (ChildrenInput(a, FirstDiff(a, b) / 2), ChildrenInput(b, FirstDiff(a, b) / 2))
  }

  lemma {:induction false} LevelBinds(h: HashFn, a: seq<Hash>, b: seq<Hash>, d: nat)
    requires |a| == |b| == Pow2(d) && RootOf(h, a) == RootOf(h, b)
    ensures a == b || Collision(h, LevelClash(h, a, b, d))
    decreases d
  {
    if d == 0 {
      assert a == [a[0]] && b == [b[0]];
    } else if a != b {
      UpSize(h, a, d);
      UpSize(h, b, d);
      if Up(h, a) != Up(h, b) {
        hide Up, RootOf, Pow2;
        LevelBinds(h, Up(h, a), Up(h, b), d - 1);
      } else {
        var j := FirstDiff(a, b);
        PairClash(h, a, b, j);
      }
    }
  }

  lemma PairClash(h: HashFn, a: seq<Hash>, b: seq<Hash>, j: nat)
    requires |a| == |b| && |a| % 2 == 0 && j < |a| && a[j] != b[j] && Up(h, a) == Up(h, b)
    ensures j / 2 < |a| / 2 && Collision(h, (ChildrenInput(a, j / 2), ChildrenInput(b, j / 2)))
  {
    var i := j / 2;
    assert j == 2 * i || j == 2 * i + 1;
    ChildrenAt(h, a, i);
    ChildrenAt(h, b, i);
    if ChildrenInput(a, i) == ChildrenInput(b, i) {
      NodeInputInjective(a[2 * i], a[2 * i + 1], b[2 * i], b[2 * i + 1]);
    }
  }

  function Padded(domain: string, leaves: seq<bytes>): (p: seq<bytes>)
    ensures |p| == Pow2(Depth(|leaves|))
  {
    seq(Pow2(Depth(|leaves|)), i requires 0 <= i => PaddedLeaf(domain, leaves, i))
  }

  /**
   Two inputs of the same hash, from the leaf level of one tree and an inner level of another, under the same root;
   `below` is the level that `level` was hashed from, and `leaf` the first leaf of a.
   */
  function DepthClash(h: HashFn, a: seq<Hash>, d: nat, level: seq<Hash>, below: seq<Hash>, leaf: bytes): (bytes, bytes)
    requires |a| == |level| == Pow2(d) && |below| > 1
  {
    if a != level then LevelClash(h, a, level, d) else (LeafInput(leaf), ChildrenInput(below, 0))
  }

  /** RootClash when the first tree is not the deeper one. */
  function RootClashUp(h: HashFn, x: string, la: seq<bytes>, z: string, lb: seq<bytes>): (bytes, bytes)
    requires Depth(|la|) <= Depth(|lb|)
  {
    var a, b, da, db := Base(h, x, la), Base(h, z, lb), Depth(|la|), Depth(|lb|);
    if da < db then
      DepthClash(h, a, da, LevelAt(h, b, db, db - da), LevelAt(h, b, db, db - da - 1), PaddedLeaf(x, la, 0))
    else if a != b then LevelClash(h, a, b, da)
    else
      var pa, pb := Padded(x, la), Padded(z, lb);
      if pa == pb then ([], []) else (LeafInput(pa[FirstDiff(pa, pb)]), LeafInput(pb[FirstDiff(pa, pb)]))
  }

  /** Two inputs of the same hash, from two leaf lists whose padded trees differ but share their root. */
  function RootClash(h: HashFn, x: string, la: seq<bytes>, z: string, lb: seq<bytes>): (bytes, bytes) {
    if Depth(|la|) <= Depth(|lb|) then RootClashUp(h, x, la, z, lb) else RootClashUp(h, z, lb, x, la)
  }

  lemma RootBindsSameDepth(h: HashFn, x: string, la: seq<bytes>, z: string, lb: seq<bytes>)
    requires Depth(|la|) == Depth(|lb|) && TreeRoot(h, x, la) == TreeRoot(h, z, lb)
    ensures Padded(x, la) == Padded(z, lb) || Collision(h, RootClashUp(h, x, la, z, lb))
  {
    var a, b, pa, pb := Base(h, x, la), Base(h, z, lb), Padded(x, la), Padded(z, lb);
    LevelBinds(h, a, b, Depth(|la|));
    hide PaddingLeaf, LevelClash, RootOf, LeafInput, Pow2;
    if a == b && pa != pb {
      var i := FirstDiff(pa, pb);
      assert a[i] == LeafHash(h, pa[i]) && b[i] == LeafHash(h, pb[i]);
      if LeafInput(pa[i]) == LeafInput(pb[i]) { LeafInputInjective(pa[i], pb[i]); }
    }
  }

  lemma DepthBinds(h: HashFn, a: seq<Hash>, d: nat, level: seq<Hash>, below: seq<Hash>, leaf: bytes)
    requires |a| == |level| == Pow2(d) && |below| > 1 && level == Up(h, below)
    requires RootOf(h, a) == RootOf(h, level) && a[0] == LeafHash(h, leaf)
    ensures Collision(h, DepthClash(h, a, d, level, below, leaf))
  {
    hide LevelClash, RootOf, LeafInput, NodeInput, Up, Pow2;
    LevelBinds(h, a, level, d);
    ChildrenAt(h, below, 0);
    LeafIsNoNode(leaf, below[0], below[1]);
  }

  /** The two levels of the deeper tree that the shallower one is compared with. */
  lemma LevelsMeet(h: HashFn, b: seq<Hash>, db: nat, da: nat)
    requires |b| == Pow2(db) && da < db
    ensures RootOf(h, LevelAt(h, b, db, db - da)) == RootOf(h, b)
    ensures |LevelAt(h, b, db, db - da - 1)| > 1
    ensures LevelAt(h, b, db, db - da) == Up(h, LevelAt(h, b, db, db - da - 1))
  {
    hide Up, RootOf;
    LevelAtRoot(h, b, db, db - da);
  }

  lemma RootBindsOtherDepth(h: HashFn, x: string, la: seq<bytes>, z: string, lb: seq<bytes>)
    requires Depth(|la|) < Depth(|lb|) && TreeRoot(h, x, la) == TreeRoot(h, z, lb)
    ensures Collision(h, RootClashUp(h, x, la, z, lb))
  {
    hide PaddedLeaf, RootOf, LevelAt, Pow2, Depth, Up, LeafHash, DepthClash, Collision;
    var a, b, da, db := Base(h, x, la), Base(h, z, lb), Depth(|la|), Depth(|lb|);
    assert a[0] == LeafHash(h, PaddedLeaf(x, la, 0));
    LevelsMeet(h, b, db, da);
    DepthBinds(h, a, da, LevelAt(h, b, db, db - da), LevelAt(h, b, db, db - da - 1), PaddedLeaf(x, la, 0));
  }

  /**
   Trees with the same root, whatever their domains, have the same padded leaves, or RootClash is a collision of the
   hash.
   */
  lemma {:induction false} RootBinding(h: HashFn, x: string, la: seq<bytes>, z: string, lb: seq<bytes>)
    requires TreeRoot(h, x, la) == TreeRoot(h, z, lb)
    ensures Padded(x, la) == Padded(z, lb) || Collision(h, RootClash(h, x, la, z, lb))
  {
    hide RootClashUp, TreeRoot, Padded, Depth, Collision;
    if Depth(|la|) == Depth(|lb|) {
      RootBindsSameDepth(h, x, la, z, lb);
    } else if Depth(|la|) < Depth(|lb|) {
      RootBindsOtherDepth(h, x, la, z, lb);
    } else {
      RootBindsOtherDepth(h, z, lb, x, la);
    }
  }

  lemma PaddedAt(domain: string, leaves: seq<bytes>, i: nat)
    requires i < |Padded(domain, leaves)|
    ensures Padded(domain, leaves)[i] == PaddedLeaf(domain, leaves, i)
  {
    hide PaddedLeaf;
  }

  /** Leaf lists that contain no padding are recovered from their padding. */
  lemma {:induction false} PaddedInjective(domain: string, la: seq<bytes>, lb: seq<bytes>)
    requires Padded(domain, la) == Padded(domain, lb)
    requires forall i :: 0 <= i < |la| ==> la[i] != PaddingLeaf(domain, i)
    requires forall i :: 0 <= i < |lb| ==> lb[i] != PaddingLeaf(domain, i)
    ensures la == lb
  {
    DepthIsCeilLog2(|la|);
    DepthIsCeilLog2(|lb|);
    hide PaddingLeaf, Depth, Pow2, Padded;
    forall i: nat | i < |Padded(domain, la)|
      ensures PaddedLeaf(domain, la, i) == PaddedLeaf(domain, lb, i)
    {
      PaddedAt(domain, la, i);
      PaddedAt(domain, lb, i);
    }
    var m := if |la| < |lb| then |la| else |lb|;
    assert |la| != |lb| ==> PaddedLeaf(domain, la, m) == PaddedLeaf(domain, lb, m);
    forall i: nat | i < |la| && i < |lb|
      ensures la[i] == lb[i]
    {
      assert PaddedLeaf(domain, la, i) == PaddedLeaf(domain, lb, i);
    }
  }

  // ---------------------------------------------------------------- padding and domains

  lemma {:induction false} DecimalDigits(n: nat)
    ensures |Decimal(n)| > 0 && forall k :: 0 <= k < |Decimal(n)| ==> 48 <= Decimal(n)[k] <= 57
  {
    if n < 10 {
    } else {
      DecimalDigits(n / 10);
    }
  }

  lemma {:induction false} DecimalInjective(m: nat, n: nat)
    requires Decimal(m) == Decimal(n)
    ensures m == n
  {
    DecimalDigits(m / 10);
    DecimalDigits(n / 10);
    if m < 10 || n < 10 {
    } else {
      var a, b := [(48 + m % 10) as byte], [(48 + n % 10) as byte];
      ConcatInjective(Decimal(m / 10), a, Decimal(n / 10), b);
      assert a[0] == b[0];
      DecimalInjective(m / 10, n / 10);
    }
  }

  /** A name of one byte per character. */
  predicate Plain(s: string) {
    forall i :: 0 <= i < |s| ==> s[i] as int < 0x100
  }

  lemma AsciiInjective(s: string, t: string)
    requires Plain(s) && Plain(t) && Ascii(s) == Ascii(t)
    ensures s == t
  {
    forall i | 0 <= i < |s|
      ensures s[i] == t[i]
    {
      assert Ascii(s)[i] == Ascii(t)[i];
    }
  }

  lemma NoDashBehind(a: bytes, ds: bytes)
    requires forall k :: 0 <= k < |ds| ==> ds[k] != 45
    ensures forall k :: |a| < k < |a + [45] + ds| ==> (a + [45] + ds)[k] != 45
  {
    forall k | |a| < k < |a + [45] + ds|
      ensures (a + [45] + ds)[k] != 45
    {
      assert (a + [45] + ds)[k] == ds[k - |a| - 1];
    }
  }

  /** Behind the last dash: two strings that end in a dash and digits agree on what is before it and on the digits. */
  lemma LastDash(a: bytes, ds: bytes, b: bytes, es: bytes)
    requires a + [45] + ds == b + [45] + es
    requires (forall k :: 0 <= k < |ds| ==> ds[k] != 45) && (forall k :: 0 <= k < |es| ==> es[k] != 45)
    ensures a == b && ds == es
  {
    var s := a + [45] + ds;
    assert s[|a|] == 45 && s[|b|] == 45;
    NoDashBehind(a, ds);
    NoDashBehind(b, es);
    ConcatInjective(a + [45], ds, b + [45], es);
    ConcatInjective(a, [45], b, [45]);
  }

  /** A padding leaf determines its domain and its index. */
  lemma {:induction false} PaddingLeafInjective(x: string, i: nat, z: string, j: nat)
    requires Plain(x) && Plain(z)
    ensures PaddingLeaf(x, i) == PaddingLeaf(z, j) <==> x == z && i == j
  {
    if PaddingLeaf(x, i) == PaddingLeaf(z, j) {
      var p := Ascii("pqchat-merkle-padding-leaf-");
      assert Ascii("-") == [45];
      DecimalDigits(i);
      DecimalDigits(j);
      hide Decimal, Ascii;
      LastDash(p + Ascii(x), Decimal(i), p + Ascii(z), Decimal(j));
      ConcatInjective(p, Ascii(x), p, Ascii(z));
      AsciiInjective(x, z);
      DecimalInjective(i, j);
    }
  }

  /** Trees of two domains that are both padded at some position have different roots, or a collision is at hand. */
  lemma {:induction false} DomainsApart(h: HashFn, x: string, la: seq<bytes>, z: string, lb: seq<bytes>, i: nat)
    requires Plain(x) && Plain(z) && x != z
    requires |la| <= i && |lb| <= i && (i < Pow2(Depth(|la|)) || i < Pow2(Depth(|lb|)))
    requires TreeRoot(h, x, la) == TreeRoot(h, z, lb)
    ensures Collision(h, RootClash(h, x, la, z, lb))
  {
    hide TreeRoot, RootClash, Collision, PaddingLeaf, Padded, Depth, Pow2;
    RootBinding(h, x, la, z, lb);
    PaddingLeafInjective(x, i, z, i);
    if Padded(x, la) == Padded(z, lb) {
      PaddedAt(x, la, i);
      PaddedAt(z, lb, i);
    }
  }

  /** A tree without padding is the same in every domain. */
  lemma {:induction false} FullTreeIgnoresDomain(h: HashFn, x: string, z: string, leaves: seq<bytes>)
    requires |leaves| == Pow2(Depth(|leaves|))
    ensures TreeRoot(h, x, leaves) == TreeRoot(h, z, leaves)
  {
    hide PaddingLeaf, Depth, Pow2, RootOf, LeafHash;
    assert Base(h, x, leaves) == Base(h, z, leaves);
  }

  // ---------------------------------------------------------------- the code

  datatype Tree = Tree(n: nat, levels: seq<seq<Hash>>) {
    /** The tree that BuildTree makes of these leaves. */
    ghost predicate Of(h: HashFn, domain: string, leaves: seq<bytes>) {
      n == |leaves| && levels == Levels(h, Base(h, domain, leaves))
    }

    function Root(): Hash
      requires |levels| > 0 && |levels[|levels| - 1]| > 0
    {
      levels[|levels| - 1][0]
    }
  }

  method BuildTree(h: HashFn, domain: string, leafData: seq<bytes>) returns (t: Tree)
    requires |leafData| <= MAX_LEAVES
    ensures t.Of(h, domain, leafData)
  {
    hide Base, Up, Levels;
    var cur := LeafLevel(h, domain, leafData);
    var levels := [cur];
    assert levels[..|levels| - 1] + Levels(h, cur) == Levels(h, cur);
    while |cur| > 1
      invariant |cur| > 0
      invariant |levels| > 0
      invariant levels[..|levels| - 1] + Levels(h, cur) == Levels(h, Base(h, domain, leafData))
      invariant levels[|levels| - 1] == cur
      decreases |cur|
    {
      var next := HashPairs(h, cur);
      LevelsUnfold(h, cur);
      AppendLast(levels, next, Levels(h, next));
      levels := levels + [next];
      cur := next;
    }
    LevelsEnd(h, levels, cur);
    t := Tree(|leafData|, levels);
  }

  lemma LevelsUnfold(h: HashFn, cur: seq<Hash>)
    requires |cur| > 1
    ensures |Up(h, cur)| > 0 && Levels(h, cur) == [cur] + Levels(h, Up(h, cur))
  {
  }

  lemma AppendLast<T>(ls: seq<T>, next: T, rest: seq<T>)
    requires |ls| > 0
    ensures (ls + [next])[..|ls + [next]| - 1] + rest == ls[..|ls| - 1] + ([ls[|ls| - 1]] + rest)
  {
    assert ls == ls[..|ls| - 1] + [ls[|ls| - 1]];
  }

  lemma LevelsEnd(h: HashFn, levels: seq<seq<Hash>>, cur: seq<Hash>)
    requires |cur| == 1 && |levels| > 0 && levels[|levels| - 1] == cur
    ensures levels[..|levels| - 1] + Levels(h, cur) == levels
  {
  }

  /** BuildTree's first loop: the hashed leaves, and padding up to the next power of two. */
  method LeafLevel(h: HashFn, domain: string, leafData: seq<bytes>) returns (level: seq<Hash>)
    requires |leafData| <= MAX_LEAVES
    ensures level == Base(h, domain, leafData)
    ensures |level| > 0
  {
    var n := |leafData|;
    var size := NextPowerOfTwo(if n < 1 then 1 else n);
    var leaves := new Hash[size](_ => ZERO);
    for i := 0 to size
      invariant forall k :: 0 <= k < i ==> leaves[k] == LeafHash(h, PaddedLeaf(domain, leafData, k))
    {
      if i < n {
        leaves[i] := LeafHash(h, leafData[i]);
      } else {
        leaves[i] := LeafHash(h, PaddingLeaf(domain, i));
      }
    }
    level := leaves[..];
  }

  /** BuildTree's inner loop: one level from the one below. */
  method HashPairs(h: HashFn, cur: seq<Hash>) returns (up: seq<Hash>)
    ensures up == Up(h, cur)
  {
    var next := new Hash[|cur| / 2](_ => ZERO);
    for i := 0 to |cur| / 2
      invariant forall k :: 0 <= k < i ==> next[k] == NodeHash(h, cur[2 * k], cur[2 * k + 1])
    {
      next[i] := NodeHash(h, cur[2 * i], cur[2 * i + 1]);
    }
    up := next[..];
  }

  // Level by level: what the levels of a tree and the entries of an audit path are.

  /** LevelAt, one level at a time. */
  lemma LevelAtStep(h: HashFn, level: seq<Hash>, d: nat, k: nat)
    requires |level| == Pow2(d) && k < d
    ensures LevelAt(h, level, d, 0) == level
    ensures LevelAt(h, level, d, k + 1) == Up(h, LevelAt(h, level, d, k))
  {
    hide Up, Pow2;
  }

  lemma {:induction false} LevelAtUp(h: HashFn, level: seq<Hash>, d: nat, k: nat)
    requires |level| == Pow2(d) && k < d
    ensures |Up(h, level)| == Pow2(d - 1)
    ensures LevelAt(h, Up(h, level), d - 1, k) == LevelAt(h, level, d, k + 1)
  {
    hide *;
    UpSize(h, level, d);
    LevelAtStep(h, level, d, k);
    if k == 0 {
      LevelsFacts(h, Up(h, level), d - 1);
    } else {
      LevelAtUp(h, level, d, k - 1);
      LevelAtStep(h, Up(h, level), d - 1, k - 1);
    }
  }

  lemma LevelsFacts(h: HashFn, level: seq<Hash>, d: nat)
    requires |level| == Pow2(d)
    ensures LevelAt(h, level, d, 0) == level
    ensures d == 0 ==> Levels(h, level) == [level]
    ensures d > 0 ==> |Up(h, level)| == Pow2(d - 1) && Levels(h, level) == [level] + Levels(h, Up(h, level))
  {
    if d > 0 {
      UpSize(h, level, d);
      LevelsUnfold(h, level);
    }
  }

  lemma {:induction false} LevelsAt(h: HashFn, level: seq<Hash>, d: nat, k: nat)
    requires |level| == Pow2(d) && k <= d
    ensures |Levels(h, level)| == d + 1 && Levels(h, level)[k] == LevelAt(h, level, d, k)
    decreases d
  {
    hide *;
    LevelsFacts(h, level, d);
    if d == 0 {
    } else {
      LevelsAt(h, Up(h, level), d - 1, if k > 0 then k - 1 else 0);
      if k > 0 { LevelAtUp(h, level, d, k - 1); }
    }
  }

  lemma {:induction false} AuditPathAt(h: HashFn, level: seq<Hash>, d: nat, idx: nat, k: nat)
    requires |level| == Pow2(d) && idx < |level| && k < d
    ensures Shift(idx, k) < Pow2(d - k) && Sibling(Shift(idx, k)) < Pow2(d - k)
    ensures AuditPath(h, level, d, idx)[k] == LevelAt(h, level, d, k)[Sibling(Shift(idx, k))]
    decreases d
  {
    hide *;
    LevelsFacts(h, level, d);
    UpAt(h, level, d, idx);
    PathStep(h, level, d, idx);
    ShiftZero(idx);
    if k == 0 {
    } else {
      AuditPathAt(h, Up(h, level), d - 1, idx / 2, k - 1);
      ShiftHalf(idx, k - 1);
      LevelAtUp(h, level, d, k - 1);
    }
  }

  lemma ShiftZero(idx: nat)
    ensures Shift(idx, 0) == idx
  {
  }

  lemma ShiftOnce(idx: nat, k: nat)
    ensures Shift(idx, k) / 2 == Shift(idx, k + 1)
  {
  }

  /** Entry k of the honest path is the sibling, on level k, of the position the climb has reached. */
  lemma HonestAt(h: HashFn, base: seq<Hash>, d: nat, index: nat, k: nat)
    requires |base| == Pow2(d) && index < |base| && k < d
    ensures |Levels(h, base)| == d + 1 && Sibling(Shift(index, k)) < |Levels(h, base)[k]|
    ensures AuditPath(h, base, d, index)[k] == Levels(h, base)[k][Sibling(Shift(index, k))]
  {
    hide *;
    LevelsAt(h, base, d, k);
    AuditPathAt(h, base, d, index, k);
  }

  lemma HonestPath(h: HashFn, domain: string, leaves: seq<bytes>, t: Tree, index: nat) returns (honest: seq<Hash>)
    requires t.Of(h, domain, leaves) && index < |leaves|
    ensures IsHonest(h, domain, leaves, leaves[index], index, honest)
    ensures |honest| == Depth(|leaves|) == |t.levels| - 1 && Shift(index, 0) == index
    ensures forall k: nat :: k < |honest| ==>
              Sibling(Shift(index, k)) < |t.levels[k]| && honest[k] == t.levels[k][Sibling(Shift(index, k))]
  {
    hide AuditPath, Levels, Pow2, Base, PaddingLeaf, Depth, Sibling, Shift;
    var base, d := Base(h, domain, leaves), Depth(|leaves|);
    DepthIsCeilLog2(|leaves|);
    honest := AuditPath(h, base, d, index);
    LevelsAt(h, base, d, 0);
    ShiftZero(index);
    forall k: nat | k < d
      ensures Sibling(Shift(index, k)) < |Levels(h, base)[k]|
      ensures AuditPath(h, base, d, index)[k] == Levels(h, base)[k][Sibling(Shift(index, k))]
    {
      HonestAt(h, base, d, index, k);
    }
  }

  method InclusionProof(h: HashFn, ghost domain: string, ghost leaves: seq<bytes>, t: Tree, index: int)
    returns (r: Option<seq<Hash>>)
    requires t.Of(h, domain, leaves)
    ensures r.None? <==> index < 0 || index >= |leaves|
    ensures r.Some? ==> IsHonest(h, domain, leaves, leaves[index], index, r.value)
  {
    if index < 0 || index >= t.n {
      return None;
    }
    ghost var d := Depth(|leaves|);
    ghost var honest := HonestPath(h, domain, leaves, t, index);
    hide *;
    var path: seq<Hash> := [];
    var idx := index;
    var lvl := 0;
    while lvl < |t.levels| - 1
      invariant 0 <= lvl <= d && idx == Shift(index, lvl)
      invariant path == honest[..lvl]
    {
      path := path + [t.levels[lvl][Sibling(idx)]];
      ShiftOnce(index, lvl);
      idx := idx / 2;
      lvl := lvl + 1;
    }
    r := Some(path);
  }

  /** The last level of a tree holds its root. */
  lemma {:induction false} RootIsRoot(h: HashFn, domain: string, leaves: seq<bytes>, t: Tree)
    requires t.Of(h, domain, leaves)
    ensures |t.levels| > 0 && |t.levels[|t.levels| - 1]| > 0
    ensures t.Root() == TreeRoot(h, domain, leaves)
  {
    var base, d := Base(h, domain, leaves), Depth(|leaves|);
    LevelsAt(h, base, d, d);
    LevelAtRoot(h, base, d, d);
  }

  method VerifyInclusionProof(h: HashFn, leafData: bytes, index: int, size: int, path: seq<Hash>, root: Hash)
    returns (ok: bool)
    requires 0 <= index < size ==> size <= MAX_LEAVES
    ensures ok == Accepts(h, leafData, index, size, path, root)
  {
    if index < 0 || index >= size {
      return false;
    }
    var depth := 0;
    var p := NextPowerOfTwo(size);
    while p > 1
      invariant 0 <= depth <= Depth(size) && p == Pow2(Depth(size) - depth)
      decreases p
    {
      depth := depth + 1;
      p := p / 2;
    }
    if |path| != depth {
      return false;
    }
    var x: Hash := LeafHash(h, leafData);
    var idx := index;
    for k := 0 to |path|
      invariant idx >= 0
      invariant Climb(h, x, idx, path[k..]) == Climb(h, LeafHash(h, leafData), index, path)
    {
      x := if idx % 2 == 0 then NodeHash(h, x, path[k]) else NodeHash(h, path[k], x);
      assert path[k..][0] == path[k] && path[k..][1..] == path[k + 1..];
      idx := idx / 2;
    }
    ok := x == root;
  }
}
