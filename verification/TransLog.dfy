/**
 The identity transparency log (translog/log.go, sth.go, client.go): an append-only list of key registrations whose
 published heads commit to prefixes of it.
 */
module TransLog {
  import opened Wrappers
  import opened Bytes
  import opened Identity
  import opened Merkle

  const MERKLE_DOMAIN := "translog"

  /** User names are byte strings, as Go's are. */
  datatype Entry = Entry(index: int, userId: bytes, publicKey: PublicKey, timestamp: int)

  /** The same registration, whenever it was made. */
  predicate SameBinding(a: Entry, b: Entry) {
    a.userId == b.userId && a.index == b.index && a.publicKey == b.publicKey
  }

  function LeafData(e: Entry): bytes {
    PutU32(|e.userId|) + (e.userId + (PutU32(e.index) + e.publicKey.Marshal()))
  }

  datatype TreeHead = TreeHead(treeSize: int, root: Hash, timestamp: int, operator: PublicKey, signature: Signature)

  function SigningBytes(treeSize: int, root: Hash, timestamp: int): bytes {
    PutU32(treeSize) + root.raw + PutU64(timestamp)
  }

  function SignTreeHead(operator: PublicKey, treeSize: int, root: Hash, now: int): TreeHead {
    TreeHead(treeSize, root, now, operator, Sign(operator, SigningBytes(treeSize, root, now)))
  }

  predicate VerifySTH(sth: TreeHead) {
    Verify(sth.operator, SigningBytes(sth.treeSize, sth.root, sth.timestamp), sth.signature)
  }

  /**
   A signed head verifies with what was signed and nothing else, but for the high bits of the size and of the time.
   */
  lemma {:induction false} HeadSignedExactly(operator: PublicKey, treeSize: int, root: Hash, now: int, sth: TreeHead)
    requires sth.signature == SignTreeHead(operator, treeSize, root, now).signature
    ensures VerifySTH(sth)
       <==> && sth.operator == operator && sth.root == root
            && sth.treeSize % U32 == treeSize % U32 && sth.timestamp % U64 == now % U64
  {
    hide PutU32, PutU64;
    PutU32Injective(sth.treeSize, treeSize);
    PutU64Injective(sth.timestamp, now);
    if VerifySTH(sth) {
      var a, b := PutU32(sth.treeSize), PutU32(treeSize);
      ConcatInjective(a + sth.root.raw, PutU64(sth.timestamp), b + root.raw, PutU64(now));
      ConcatInjective(a, sth.root.raw, b, root.raw);
    }
  }

  predicate VerifyInclusion(h: HashFn, sth: TreeHead, entry: Entry, proof: seq<Hash>) {
    Accepts(h, LeafData(entry), entry.index, sth.treeSize, proof, sth.root)
  }

  function Leaves(entries: seq<Entry>): (ls: seq<bytes>)
    ensures |ls| == |entries|
  {
    seq(|entries|, i requires 0 <= i < |entries| => LeafData(entries[i]))
  }

  function EntriesRoot(h: HashFn, entries: seq<Entry>): Hash {
    TreeRoot(h, MERKLE_DOMAIN, Leaves(entries))
  }

  // ---------------------------------------------------------------- leaf data

  /** Two registrations with the same leaf data agree on user, key and the low 32 bits of the index. */
  lemma {:induction false} LeafDataInjective(a: Entry, b: Entry)
    requires LeafData(a) == LeafData(b)
    ensures a.userId == b.userId && a.publicKey == b.publicKey && a.index % U32 == b.index % U32
  {
    var ra, rb := PutU32(a.index) + a.publicKey.Marshal(), PutU32(b.index) + b.publicKey.Marshal();
    hide PutU32;
    ConcatInjective(PutU32(|a.userId|), a.userId + ra, PutU32(|b.userId|), b.userId + rb);
    ConcatInjective(a.userId, ra, b.userId, rb);
    ConcatInjective(PutU32(a.index), a.publicKey.Marshal(), PutU32(b.index), b.publicKey.Marshal());
    MarshalInjective(a.publicKey, b.publicKey);
    PutU32Injective(a.index, b.index);
  }

  /** No registration is encoded as a padding leaf: it is longer than any of them. */
  lemma {:induction false} LeafIsNoPadding(e: Entry, i: nat)
    requires i < MAX_LEAVES
    ensures LeafData(e) != PaddingLeaf(MERKLE_DOMAIN, i)
  {
    Pow10Of19();
    DecimalLength(i, 19);
    hide PutU32, Decimal;
    assert |LeafData(e)| >= 8 + MARSHALLED_SIZE;
  }

  /** Logs with equal roots hold the same registrations in the same order, or a collision of the hash is at hand. */
  lemma {:induction false} EqualRootsEqualLogs(h: HashFn, a: seq<Entry>, b: seq<Entry>)
    requires |a| <= MAX_LEAVES && |b| <= MAX_LEAVES
    requires (forall i :: 0 <= i < |a| ==> a[i].index == i) && (forall i :: 0 <= i < |b| ==> b[i].index == i)
    requires EntriesRoot(h, a) == EntriesRoot(h, b)
    ensures
      || (|a| == |b| && forall i :: 0 <= i < |a| ==> SameBinding(a[i], b[i]))
      || Collision(h, RootClash(h, MERKLE_DOMAIN, Leaves(a), MERKLE_DOMAIN, Leaves(b)))
  {
    hide LeafData, PaddingLeaf, RootClash, Collision, TreeRoot, Padded;
    var la, lb := Leaves(a), Leaves(b);
    RootBinding(h, MERKLE_DOMAIN, la, MERKLE_DOMAIN, lb);
    if Padded(MERKLE_DOMAIN, la) == Padded(MERKLE_DOMAIN, lb) {
      forall i | 0 <= i < |la| ensures la[i] != PaddingLeaf(MERKLE_DOMAIN, i) { LeafIsNoPadding(a[i], i); }
      forall i | 0 <= i < |lb| ensures lb[i] != PaddingLeaf(MERKLE_DOMAIN, i) { LeafIsNoPadding(b[i], i); }
      PaddedInjective(MERKLE_DOMAIN, la, lb);
      forall i | 0 <= i < |a|
        ensures SameBinding(a[i], b[i])
      {
        assert la[i] == LeafData(a[i]) && lb[i] == LeafData(b[i]);
        LeafDataInjective(a[i], b[i]);
      }
    }
  }

  // ---------------------------------------------------------------- the log as a value

  /** A log server's state, and every head it has ever published. */
  datatype Log = Log(
    operator: PublicKey,
    entries: seq<Entry>,
    latestByUser: map<bytes, nat>,
    currentSTH: Option<TreeHead>,
    published: seq<TreeHead>
  )

  function EmptyLog(operator: PublicKey): Log {
    Log(operator, [], map[], None, [])
  }

  datatype LogEvent = Append(userId: bytes, publicKey: PublicKey, now: int) | Publish(now: int)

  function NewHead(h: HashFn, l: Log, now: int): TreeHead {
    SignTreeHead(l.operator, |l.entries|, EntriesRoot(h, l.entries), now)
  }

  function LogStep(h: HashFn, l: Log, ev: LogEvent): Log {
    match ev
    case Append(u, k, now) =>
      l.(entries := l.entries + [Entry(|l.entries|, u, k, now)], latestByUser := l.latestByUser[u := |l.entries|])
    case Publish(now) =>
      l.(currentSTH := Some(NewHead(h, l, now)), published := l.published + [NewHead(h, l, now)])
  }

  function LogRun(h: HashFn, l: Log, evs: seq<LogEvent>): Log
    decreases |evs|
  {
    if evs == [] then l else LogRun(h, LogStep(h, l, evs[0]), evs[1..])
  }

  /** The index of the user's last registration, found by scanning the whole list. */
  function LastMatch(entries: seq<Entry>, userId: bytes): (r: Option<nat>)
    ensures r.Some? ==> r.value < |entries| && entries[r.value].userId == userId
    ensures forall i :: 0 <= i < |entries| && entries[i].userId == userId ==> r.Some? && i <= r.value
  {
    if entries == [] then None
    else if entries[|entries| - 1].userId == userId then Some(|entries| - 1)
    else LastMatch(entries[..|entries| - 1], userId)
  }

  /** The head is validly signed by the operator and commits to a prefix of the entries. */
  ghost predicate Committed(h: HashFn, l: Log, sth: TreeHead) {
    && 0 <= sth.treeSize <= |l.entries|
    && sth.root == EntriesRoot(h, l.entries[..sth.treeSize])
    && sth.operator == l.operator && VerifySTH(sth)
  }

  /** The user index agrees with a scan of the list. */
  ghost predicate IndexInv(l: Log) {
    && (forall u :: u in l.latestByUser <==> LastMatch(l.entries, u).Some?)
    && (forall u :: u in l.latestByUser ==> LastMatch(l.entries, u) == Some(l.latestByUser[u]))
  }

  ghost predicate LogInv(h: HashFn, l: Log) {
    && (forall i :: 0 <= i < |l.entries| ==> l.entries[i].index == i)
    && IndexInv(l)
    && (forall k :: 0 <= k < |l.published| ==> Committed(h, l, l.published[k]))
    && (if l.published == [] then l.currentSTH.None? else l.currentSTH == Some(l.published[|l.published| - 1]))
  }

  lemma AppendKeepsCommitted(h: HashFn, l: Log, l': Log, sth: TreeHead)
    requires Committed(h, l, sth) && l'.operator == l.operator && l.entries <= l'.entries
    ensures Committed(h, l', sth)
  {
    hide EntriesRoot, VerifySTH;
    assert l'.entries[..sth.treeSize] == l.entries[..sth.treeSize];
  }

  lemma NewHeadCommitted(h: HashFn, l: Log, now: int)
    ensures Committed(h, l, NewHead(h, l, now))
  {
    hide EntriesRoot, SigningBytes;
    assert l.entries[..|l.entries|] == l.entries;
  }

  lemma AppendKeepsIndex(l: Log, e: Entry, l': Log)
    requires IndexInv(l)
    requires l'.entries == l.entries + [e] && l'.latestByUser == l.latestByUser[e.userId := |l.entries|]
    ensures IndexInv(l')
  {
    assert l'.entries[..|l.entries|] == l.entries;
  }

  lemma LogStepKeeps(h: HashFn, l: Log, ev: LogEvent)
    requires LogInv(h, l)
    ensures LogInv(h, LogStep(h, l, ev))
  {
    hide Committed, NewHead, LastMatch;
    var l' := LogStep(h, l, ev);
    forall i | 0 <= i < |l.published|
      ensures Committed(h, l', l.published[i])
    {
      AppendKeepsCommitted(h, l, l', l.published[i]);
    }
    match ev
    case Append(u, k, now) => AppendKeepsIndex(l, Entry(|l.entries|, u, k, now), l');
    case Publish(now) =>
      NewHeadCommitted(h, l, now);
      AppendKeepsCommitted(h, l, l', NewHead(h, l, now));
  }

  /** After any run the heads commit to prefixes, and the index agrees with a last-match scan. */
  lemma {:induction false} LogRunKeeps(h: HashFn, l: Log, evs: seq<LogEvent>)
    requires LogInv(h, l)
    ensures LogInv(h, LogRun(h, l, evs))
    decreases |evs|
  {
    if evs == [] {
    } else {
      LogStepKeeps(h, l, evs[0]);
      LogRunKeeps(h, LogStep(h, l, evs[0]), evs[1..]);
    }
  }

  /** The registrations of a run, in order. */
  function Appends(evs: seq<LogEvent>): seq<LogEvent> {
    if evs == [] then [] else (if evs[0].Append? then [evs[0]] else []) + Appends(evs[1..])
  }

  /** The publications of a run that starts at n entries, in order: how many entries there were, and when. */
  function Publications(evs: seq<LogEvent>, n: nat): seq<(nat, int)> {
    if evs == [] then []
    else if evs[0].Append? then Publications(evs[1..], n + 1)
    else [(n, evs[0].now)] + Publications(evs[1..], n)
  }

  /** Entry i of a log that has recorded these registrations. */
  predicate Recorded(e: Entry, i: nat, ev: LogEvent) {
    ev.Append? && e == Entry(i, ev.userId, ev.publicKey, ev.now)
  }

  /** l' has the entries of l, and then these registrations. */
  predicate Registered(l: Log, a: seq<LogEvent>, l': Log) {
    && |l'.entries| == |l.entries| + |a|
    && (forall i :: 0 <= i < |l.entries| ==> l'.entries[i] == l.entries[i])
    && forall i :: 0 <= i < |a| ==> Recorded(l'.entries[|l.entries| + i], |l.entries| + i, a[i])
  }

  /** l' has the heads of l, and then one for each of these publications. */
  predicate Headed(l: Log, p: seq<(nat, int)>, l': Log) {
    && |l'.published| == |l.published| + |p|
    && (forall k :: 0 <= k < |l.published| ==> l'.published[k] == l.published[k])
    && forall k :: 0 <= k < |p| ==>
         var sth := l'.published[|l.published| + k]; sth.treeSize == p[k].0 && sth.timestamp == p[k].1
  }

  lemma RegisteredNext(l: Log, ev: LogEvent, l1: Log, a: seq<LogEvent>, l': Log)
    requires |l1.entries| == |l.entries| + 1 && l1.entries[..|l.entries|] == l.entries
    requires Recorded(l1.entries[|l.entries|], |l.entries|, ev) && Registered(l1, a, l')
    ensures Registered(l, [ev] + a, l')
  {
    forall i | 0 <= i < |[ev] + a|
      ensures Recorded(l'.entries[|l.entries| + i], |l.entries| + i, ([ev] + a)[i])
    {
      assert i > 0 ==> Recorded(l'.entries[|l1.entries| + (i - 1)], |l1.entries| + (i - 1), a[i - 1]);
    }
    forall i | 0 <= i < |l.entries|
      ensures l'.entries[i] == l.entries[i]
    {
      assert l1.entries[i] == l1.entries[..|l.entries|][i];
    }
  }

  lemma HeadedNext(l: Log, head: (nat, int), l1: Log, p: seq<(nat, int)>, l': Log)
    requires |l1.published| == |l.published| + 1 && l1.published[..|l.published|] == l.published
    requires var sth := l1.published[|l.published|]; sth.treeSize == head.0 && sth.timestamp == head.1
    requires Headed(l1, p, l')
    ensures Headed(l, [head] + p, l')
  {
    forall k | 0 <= k < |[head] + p|
      ensures var sth := l'.published[|l.published| + k];
        sth.treeSize == ([head] + p)[k].0 && sth.timestamp == ([head] + p)[k].1
    {
      assert k > 0 ==> l'.published[|l1.published| + (k - 1)].treeSize == p[k - 1].0;
    }
    forall k | 0 <= k < |l.published|
      ensures l'.published[k] == l.published[k]
    {
      assert l1.published[k] == l1.published[..|l.published|][k];
    }
  }

  /**
   A log is the history of its run and nothing else: the i-th registration is entry i, with its user, key and time, and
   the k-th publication is head k, with its time and the number of registrations before it.
   */
  lemma {:induction false} LogIsHistory(h: HashFn, l: Log, evs: seq<LogEvent>)
    ensures Registered(l, Appends(evs), LogRun(h, l, evs))
    ensures Headed(l, Publications(evs, |l.entries|), LogRun(h, l, evs))
    decreases |evs|
  {
    if evs == [] {
    } else {
      hide EntriesRoot, SigningBytes, Registered, Headed;
      var l1, l' := LogStep(h, l, evs[0]), LogRun(h, l, evs);
      LogIsHistory(h, l1, evs[1..]);
      if evs[0].Append? {
        RegisteredNext(l, evs[0], l1, Appends(evs[1..]), l');
        SameHeads(l, l1, Publications(evs[1..], |l1.entries|), l');
      } else {
        HeadedNext(l, (|l.entries|, evs[0].now), l1, Publications(evs[1..], |l.entries|), l');
        SameEntries(l, l1, Appends(evs[1..]), l');
      }
    }
  }

  lemma SameHeads(l: Log, l1: Log, p: seq<(nat, int)>, l': Log)
    requires l1.published == l.published && Headed(l1, p, l')
    ensures Headed(l, p, l')
  {
  }

  lemma SameEntries(l: Log, l1: Log, a: seq<LogEvent>, l': Log)
    requires l1.entries == l.entries && Registered(l1, a, l')
    ensures Registered(l, [] + a, l')
  {
    assert [] + a == a;
  }

  ghost predicate HonestLog(h: HashFn, l: Log) {
    exists operator: PublicKey, evs: seq<LogEvent> :: l == LogRun(h, EmptyLog(operator), evs)
  }

  lemma HonestLogInv(h: HashFn, l: Log)
    requires HonestLog(h, l)
    ensures LogInv(h, l)
  {
    var operator: PublicKey, evs: seq<LogEvent> :| l == LogRun(h, EmptyLog(operator), evs);
    LogRunKeeps(h, EmptyLog(operator), evs);
  }

  lemma {:induction false} LogRunConcat(h: HashFn, l: Log, a: seq<LogEvent>, b: seq<LogEvent>)
    ensures LogRun(h, l, a + b) == LogRun(h, LogRun(h, l, a), b)
    decreases |a|
  {
    if a == [] {
      assert a + b == b;
    } else {
      assert (a + b)[1..] == a[1..] + b;
      LogRunConcat(h, LogStep(h, l, a[0]), a[1..], b);
    }
  }

  /** A run of n registrations, whoever they are for. */
  lemma {:induction false} AppendMany(h: HashFn, l: Log, key: PublicKey, n: nat) returns (evs: seq<LogEvent>)
    ensures var l' := LogRun(h, l, evs);
      |l'.entries| == |l.entries| + n && l'.published == l.published && l'.operator == l.operator
    decreases n
  {
    evs := [];
    if n == 0 {
    } else {
      var first := Append([], key, 0);
      var rest := AppendMany(h, LogStep(h, l, first), key, n - 1);
      evs := [first] + rest;
      assert evs[1..] == rest;
    }
  }

  /** Heads of the same size that one honest log ever published carry the same root. */
  lemma {:induction false} HonestHeadsAgree(h: HashFn, l: Log, i: nat, j: nat)
    requires HonestLog(h, l) && i < |l.published| && j < |l.published|
    requires l.published[i].treeSize == l.published[j].treeSize
    ensures l.published[i].root == l.published[j].root
  {
    HonestLogInv(h, l);
    assert Committed(h, l, l.published[i]) && Committed(h, l, l.published[j]);
  }

  /** What a head's proof can show: the registration logged at that index, or else a collision. */
  lemma {:induction false} AcceptedIsLogged(h: HashFn, l: Log, sth: TreeHead, e: Entry, proof: seq<Hash>)
    requires LogInv(h, l) && Committed(h, l, sth) && VerifyInclusion(h, sth, e, proof)
    ensures 0 <= e.index < |l.entries| && e.index < Pow2(|proof|)
    ensures SameBinding(e, l.entries[e.index])
         || Collision(h, ProofClash(h, MERKLE_DOMAIN, Leaves(l.entries[..sth.treeSize]), LeafData(e), e.index, proof))
  {
    var prefix := l.entries[..sth.treeSize];
    var leaves := Leaves(prefix);
    hide LeafData, PaddingLeaf, ProofClash, Collision, TreeRoot, Climb, AuditPath, VerifySTH, LastMatch;
    Soundness(h, MERKLE_DOMAIN, leaves, LeafData(e), e.index, sth.treeSize, proof);
    if IsHonest(h, MERKLE_DOMAIN, leaves, LeafData(e), e.index, proof) {
      assert LeafData(e) == leaves[e.index] == LeafData(l.entries[e.index]);
      LeafDataInjective(e, l.entries[e.index]);
    }
  }

  /**
   Append-only across epochs: two registrations accepted at the same index, under any two heads an honest log ever
   published, are the same registration, or one of the two proofs yields a collision of the hash.
   */
  lemma {:induction false} AppendOnly(h: HashFn, l: Log, i: nat, j: nat, a: Entry, pa: seq<Hash>, b: Entry,
                                      pb: seq<Hash>)
    requires HonestLog(h, l) && i < |l.published| && j < |l.published| && a.index == b.index
    requires VerifyInclusion(h, l.published[i], a, pa) && VerifyInclusion(h, l.published[j], b, pb)
    ensures 0 <= a.index < Pow2(|pa|) && b.index < Pow2(|pb|)
    ensures 0 <= l.published[i].treeSize <= |l.entries| && 0 <= l.published[j].treeSize <= |l.entries|
    ensures
      || SameBinding(a, b)
      || Collision(h, ProofClash(h, MERKLE_DOMAIN, Leaves(l.entries[..l.published[i].treeSize]), LeafData(a),
                                 a.index, pa))
      || Collision(h, ProofClash(h, MERKLE_DOMAIN, Leaves(l.entries[..l.published[j].treeSize]), LeafData(b),
                                 b.index, pb))
  {
    HonestLogInv(h, l);
    assert Committed(h, l, l.published[i]) && Committed(h, l, l.published[j]);
    hide LogInv, HonestLog, VerifyInclusion, ProofClash, Collision, LeafData, EntriesRoot, VerifySTH;
    AcceptedIsLogged(h, l, l.published[i], a, pa);
    AcceptedIsLogged(h, l, l.published[j], b, pb);
  }

  // ---------------------------------------------------------------- the server object

  datatype LogError = NoSTHPublished | UnknownIndex

  lemma PrefixLeaves(entries: seq<Entry>, n: nat, i: nat)
    requires i < n <= |entries|
    ensures Leaves(entries[..n])[i] == LeafData(entries[i])
  {
    hide LeafData;
  }

  class Server {
    const operator: PublicKey
    var entries: seq<Entry>
    var latestByUser: map<bytes, nat>
    var currentSTH: Option<TreeHead>
    ghost var published: seq<TreeHead>

    ghost function View(): Log
      reads this
    {
      Log(operator, entries, latestByUser, currentSTH, published)
    }

    constructor (operator: PublicKey)
      ensures View() == EmptyLog(operator)
    {
      this.operator := operator;
      entries, latestByUser, currentSTH, published := [], map[], None, [];
    }

    method Append(userId: bytes, pub: PublicKey, now: int) returns (idx: nat)
      modifies this
      ensures idx == |old(entries)|
      ensures forall h: HashFn :: View() == LogStep(h, old(View()), LogEvent.Append(userId, pub, now))
    {
      idx := |entries|;
      entries := entries + [Entry(idx, userId, pub, now)];
      latestByUser := latestByUser[userId := idx];
    }

    method PublishSTH(h: HashFn, now: int) returns (sth: TreeHead)
      requires |entries| <= MAX_LEAVES
      modifies this`currentSTH, this`published
      ensures View() == LogStep(h, old(View()), Publish(now)) && currentSTH == Some(sth)
    {
      var leaves := LeafList(|entries|);
      var t := BuildTree(h, MERKLE_DOMAIN, leaves);
      RootIsRoot(h, MERKLE_DOMAIN, leaves, t);
      assert entries[..|entries|] == entries;
      sth := SignTreeHead(operator, |entries|, t.Root(), now);
      currentSTH := Some(sth);
      published := published + [sth];
    }

    /** The leaf data of the first n entries. */
    method LeafList(n: nat) returns (leaves: seq<bytes>)
      requires n <= |entries|
      ensures leaves == Leaves(entries[..n])
    {
      var out := new bytes[n](_ => []);
      for i := 0 to n
        invariant forall k :: 0 <= k < i ==> out[k] == LeafData(entries[k])
      {
        out[i] := LeafData(entries[i]);
      }
      leaves := out[..];
    }

    method LatestEntryForUser(userId: bytes) returns (r: Option<Entry>)
      requires IndexInv(View())
      ensures r == (var m := LastMatch(entries, userId); if m.Some? then Some(entries[m.value]) else None)
    {
      if userId !in latestByUser {
        return None;
      }
      r := Some(entries[latestByUser[userId]]);
    }

    /** The entry, its proof and the current head; the proof verifies however many entries were appended since. */
    method InclusionProof(h: HashFn, index: int) returns (r: Result<(Entry, seq<Hash>, TreeHead), LogError>)
      requires LogInv(h, View()) && |entries| <= MAX_LEAVES
      ensures currentSTH.None? ==> r == Failure(NoSTHPublished)
      ensures currentSTH.Some? && !(0 <= index < currentSTH.value.treeSize) ==> r == Failure(UnknownIndex)
      ensures currentSTH.Some? && 0 <= index < currentSTH.value.treeSize ==>
                && r.Success? && index < |entries| && r.value.0 == entries[index] && currentSTH == Some(r.value.2)
                && VerifyInclusion(h, r.value.2, r.value.0, r.value.1)
    {
      if currentSTH.None? {
        return Failure(NoSTHPublished);
      }
      var sth := currentSTH.value;
      assert Committed(h, View(), sth) && (forall i :: 0 <= i < |entries| ==> entries[i].index == i);
      hide LogInv, LeafData, VerifySTH, Accepts;
      if index < 0 || index >= sth.treeSize {
        return Failure(UnknownIndex);
      }
      var leaves := LeafList(sth.treeSize);
      var t := BuildTree(h, MERKLE_DOMAIN, leaves);
      var proof := Merkle.InclusionProof(h, MERKLE_DOMAIN, leaves, t, index);
      Completeness(h, MERKLE_DOMAIN, leaves, index);
      PrefixLeaves(entries, sth.treeSize, index);
      r := Success((entries[index], proof.value, sth));
    }
  }
}
