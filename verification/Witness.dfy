/**
 Gossip between clients of the log (translog/witness.go): each keeps the first head it saw of every size, and two
 different roots for one size are evidence against the operator.
 */
module Witness {
  import opened Wrappers
  import opened Bytes
  import opened Identity
  import opened Merkle
  import opened TransLog

  datatype Evidence = Evidence(a: TreeHead, b: TreeHead)

  datatype EvidenceError =
    | TreeSizeMismatch
    | SameRoot
    | InvalidSignature
    | OperatorMismatch
    | WrongOperator

  /** What is wrong with the evidence, if anything. */
  function VerifyEvidence(ev: Evidence, operator: PublicKey): Option<EvidenceError> {
    if ev.a.treeSize != ev.b.treeSize then Some(TreeSizeMismatch)
    else if ev.a.root == ev.b.root then Some(SameRoot)
    else if !VerifySTH(ev.a) then Some(InvalidSignature)
    else if !VerifySTH(ev.b) then Some(InvalidSignature)
    else if ev.a.operator != ev.b.operator then Some(OperatorMismatch)
    else if ev.a.operator != operator then Some(WrongOperator)
    else None
  }

  datatype ObserveError = UnexpectedOperator | BadSignature

  // ---------------------------------------------------------------- one view as a value

  datatype View = View(operator: PublicKey, seen: map<int, TreeHead>) {
    /** Everything remembered is filed under its size and was checked when it came in. */
    ghost predicate Valid() {
      forall k :: k in seen ==> seen[k].treeSize == k && seen[k].operator == operator && VerifySTH(seen[k])
    }

    predicate Holds(k: int, root: Hash) {
      k in seen && seen[k].root == root
    }
  }

  function Observed(v: View, sth: TreeHead): (View, Result<Option<Evidence>, ObserveError>) {
    if sth.operator != v.operator then (v, Failure(UnexpectedOperator))
    else if !VerifySTH(sth) then (v, Failure(BadSignature))
    else if sth.treeSize !in v.seen then (v.(seen := v.seen[sth.treeSize := sth]), Success(None))
    else if v.seen[sth.treeSize].root != sth.root then (v, Success(Some(Evidence(v.seen[sth.treeSize], sth))))
    else (v, Success(None))
  }

  /** Observing keeps the view valid, never changes what it holds, and yields only evidence that anyone can verify. */
  lemma {:induction false} ObserveSound(v: View, sth: TreeHead)
    requires v.Valid()
    ensures var (v', r) := Observed(v, sth);
      && v'.Valid() && v'.operator == v.operator
      && (forall k :: k in v.seen ==> k in v'.seen && v'.seen[k] == v.seen[k])
      && (forall k :: k in v'.seen && k !in v.seen ==> v'.seen[k] == sth)
      && (r.Success? && r.value.Some? ==> VerifyEvidence(r.value.value, v.operator) == None)
  {
    hide VerifySTH;
  }

  /** v's memory after it has been told everything that o remembers. */
  function Merge(v: View, o: View): View {
    if o.operator == v.operator then v.(seen := o.seen + v.seen) else v
  }

  /** The sizes at which o contradicts v. */
  function ConflictSizes(v: View, o: View): set<int> {
    if o.operator == v.operator then set k | k in v.seen && k in o.seen && v.seen[k].root != o.seen[k].root else {}
  }

  /** The evidence that v gathers from o: one piece for each size at which they disagree. */
  function Conflicts(v: View, o: View): set<Evidence> {
    set k | k in ConflictSizes(v, o) :: Evidence(v.seen[k], o.seen[k])
  }

  lemma MergeValid(v: View, o: View)
    requires v.Valid() && o.Valid()
    ensures Merge(v, o).Valid()
  {
    hide VerifySTH;
  }

  /** All evidence from gossip between valid views implicates the operator, and anyone can check it. */
  lemma {:induction false} EvidenceSound(v: View, o: View, ev: Evidence)
    requires v.Valid() && o.Valid() && ev in Conflicts(v, o)
    ensures VerifyEvidence(ev, v.operator) == None
  {
    hide VerifySTH;
  }

  /**
   Evidence passes against an operator exactly when both heads name it and its own key verifies both signatures, over
   two different roots at one size.
   */
  lemma {:induction false} EvidenceExactly(ev: Evidence, operator: PublicKey)
    ensures VerifyEvidence(ev, operator) == None
       <==> && ev.a.root != ev.b.root && ev.a.treeSize == ev.b.treeSize
            && ev.a.operator == operator == ev.b.operator
            && Verify(operator, SigningBytes(ev.a.treeSize, ev.a.root, ev.a.timestamp), ev.a.signature)
            && Verify(operator, SigningBytes(ev.a.treeSize, ev.b.root, ev.b.timestamp), ev.b.signature)
    ensures VerifyEvidence(ev, operator) == Some(WrongOperator)
       <==> operator != ev.a.operator && VerifyEvidence(ev, ev.a.operator) == None
  {
    hide Verify, SigningBytes;
  }

  /** One signature of somebody's among the two, whatever the heads say: nobody else can be accused with it. */
  lemma {:induction false} OnlyTheSignerAccused(ev: Evidence, operator: PublicKey, signer: PublicKey, msg: bytes)
    requires ev.a.signature == Sign(signer, msg) || ev.b.signature == Sign(signer, msg)
    requires VerifyEvidence(ev, operator) == None
    ensures operator == signer
  {
    hide SigningBytes;
    EvidenceExactly(ev, operator);
  }

  // ---------------------------------------------------------------- a population

  datatype ViewEvent = Fetch(client: nat, sth: TreeHead) | Gossip(i: nat, j: nat)

  predicate InRange(n: nat, ev: ViewEvent) {
    match ev
    case Fetch(c, _) => c < n
    case Gossip(i, j) => i < n && j < n
  }

  predicate Schedule(n: nat, evs: seq<ViewEvent>) {
    forall e :: 0 <= e < |evs| ==> InRange(n, evs[e])
  }

  function ViewStep(views: seq<View>, ev: ViewEvent): (r: seq<View>)
    requires InRange(|views|, ev)
    ensures |r| == |views|
  {
    match ev
    case Fetch(c, sth) => views[c := Observed(views[c], sth).0]
    case Gossip(i, j) => views[i := Merge(views[i], views[j])][j := Merge(views[j], views[i])]
  }

  /** The evidence that one event brings up, on either side. */
  function StepEvidence(views: seq<View>, ev: ViewEvent): set<Evidence>
    requires InRange(|views|, ev)
  {
    match ev
    case Fetch(c, sth) =>
      var r := Observed(views[c], sth).1;
      if r.Success? && r.value.Some? then {r.value.value} else {}
    case Gossip(i, j) => Conflicts(views[i], views[j]) + Conflicts(views[j], views[i])
  }

  /** All evidence that a schedule brings up. */
  function AllEvidence(views: seq<View>, evs: seq<ViewEvent>): set<Evidence>
    requires Schedule(|views|, evs)
    decreases |evs|
  {
    if evs == [] then {}
    else
      assert forall e :: 0 <= e < |evs| - 1 ==> evs[1..][e] == evs[e + 1];
      StepEvidence(views, evs[0]) + AllEvidence(ViewStep(views, evs[0]), evs[1..])
  }

  ghost predicate Population(views: seq<View>, operator: PublicKey) {
    forall c :: 0 <= c < |views| ==> views[c].Valid() && views[c].operator == operator
  }

  lemma StepPopulation(views: seq<View>, operator: PublicKey, ev: ViewEvent)
    requires Population(views, operator) && InRange(|views|, ev)
    ensures Population(ViewStep(views, ev), operator)
  {
    hide VerifySTH, VerifyEvidence, View.Valid;
    match ev
    case Fetch(c, sth) => ObserveSound(views[c], sth);
    case Gossip(i, j) =>
      MergeValid(views[i], views[j]);
      MergeValid(views[j], views[i]);
  }

  lemma ScheduleTail(n: nat, evs: seq<ViewEvent>)
    requires Schedule(n, evs) && evs != []
    ensures InRange(n, evs[0]) && Schedule(n, evs[1..])
  {
    forall e | 0 <= e < |evs[1..]| ensures InRange(n, evs[1..][e]) { assert InRange(n, evs[e + 1]); }
  }

  /** Whatever a schedule brings up, anyone can verify. */
  lemma {:induction false} AllEvidenceSound(views: seq<View>, operator: PublicKey, evs: seq<ViewEvent>, ev: Evidence)
    requires Population(views, operator) && Schedule(|views|, evs) && ev in AllEvidence(views, evs)
    ensures VerifyEvidence(ev, operator) == None
    decreases |evs|
  {
    hide VerifyEvidence, VerifySTH, View.Valid, Observed, Conflicts, ViewStep;
    ScheduleTail(|views|, evs);
    if ev in StepEvidence(views, evs[0]) {
      StepEvidenceSound(views, operator, evs[0], ev);
    } else {
      StepPopulation(views, operator, evs[0]);
      AllEvidenceSound(ViewStep(views, evs[0]), operator, evs[1..], ev);
    }
  }

  lemma StepEvidenceSound(views: seq<View>, operator: PublicKey, step: ViewEvent, ev: Evidence)
    requires Population(views, operator) && InRange(|views|, step) && ev in StepEvidence(views, step)
    ensures VerifyEvidence(ev, operator) == None
  {
    hide VerifyEvidence, VerifySTH, View.Valid, Conflicts;
    match step
    case Fetch(c, sth) => ObserveSound(views[c], sth);
    case Gossip(i, j) =>
      if ev in Conflicts(views[i], views[j]) {
        EvidenceSound(views[i], views[j], ev);
      } else {
        EvidenceSound(views[j], views[i], ev);
      }
  }

  // ---------------------------------------------------------------- detection

  /** The evidence that the meetings of a schedule bring up, leaving aside what fetches do. */
  function MeetingEvidence(views: seq<View>, evs: seq<ViewEvent>): set<Evidence>
    requires Schedule(|views|, evs)
    decreases |evs|
  {
    if evs == [] then {}
    else
      assert forall e :: 0 <= e < |evs| - 1 ==> evs[1..][e] == evs[e + 1];
      (if evs[0].Gossip? then StepEvidence(views, evs[0]) else {}) + MeetingEvidence(ViewStep(views, evs[0]), evs[1..])
  }

  lemma {:induction false} MeetingEvidenceIncluded(views: seq<View>, evs: seq<ViewEvent>)
    requires Schedule(|views|, evs)
    ensures MeetingEvidence(views, evs) <= AllEvidence(views, evs)
    decreases |evs|
  {
    hide StepEvidence, ViewStep;
    if evs == [] {
    } else {
      ScheduleTail(|views|, evs);
      MeetingEvidenceIncluded(ViewStep(views, evs[0]), evs[1..]);
    }
  }

  /** Some evidence about size k came up. */
  ghost predicate Detects(evidence: set<Evidence>, k: int) {
    exists ev :: ev in evidence && ev.a.treeSize == k
  }

  predicate Meets(ev: ViewEvent, a: nat, b: nat) {
    ev == Gossip(a, b) || ev == Gossip(b, a)
  }

  /** The meetings along a path of clients occur in order among the events; anything may happen in between. */
  predicate MeetAlong(evs: seq<ViewEvent>, path: seq<nat>)
    decreases |evs|
  {
    |path| <= 1
    || (evs != []
        && ((Meets(evs[0], path[0], path[1]) && MeetAlong(evs[1..], path[1..])) || MeetAlong(evs[1..], path)))
  }

  /** What a client holds it holds forever. */
  lemma StepRemembers(views: seq<View>, ev: ViewEvent, c: nat, k: int)
    requires InRange(|views|, ev) && c < |views| && k in views[c].seen
    ensures k in ViewStep(views, ev)[c].seen && ViewStep(views, ev)[c].seen[k] == views[c].seen[k]
  {
    hide VerifySTH;
  }

  /** When two clients of one log meet without evidence about size k, a root that one holds the other holds as well. */
  lemma MeetingSpreads(views: seq<View>, operator: PublicKey, ev: ViewEvent, a: nat, b: nat, k: int)
    requires Population(views, operator) && InRange(|views|, ev) && Meets(ev, a, b) && k in views[a].seen
    ensures a < |views| && b < |views|
    ensures Detects(StepEvidence(views, ev), k) || ViewStep(views, ev)[b].Holds(k, views[a].seen[k].root)
  {
    hide VerifySTH;
    if k in views[b].seen && views[a].seen[k].root != views[b].seen[k].root {
      var e := Evidence(views[a].seen[k], views[b].seen[k]);
      assert k in ConflictSizes(views[a], views[b]);
      assert e in Conflicts(views[a], views[b]);
      assert e in StepEvidence(views, ev);
    }
  }

  /**
   Split views are detected: if the two ends of a path hold different roots of size k, and the meetings along the path
   occur in order, then one of the schedule's meetings brings up evidence about size k. Other meetings and fetches may
   be interleaved at will.
   */
  lemma {:induction false} SplitDetected(views: seq<View>, operator: PublicKey, evs: seq<ViewEvent>, path: seq<nat>,
                                         k: int)
    requires Population(views, operator) && Schedule(|views|, evs) && MeetAlong(evs, path)
    requires |path| > 0 && path[0] < |views| && path[|path| - 1] < |views|
    requires k in views[path[0]].seen && k in views[path[|path| - 1]].seen
    requires views[path[0]].seen[k].root != views[path[|path| - 1]].seen[k].root
    ensures Detects(MeetingEvidence(views, evs), k)
    decreases |evs|
  {
    hide VerifySTH, VerifyEvidence, View.Valid, StepEvidence, ViewStep;
    ScheduleTail(|views|, evs);
    var a, z := path[0], path[|path| - 1];
    var views' := ViewStep(views, evs[0]);
    if evs[0].Gossip? && Detects(StepEvidence(views, evs[0]), k) {
      var e :| e in StepEvidence(views, evs[0]) && e.a.treeSize == k;
      assert e in MeetingEvidence(views, evs);
    } else {
      StepPopulation(views, operator, evs[0]);
      StepRemembers(views, evs[0], a, k);
      StepRemembers(views, evs[0], z, k);
      if MeetAlong(evs[1..], path) {
        SplitDetected(views', operator, evs[1..], path, k);
      } else {
        MeetingSpreads(views, operator, evs[0], a, path[1], k);
        SplitDetected(views', operator, evs[1..], path[1..], k);
      }
      var e :| e in MeetingEvidence(views', evs[1..]) && e.a.treeSize == k;
      assert e in MeetingEvidence(views, evs);
    }
  }

  /** One round in which every client gossips with the next, the last with the first. */
  function RingRound(n: nat): seq<ViewEvent> {
    seq(n, i requires 0 <= i < n => Gossip(i, if i + 1 == n then 0 else i + 1))
  }

  /** The clients from a to b. */
  function Arc(a: nat, b: nat): (path: seq<nat>)
    requires a <= b
    ensures |path| == b - a + 1 && path[0] == a && path[b - a] == b
  {
    seq(b - a + 1, t requires 0 <= t => a + t)
  }

  lemma {:induction false} ArcInRing(n: nat, a: nat, b: nat)
    requires a <= b < n
    ensures MeetAlong(RingRound(n)[a..], Arc(a, b))
    decreases b - a
  {
    var evs, path := RingRound(n)[a..], Arc(a, b);
    if a == b {
    } else {
      assert evs[1..] == RingRound(n)[a + 1..];
      assert path[1..] == Arc(a + 1, b);
      ArcInRing(n, a + 1, b);
      assert Meets(evs[0], path[0], path[1]);
    }
  }

  lemma {:induction false} MeetLater(evs: seq<ViewEvent>, i: nat, path: seq<nat>)
    requires i <= |evs| && MeetAlong(evs[i..], path)
    ensures MeetAlong(evs, path)
    decreases i
  {
    if i == 0 {
      assert evs[0..] == evs;
    } else {
      assert evs[1..][i - 1..] == evs[i..];
      MeetLater(evs[1..], i - 1, path);
    }
  }

  /** A single round of gossip around a ring detects every split, whatever the population. */
  lemma {:induction false} OneRingRoundSuffices(views: seq<View>, operator: PublicKey, a: nat, b: nat, k: int)
    requires Population(views, operator) && a < b < |views|
    requires k in views[a].seen && k in views[b].seen && views[a].seen[k].root != views[b].seen[k].root
    ensures Schedule(|views|, RingRound(|views|))
    ensures Detects(MeetingEvidence(views, RingRound(|views|)), k)
  {
    hide VerifySTH, View.Valid, MeetAlong;
    var n := |views|;
    ArcInRing(n, a, b);
    MeetLater(RingRound(n), a, Arc(a, b));
    SplitDetected(views, operator, RingRound(n), Arc(a, b), k);
  }

  // ---------------------------------------------------------------- honest logs are never accused

  /** No two of these heads contradict each other. */
  ghost predicate Agreeing(heads: set<TreeHead>) {
    forall a, b :: a in heads && b in heads && a.treeSize == b.treeSize ==> a.root == b.root
  }

  /** Every head in the views, or fetched by the schedule, is one of these. */
  ghost predicate DrawnFrom(views: seq<View>, evs: seq<ViewEvent>, heads: set<TreeHead>) {
    && (forall c, k :: 0 <= c < |views| && k in views[c].seen ==> views[c].seen[k] in heads)
    && (forall e :: 0 <= e < |evs| && evs[e].Fetch? ==> evs[e].sth in heads)
  }

  lemma StepDrawnFrom(views: seq<View>, evs: seq<ViewEvent>, heads: set<TreeHead>)
    requires Schedule(|views|, evs) && evs != [] && InRange(|views|, evs[0]) && DrawnFrom(views, evs, heads)
    ensures DrawnFrom(ViewStep(views, evs[0]), evs[1..], heads)
  {
    hide VerifySTH;
    forall e | 0 <= e < |evs[1..]| && evs[1..][e].Fetch? ensures evs[1..][e].sth in heads { assert evs[e + 1].Fetch?; }
  }

  lemma NoConflict(v: View, o: View, heads: set<TreeHead>)
    requires v.Valid() && o.Valid() && Agreeing(heads)
    requires (forall k :: k in v.seen ==> v.seen[k] in heads) && (forall k :: k in o.seen ==> o.seen[k] in heads)
    ensures Conflicts(v, o) == {}
  {
    hide VerifySTH;
    forall k | k in v.seen && k in o.seen
      ensures v.seen[k].root == o.seen[k].root
    {
      assert v.seen[k] in heads && o.seen[k] in heads;
    }
    assert ConflictSizes(v, o) == {};
  }

  lemma StepNoEvidence(views: seq<View>, operator: PublicKey, ev: ViewEvent, heads: set<TreeHead>)
    requires Population(views, operator) && InRange(|views|, ev) && Agreeing(heads) && DrawnFrom(views, [ev], heads)
    ensures StepEvidence(views, ev) == {}
  {
    hide VerifySTH, Conflicts;
    match ev
    case Fetch(c, sth) => assert [ev][0].Fetch?;
    case Gossip(i, j) =>
      NoConflict(views[i], views[j], heads);
      NoConflict(views[j], views[i], heads);
  }

  lemma {:induction false} AgreeingHeadsNoEvidence(
      views: seq<View>, operator: PublicKey, evs: seq<ViewEvent>,
      heads: set<TreeHead>)
    requires Population(views, operator) && Schedule(|views|, evs) && Agreeing(heads) && DrawnFrom(views, evs, heads)
    ensures AllEvidence(views, evs) == {}
    decreases |evs|
  {
    hide VerifySTH, VerifyEvidence, View.Valid, StepEvidence, ViewStep, Agreeing;
    if evs == [] {
    } else {
      ScheduleTail(|views|, evs);
      StepNoEvidence(views, operator, evs[0], heads);
      StepPopulation(views, operator, evs[0]);
      StepDrawnFrom(views, evs, heads);
      AgreeingHeadsNoEvidence(ViewStep(views, evs[0]), operator, evs[1..], heads);
    }
  }

  /** An honest log's heads, as it published them, are never turned into evidence by any clients under any schedule. */
  lemma {:induction false} HonestLogNeverAccused(h: HashFn, l: Log, views: seq<View>, evs: seq<ViewEvent>)
    requires HonestLog(h, l) && Population(views, l.operator) && Schedule(|views|, evs)
    requires DrawnFrom(views, evs, set i | 0 <= i < |l.published| :: l.published[i])
    ensures AllEvidence(views, evs) == {}
  {
    hide HonestLog, DrawnFrom, View.Valid, AllEvidence;
    var heads := set i | 0 <= i < |l.published| :: l.published[i];
    forall a, b | a in heads && b in heads && a.treeSize == b.treeSize
      ensures a.root == b.root
    {
      var i :| 0 <= i < |l.published| && l.published[i] == a;
      var j :| 0 <= j < |l.published| && l.published[j] == b;
      HonestHeadsAgree(h, l, i, j);
    }
    AgreeingHeadsNoEvidence(views, l.operator, evs, heads);
  }

  // ---------------------------------------------------------------- heads relabelled by an untrusted peer

  /** One half of the two signatures is the same: the same component key over the same bytes. */
  predicate SharesHalf(a: Signature, b: Signature) {
    || (a.edSigner == b.edSigner && a.edMessage == b.edMessage)
    || (a.mldsaSigner == b.mldsaSigner && a.mldsaMessage == b.mldsaMessage)
  }

  /** At least one half of the signature is the operator's own work: forging both takes breaking both schemes. */
  ghost predicate Unforged(l: Log, sig: Signature) {
    exists i :: 0 <= i < |l.published| && SharesHalf(sig, l.published[i].signature)
  }

  ghost predicate UnforgedEvidence(l: Log, ev: Evidence) {
    Unforged(l, ev.a.signature) && Unforged(l, ev.b.signature)
  }

  /** Two published heads are signed over the same low 32 bits of the size, and over different roots. */
  ghost predicate SizesWrap(l: Log) {
    exists i, j :: 0 <= i < j < |l.published|
                && l.published[i].treeSize % U32 == l.published[j].treeSize % U32
                && l.published[i].root != l.published[j].root
  }

  /** The bytes that are signed determine the root and the low 32 bits of the size. */
  lemma SigningBytesInjective(a: TreeHead, b: TreeHead)
    requires SigningBytes(a.treeSize, a.root, a.timestamp) == SigningBytes(b.treeSize, b.root, b.timestamp)
    ensures a.root == b.root && a.treeSize % U32 == b.treeSize % U32
  {
    hide PutU32, PutU64;
    ConcatInjective(PutU32(a.treeSize) + a.root.raw, PutU64(a.timestamp), PutU32(b.treeSize) + b.root.raw,
                    PutU64(b.timestamp));
    ConcatInjective(PutU32(a.treeSize), a.root.raw, PutU32(b.treeSize), b.root.raw);
    PutU32Injective(a.treeSize, b.treeSize);
  }

  /** A head that verifies and is not forged says what some published head says, but for the high bits of the size. */
  lemma UnforgedHead(h: HashFn, l: Log, sth: TreeHead) returns (i: nat)
    requires HonestLog(h, l) && VerifySTH(sth) && Unforged(l, sth.signature)
    ensures i < |l.published| && sth.root == l.published[i].root && sth.treeSize % U32 == l.published[i].treeSize % U32
  {
    i :| i < |l.published| && SharesHalf(sth.signature, l.published[i].signature);
    HonestLogInv(h, l);
    assert Committed(h, l, l.published[i]);
    SigningBytesInjective(sth, l.published[i]);
  }

  /** Changing the size of a signed head by a multiple of 2^32 leaves it signed. */
  lemma RelabelledVerifies(sth: TreeHead, size: int)
    requires VerifySTH(sth) && size % U32 == sth.treeSize % U32
    ensures VerifySTH(sth.(treeSize := size))
  {
    PutU32Injective(size, sth.treeSize);
  }

  /**
   Exactly when an honest operator can be framed: evidence against it whose signatures are not forged, whatever sizes,
   roots and times a peer has written into the heads, passes VerifyEvidence if and only if the operator has published
   two roots for sizes that agree in their low 32 bits.
   */
  lemma {:induction false} FramedExactly(h: HashFn, l: Log)
    requires HonestLog(h, l)
    ensures SizesWrap(l)
       <==> exists ev :: VerifyEvidence(ev, l.operator) == None && UnforgedEvidence(l, ev)
  {
    hide HonestLog, VerifySTH;
    if ev: Evidence :| VerifyEvidence(ev, l.operator) == None && UnforgedEvidence(l, ev) {
      var i := UnforgedHead(h, l, ev.a);
      var j := UnforgedHead(h, l, ev.b);
      assert i != j;
    }
    if SizesWrap(l) {
      var i, j :| 0 <= i < j < |l.published| && l.published[i].treeSize % U32 == l.published[j].treeSize % U32
        && l.published[i].root != l.published[j].root;
      var ev := FramingEvidence(h, l, i, j);
    }
  }

  /**
   The evidence that frames the operator: one head as published, the other with its size changed to the first one's.
   */
  lemma FramingEvidence(h: HashFn, l: Log, i: nat, j: nat) returns (ev: Evidence)
    requires HonestLog(h, l) && i < |l.published| && j < |l.published|
    requires l.published[i].treeSize % U32 == l.published[j].treeSize % U32
             && l.published[i].root != l.published[j].root
    ensures ev == Evidence(l.published[i].(treeSize := l.published[j].treeSize), l.published[j])
    ensures VerifyEvidence(ev, l.operator) == None && UnforgedEvidence(l, ev)
  {
    hide HonestLog, VerifySTH;
    ev := Evidence(l.published[i].(treeSize := l.published[j].treeSize), l.published[j]);
    HonestLogInv(h, l);
    assert Committed(h, l, l.published[i]) && Committed(h, l, l.published[j]);
    RelabelledVerifies(l.published[i], l.published[j].treeSize);
    assert SharesHalf(ev.a.signature, l.published[i].signature) && SharesHalf(ev.b.signature, l.published[j].signature);
  }

  /**
   There are such runs, whatever the hash: after 2^32 registrations the sizes have wrapped, or a collision is at hand.
   */
  lemma {:induction false} FramingHappens(h: HashFn, operator: PublicKey) returns (l: Log)
    ensures HonestLog(h, l) && |l.entries| == U32
    ensures SizesWrap(l) || Collision(h, RootClash(h, MERKLE_DOMAIN, [], MERKLE_DOMAIN, Leaves(l.entries)))
  {
    hide EntriesRoot, RootClash, Collision, SigningBytes;
    var l0 := EmptyLog(operator);
    var l1 := LogStep(h, l0, Publish(0));
    var evs := AppendMany(h, l1, operator, U32);
    var l2 := LogRun(h, l1, evs);
    l := LogStep(h, l2, Publish(0));
    RunOfSteps(h, l0, Publish(0), evs, Publish(0));
    assert HonestLog(h, l);
    if l.published[0].root == l.published[1].root {
      HonestLogInv(h, l);
      assert Leaves([]) == [];
      EqualRootsEqualLogs(h, [], l.entries);
    }
  }

  lemma RunOfSteps(h: HashFn, l: Log, first: LogEvent, evs: seq<LogEvent>, last: LogEvent)
    ensures LogRun(h, l, [first] + evs + [last]) == LogStep(h, LogRun(h, LogStep(h, l, first), evs), last)
  {
    hide LogStep;
    var all := [first] + evs + [last];
    assert all[1..] == evs + [last];
    LogRunConcat(h, LogStep(h, l, first), evs, [last]);
    var l' := LogRun(h, LogStep(h, l, first), evs);
    assert LogRun(h, l', [last]) == LogRun(h, LogStep(h, l', last), []);
  }

  lemma CommittedSize(h: HashFn, l: Log, i: nat)
    requires TransLog.LogInv(h, l) && i < |l.published|
    ensures 0 <= l.published[i].treeSize <= |l.entries|
  {
    assert Committed(h, l, l.published[i]);
  }

  /** Fewer than 2^32 registrations leave no room for it. */
  lemma {:induction false} SmallLogNeverWraps(h: HashFn, l: Log)
    requires HonestLog(h, l) && |l.entries| < U32
    ensures !SizesWrap(l)
  {
    hide HonestLog, Committed;
    HonestLogInv(h, l);
    forall i, j | 0 <= i < j < |l.published| && l.published[i].treeSize % U32 == l.published[j].treeSize % U32
      ensures l.published[i].root == l.published[j].root
    {
      CommittedSize(h, l, i);
      CommittedSize(h, l, j);
      HonestHeadsAgree(h, l, i, j);
    }
  }

  /** Both heads of every piece of evidence come from the views or the fetches. */
  lemma {:induction false} EvidenceDrawn(views: seq<View>, evs: seq<ViewEvent>, heads: set<TreeHead>, ev: Evidence)
    requires Schedule(|views|, evs) && DrawnFrom(views, evs, heads) && ev in AllEvidence(views, evs)
    ensures ev.a in heads && ev.b in heads
    decreases |evs|
  {
    hide VerifySTH, ViewStep, DrawnFrom;
    ScheduleTail(|views|, evs);
    if ev in StepEvidence(views, evs[0]) {
      StepEvidenceDrawn(views, evs, heads, ev);
    } else {
      StepDrawnFrom(views, evs, heads);
      EvidenceDrawn(ViewStep(views, evs[0]), evs[1..], heads, ev);
    }
  }

  lemma StepEvidenceDrawn(views: seq<View>, evs: seq<ViewEvent>, heads: set<TreeHead>, ev: Evidence)
    requires evs != [] && InRange(|views|, evs[0]) && DrawnFrom(views, evs, heads) && ev in StepEvidence(views, evs[0])
    ensures ev.a in heads && ev.b in heads
  {
    hide VerifySTH;
  }

  /**
   So an honest log whose sizes have not wrapped is never accused, under any schedule, by clients that hold or are
   handed any heads whatever, as long as no signature on them is forged.
   */
  lemma {:induction false} HonestLogNeverFramed(h: HashFn, l: Log, views: seq<View>, evs: seq<ViewEvent>,
                                                heads: set<TreeHead>)
    requires HonestLog(h, l) && !SizesWrap(l)
    requires Population(views, l.operator) && Schedule(|views|, evs) && DrawnFrom(views, evs, heads)
    requires forall sth :: sth in heads ==> Unforged(l, sth.signature)
    ensures AllEvidence(views, evs) == {}
  {
    hide HonestLog, SizesWrap, Unforged, View.Valid, DrawnFrom, VerifyEvidence;
    FramedExactly(h, l);
    if ev :| ev in AllEvidence(views, evs) {
      AllEvidenceSound(views, l.operator, evs, ev);
      EvidenceDrawn(views, evs, heads, ev);
    }
  }

  // ---------------------------------------------------------------- unanimity

  /** No two clients hold different roots of one size. */
  ghost predicate Unanimous(views: seq<View>) {
    forall a, b, k :: 0 <= a < |views| && 0 <= b < |views| && k in views[a].seen && k in views[b].seen
      ==> views[a].seen[k].root == views[b].seen[k].root
  }

  predicate GossipOnly(evs: seq<ViewEvent>) {
    forall e :: 0 <= e < |evs| ==> evs[e].Gossip?
  }

  ghost function AllHeads(views: seq<View>): set<TreeHead> {
    set c, k | 0 <= c < |views| && k in views[c].seen :: views[c].seen[k]
  }

  lemma HeadsAgree(views: seq<View>, operator: PublicKey)
    requires Population(views, operator) && Unanimous(views)
    ensures Agreeing(AllHeads(views))
  {
    hide VerifySTH;
    var heads := AllHeads(views);
    forall x, y | x in heads && y in heads && x.treeSize == y.treeSize
      ensures x.root == y.root
    {
      var a, k :| 0 <= a < |views| && k in views[a].seen && views[a].seen[k] == x;
      var b, m :| 0 <= b < |views| && m in views[b].seen && views[b].seen[m] == y;
      assert views[a].Valid() && views[b].Valid();
    }
  }

  lemma UnanimousIsSilent(views: seq<View>, operator: PublicKey, evs: seq<ViewEvent>)
    requires Population(views, operator) && Unanimous(views) && Schedule(|views|, evs) && GossipOnly(evs)
    ensures AllEvidence(views, evs) == {}
  {
    HeadsAgree(views, operator);
    assert DrawnFrom(views, evs, AllHeads(views));
    hide *;
    AgreeingHeadsNoEvidence(views, operator, evs, AllHeads(views));
  }

  lemma SplitMeeting(views: seq<View>, operator: PublicKey) returns (evs: seq<ViewEvent>)
    requires Population(views, operator) && !Unanimous(views)
    ensures Schedule(|views|, evs) && GossipOnly(evs) && AllEvidence(views, evs) != {}
  {
    hide VerifySTH, View.Valid, AllEvidence;
    var a, b, k :| 0 <= a < |views| && 0 <= b < |views| && k in views[a].seen && k in views[b].seen
      && views[a].seen[k].root != views[b].seen[k].root;
    evs := [Gossip(a, b)];
    assert MeetAlong(evs[1..], [b]);
    assert [a, b][1..] == [b];
    SplitDetected(views, operator, evs, [a, b], k);
    MeetingEvidenceIncluded(views, evs);
  }

  /** Gossip can bring up evidence, under some schedule, exactly when two clients hold different roots of one size. */
  lemma {:induction false} SilentExactlyWhenUnanimous(views: seq<View>, operator: PublicKey)
    requires Population(views, operator)
    ensures Unanimous(views)
       <==> forall evs: seq<ViewEvent> :: Schedule(|views|, evs) && GossipOnly(evs) ==> AllEvidence(views, evs) == {}
  {
    hide *;
    if Unanimous(views) {
      forall evs: seq<ViewEvent> | Schedule(|views|, evs) && GossipOnly(evs)
        ensures AllEvidence(views, evs) == {}
      {
        UnanimousIsSilent(views, operator, evs);
      }
    } else {
      var evs := SplitMeeting(views, operator);
    }
  }

  // ---------------------------------------------------------------- one view as an object

  lemma HasElement(s: set<int>)
    requires s != {}
    ensures exists k :: k in s
  {
    assert (forall k :: k !in s) ==> s == {};
  }

  /** The part of a view outside the sizes still to be passed on. */
  ghost function PassedOn(source: View, todo: set<int>): View {
    source.(seen := source.seen - todo)
  }

  lemma NothingPassedOn(v: View, source: View)
    ensures Merge(v, PassedOn(source, source.seen.Keys)) == v
    ensures Conflicts(v, PassedOn(source, source.seen.Keys)) == {}
    ensures PassedOn(source, {}) == source
  {
    assert ConflictSizes(v, PassedOn(source, source.seen.Keys)) == {};
  }

  /** What passing on one more head adds to the conflicts. */
  lemma ConflictsGrow(v: View, source: View, todo: set<int>, k: int)
    requires k in source.seen && k in todo && source.operator == v.operator
    ensures Conflicts(v, PassedOn(source, todo - {k}))
         == Conflicts(v, PassedOn(source, todo))
            + (if k in v.seen && v.seen[k].root != source.seen[k].root
               then {Evidence(v.seen[k], source.seen[k])} else {})
  {
    var d := ConflictSizes(v, PassedOn(source, todo));
    assert ConflictSizes(v, PassedOn(source, todo - {k}))
        == d + (if k in v.seen && v.seen[k].root != source.seen[k].root then {k} else {});
  }

  lemma ConflictsSource(v: View, source: View, todo: set<int>, k: int)
    requires source.Valid() && k in source.seen && k in todo
    ensures forall ev :: ev in Conflicts(v, PassedOn(source, todo)) ==> ev.b != source.seen[k]
  {
    hide VerifySTH;
  }

  lemma MergeGrows(v: View, source: View, todo: set<int>, k: int)
    requires k in source.seen && k in todo && source.operator == v.operator
    ensures k in v.seen ==> Merge(v, PassedOn(source, todo - {k})) == Merge(v, PassedOn(source, todo))
    ensures k in v.seen ==> k in Merge(v, PassedOn(source, todo)).seen
    ensures k in v.seen ==> Merge(v, PassedOn(source, todo)).seen[k] == v.seen[k]
    ensures k !in v.seen ==> k !in Merge(v, PassedOn(source, todo)).seen
    ensures k !in v.seen ==>
              Merge(v, PassedOn(source, todo - {k}))
              == Merge(v, PassedOn(source, todo)).(seen := Merge(v, PassedOn(source, todo)).seen[k := source.seen[k]])
  {
    var m, m' := Merge(v, PassedOn(source, todo)), Merge(v, PassedOn(source, todo - {k}));
    if k in v.seen {
      assert m'.seen == m.seen;
    } else {
      assert m'.seen == m.seen[k := source.seen[k]];
    }
  }

  /** Observing one more head of the other view. */
  lemma ObserveNext(v: View, source: View, todo: set<int>, k: int, q: View, r: Result<Option<Evidence>, ObserveError>)
    requires v.Valid() && source.Valid() && k in source.seen && k in todo
    requires (q, r) == Observed(Merge(v, PassedOn(source, todo)), source.seen[k])
    ensures q == Merge(v, PassedOn(source, todo - {k}))
    ensures forall ev :: ev in Conflicts(v, PassedOn(source, todo)) ==> ev.b != source.seen[k]
    ensures Conflicts(v, PassedOn(source, todo - {k}))
         == Conflicts(v, PassedOn(source, todo)) + (if r.Success? && r.value.Some? then {r.value.value} else {})
    ensures r.Success? && r.value.Some? ==> r.value.value.b == source.seen[k]
  {
    assert source.seen[k].treeSize == k && source.seen[k].operator == source.operator && VerifySTH(source.seen[k]);
    ConflictsSource(v, source, todo, k);
    if source.operator == v.operator {
      ConflictsGrow(v, source, todo, k);
      MergeGrows(v, source, todo, k);
      hide VerifySTH, Conflicts, View.Valid, Merge, PassedOn;
    } else {
      assert Conflicts(v, PassedOn(source, todo)) == {} == Conflicts(v, PassedOn(source, todo - {k}));
    }
  }

  class ClientView {
    const operator: PublicKey
    var seen: map<int, TreeHead>

    ghost function Value(): View
      reads this
    {
      View(operator, seen)
    }

    constructor (operator: PublicKey)
      ensures Value() == View(operator, map[]) && Value().Valid()
    {
      this.operator := operator;
      seen := map[];
    }

    method Observe(sth: TreeHead) returns (r: Result<Option<Evidence>, ObserveError>)
      modifies this
      ensures (Value(), r) == Observed(old(Value()), sth)
    {
      if sth.operator != operator {
        return Failure(UnexpectedOperator);
      }
      if !VerifySTH(sth) {
        return Failure(BadSignature);
      }
      var prior := if sth.treeSize in seen then Some(seen[sth.treeSize]) else None;
      if prior.Some? && prior.value.root != sth.root {
        return Success(Some(Evidence(prior.value, sth)));
      }
      if prior.None? {
        seen := seen[sth.treeSize := sth];
      }
      r := Success(None);
    }

    /** Observes all that `heads` holds, in any order; Go ranges over a map in no particular one. */
    method ObserveAll(heads: map<int, TreeHead>, ghost source: View) returns (evidence: seq<Evidence>)
      requires Value().Valid() && source.Valid() && heads == source.seen
      modifies this
      ensures Value() == Merge(old(Value()), source)
      ensures forall i, j :: 0 <= i < j < |evidence| ==> evidence[i] != evidence[j]
      ensures forall ev :: ev in evidence <==> ev in Conflicts(old(Value()), source)
    {
      hide Observed, Conflicts, VerifySTH, View.Valid;
      evidence := [];
      var todo := heads.Keys;
      ghost var before := Value();
      NothingPassedOn(before, source);
      while todo != {}
        invariant todo <= heads.Keys
        invariant Value() == Merge(before, PassedOn(source, todo))
        invariant forall i, j :: 0 <= i < j < |evidence| ==> evidence[i] != evidence[j]
        invariant forall ev :: ev in evidence <==> ev in Conflicts(before, PassedOn(source, todo))
        decreases todo
      {
        HasElement(todo);
        var k :| k in todo;
        var r := Observe(heads[k]);
        ObserveNext(before, source, todo, k, Value(), r);
        todo := todo - {k};
        if r.Success? && r.value.Some? {
          evidence := evidence + [r.value.value];
        }
      }
    }

    /**
     Afterwards each side has merged what the other remembered, and the evidence for each is one piece, each once,
     for every size at which the other contradicted it.
     */
    method GossipWith(other: ClientView) returns (forThis: seq<Evidence>, forOther: seq<Evidence>)
      requires Value().Valid() && other.Value().Valid()
      modifies this, other
      ensures Value() == Merge(old(Value()), old(other.Value()))
      ensures other.Value() == Merge(old(other.Value()), old(Value()))
      ensures forall i, j :: 0 <= i < j < |forThis| ==> forThis[i] != forThis[j]
      ensures forall i, j :: 0 <= i < j < |forOther| ==> forOther[i] != forOther[j]
      ensures forall ev :: ev in forThis <==> ev in Conflicts(old(Value()), old(other.Value()))
      ensures forall ev :: ev in forOther <==> ev in Conflicts(old(other.Value()), old(Value()))
    {
      var otherHeads, heads := other.seen, seen;
      forThis := ObserveAll(otherHeads, old(other.Value()));
      forOther := other.ObserveAll(heads, old(Value()));
    }
  }
}
