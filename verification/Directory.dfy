/**
 The relay's prekey directory as a specification (relay/relay.go): a counter per user. Each publication starts it at
 zero, each fetch takes the next bundle of the batch, and once the batch is used up the last-resort key stands in.
 */
module Directory {
  import opened Wrappers
  import opened Bytes
  import opened Prekey

  datatype RelayError = UnknownUser | NoPrekeysPublished | NoPrekeysAvailable

  /** A one-time bundle, or the advice to use the last-resort key. */
  datatype Fetched = OneTime(bundle: Bundle) | FallBack

  datatype Pool = Pool(bundles: seq<Bundle>, lastResort: Option<LastResort>, issued: nat, lastResortUses: nat)

  function NewPool(bundles: seq<Bundle>, lastResort: Option<LastResort>): Pool {
    Pool(bundles, lastResort, 0, 0)
  }

  function FetchNext(p: Pool): (Pool, Result<Fetched, RelayError>) {
    if p.issued < |p.bundles| then (p.(issued := p.issued + 1), Success(OneTime(p.bundles[p.issued])))
    else if p.lastResort.None? then (p, Failure(NoPrekeysAvailable))
    else (p.(lastResortUses := p.lastResortUses + 1), Success(FallBack))
  }

  datatype PrekeyEvent =
    | Publish(user: bytes, bundles: seq<Bundle>, lastResort: Option<LastResort>)
    | Fetch(user: bytes)

  function DirStep(dir: map<bytes, Pool>, ev: PrekeyEvent): (map<bytes, Pool>, Option<Result<Fetched, RelayError>>) {
    match ev
    case Publish(u, bundles, lastResort) => (dir[u := NewPool(bundles, lastResort)], None)
    case Fetch(u) =>
      if u !in dir then (dir, Some(Failure(NoPrekeysPublished)))
      else (dir[u := FetchNext(dir[u]).0], Some(FetchNext(dir[u]).1))
  }

  function DirRun(dir: map<bytes, Pool>, evs: seq<PrekeyEvent>): map<bytes, Pool>
    decreases |evs|
  {
    if evs == [] then dir else DirRun(DirStep(dir, evs[0]).0, evs[1..])
  }

  /** What the fetches for one user were answered, in order. */
  function Answers(dir: map<bytes, Pool>, evs: seq<PrekeyEvent>, user: bytes): seq<Result<Fetched, RelayError>>
    decreases |evs|
  {
    if evs == [] then []
    else
      (if evs[0] == Fetch(user) then [DirStep(dir, evs[0]).1.value] else [])
        + Answers(DirStep(dir, evs[0]).0, evs[1..], user)
  }

  function Fetches(evs: seq<PrekeyEvent>, user: bytes): nat {
    if evs == [] then 0 else (if evs[0] == Fetch(user) then 1 else 0) + Fetches(evs[1..], user)
  }

  predicate NotRepublished(evs: seq<PrekeyEvent>, user: bytes) {
    forall e :: 0 <= e < |evs| && evs[e].Publish? ==> evs[e].user != user
  }

  /** The answer to the k-th fetch since the batch was published. */
  function KthAnswer(bundles: seq<Bundle>, lastResort: Option<LastResort>, k: nat): Result<Fetched, RelayError> {
    if k < |bundles| then Success(OneTime(bundles[k]))
    else if lastResort.Some? then Success(FallBack)
    else Failure(NoPrekeysAvailable)
  }

  /** A pool after k fetches. */
  function After(bundles: seq<Bundle>, lastResort: Option<LastResort>, k: nat): Pool {
    Pool(bundles, lastResort, if k < |bundles| then k else |bundles|,
         if lastResort.Some? && k > |bundles| then k - |bundles| else 0)
  }

  lemma FetchAfter(bundles: seq<Bundle>, lastResort: Option<LastResort>, k: nat)
    ensures FetchNext(After(bundles, lastResort, k))
            == (After(bundles, lastResort, k + 1), KthAnswer(bundles, lastResort, k))
  {
  }

  lemma NotRepublishedTail(evs: seq<PrekeyEvent>, user: bytes)
    requires NotRepublished(evs, user) && evs != []
    ensures NotRepublished(evs[1..], user) && (evs[0].Publish? ==> evs[0].user != user)
  {
    forall e | 0 <= e < |evs[1..]| && evs[1..][e].Publish?
      ensures evs[1..][e].user != user
    {
      assert evs[e + 1].Publish?;
    }
  }

  lemma {:induction false} FetchesFrom(
      dir: map<bytes, Pool>, evs: seq<PrekeyEvent>, user: bytes,
      bundles: seq<Bundle>, lastResort: Option<LastResort>, k: nat)
    requires user in dir && dir[user] == After(bundles, lastResort, k) && NotRepublished(evs, user)
    ensures user in DirRun(dir, evs) && DirRun(dir, evs)[user] == After(bundles, lastResort, k + Fetches(evs, user))
    ensures |Answers(dir, evs, user)| == Fetches(evs, user)
    ensures forall i :: 0 <= i < Fetches(evs, user) ==>
              Answers(dir, evs, user)[i] == KthAnswer(bundles, lastResort, k + i)
    decreases |evs|
  {
    if evs == [] {
    } else {
      FetchAfter(bundles, lastResort, k);
      NotRepublishedTail(evs, user);
      hide FetchNext, After, KthAnswer, NotRepublished;
      var dir' := DirStep(dir, evs[0]).0;
      FetchesFrom(dir', evs[1..], user, bundles, lastResort, if evs[0] == Fetch(user) then k + 1 else k);
    }
  }

  /**
   Between two publications, whatever other users do: the first m fetches are answered with the m bundles in order, each
   once, and all later ones fall back or fail; issued and remaining bundles add up to the batch; and the fall-backs
   are counted exactly.
   */
  lemma {:induction false} AllocatesInOrder(
      dir: map<bytes, Pool>, user: bytes, bundles: seq<Bundle>, lastResort: Option<LastResort>,
      evs: seq<PrekeyEvent>)
    requires NotRepublished(evs, user)
    ensures var start, k := DirStep(dir, Publish(user, bundles, lastResort)).0, Fetches(evs, user);
      && |Answers(start, evs, user)| == k
      && (forall i :: 0 <= i < k ==> Answers(start, evs, user)[i] == KthAnswer(bundles, lastResort, i))
      && user in DirRun(start, evs)
      && DirRun(start, evs)[user].issued == (if k < |bundles| then k else |bundles|)
      && DirRun(start, evs)[user].lastResortUses == (if lastResort.Some? && k > |bundles| then k - |bundles| else 0)
  {
    FetchesFrom(DirStep(dir, Publish(user, bundles, lastResort)).0, evs, user, bundles, lastResort, 0);
  }

  /** Before a user has published anything, every fetch for it says so, whatever others do. */
  lemma {:induction false} NeverPublished(dir: map<bytes, Pool>, evs: seq<PrekeyEvent>, user: bytes)
    requires user !in dir && NotRepublished(evs, user)
    ensures user !in DirRun(dir, evs) && |Answers(dir, evs, user)| == Fetches(evs, user)
    ensures forall i :: 0 <= i < Fetches(evs, user) ==> Answers(dir, evs, user)[i] == Failure(NoPrekeysPublished)
    decreases |evs|
  {
    if evs == [] {
    } else {
      NotRepublishedTail(evs, user);
      hide FetchNext, NotRepublished;
      NeverPublished(DirStep(dir, evs[0]).0, evs[1..], user);
    }
  }

  /** No two fetches between publications are answered with bundles from the same place in the batch. */
  lemma {:induction false} NeverIssuedTwice(
      dir: map<bytes, Pool>, user: bytes, bundles: seq<Bundle>, lastResort: Option<LastResort>,
      evs: seq<PrekeyEvent>, i: nat, j: nat)
    requires NotRepublished(evs, user) && (forall a, b :: 0 <= a < b < |bundles| ==> bundles[a] != bundles[b])
    requires i < j < |Answers(DirStep(dir, Publish(user, bundles, lastResort)).0, evs, user)|
    ensures var answers := Answers(DirStep(dir, Publish(user, bundles, lastResort)).0, evs, user);
      answers[i].Success? && answers[i].value.OneTime? ==> answers[j] != answers[i]
  {
    AllocatesInOrder(dir, user, bundles, lastResort, evs);
  }
}
