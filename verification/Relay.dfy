/** The relay server's objects (relay/relay.go), each method proved to take the step its specification gives. */
module Relay {
  import opened Wrappers
  import opened Bytes
  import opened Identity
  import opened Prekey
  import opened Directory
  import opened Mailbox

  datatype PrekeyTelemetry = PrekeyTelemetry(remaining: nat, batchSize: nat, lastResortUses: nat)

  /** The scan stays within the bundles and begins at the cursor. */
  lemma ScanIndex(cursor: nat, i: nat, n: nat)
    requires cursor < n
    ensures 0 <= (cursor + i) % n < n && (i == 0 ==> (cursor + i) % n == cursor)
  {
  }

  /** The cursor moves on by one, and after the last bundle to the first. */
  lemma CursorAfter(idx: nat, n: nat)
    requires idx < n
    ensures (idx + 1) % n == if idx + 1 < n then idx + 1 else 0
  {
  }

  class UserPrekeys {
    const bundles: seq<Bundle>
    const lastResort: Option<LastResort>
    const consumed: array<bool>
    var nextCursor: nat
    var lastResortUse: nat
    ghost var issued: nat

    ghost function Value(): Pool
      reads this
    {
      Pool(bundles, lastResort, issued, lastResortUse)
    }

    /** The flags and the cursor say no more than how many bundles were issued. */
    ghost predicate Valid()
      reads this, consumed
    {
      && consumed.Length == |bundles| && issued <= |bundles|
      && (forall i :: 0 <= i < consumed.Length ==> (consumed[i] <==> i < issued))
      && nextCursor == (if issued < |bundles| then issued else 0)
    }

    constructor (bundles: seq<Bundle>, lastResort: Option<LastResort>)
      ensures Valid() && fresh(consumed) && Value() == NewPool(bundles, lastResort)
    {
      this.bundles, this.lastResort := bundles, lastResort;
      consumed := new bool[|bundles|](_ => false);
      nextCursor, lastResortUse, issued := 0, 0, 0;
    }

    /** FetchPrekeyBundle for the user's own record: the circular scan takes the counter's next bundle. */
    method Fetch() returns (r: Result<Fetched, RelayError>)
      requires Valid()
      modifies this, consumed
      ensures Valid()
      ensures (Value(), r) == FetchNext(old(Value()))
    {
      for i := 0 to |bundles|
        invariant Valid() && Value() == old(Value())
        invariant i > 0 ==> issued == |bundles|
      {
        var idx := (nextCursor + i) % |bundles|;
        ScanIndex(nextCursor, i, |bundles|);
        if !consumed[idx] {
          CursorAfter(idx, |bundles|);
          consumed[idx] := true;
          nextCursor := (idx + 1) % |bundles|;
          issued := issued + 1;
          return Success(OneTime(bundles[idx]));
        }
      }
      if lastResort.None? {
        return Failure(NoPrekeysAvailable);
      }
      lastResortUse := lastResortUse + 1;
      r := Success(FallBack);
    }

    method Remaining() returns (n: nat)
      requires Valid()
      ensures issued + n == |bundles|
    {
      n := 0;
      for i := 0 to consumed.Length
        invariant n == (if i <= issued then 0 else i - issued)
      {
        if !consumed[i] {
          n := n + 1;
        }
      }
    }
  }

  class Server {
    var identities: map<bytes, PublicKey>
    var prekeys: map<bytes, UserPrekeys>
    var queues: Queues

    /** The records of different users are different objects. */
    ghost predicate Valid()
      reads this, prekeys.Values, set u | u in prekeys :: prekeys[u].consumed
    {
      && (forall u :: u in prekeys ==> prekeys[u].Valid())
      && (forall u, v :: u in prekeys && v in prekeys && u != v ==>
            prekeys[u] != prekeys[v] && prekeys[u].consumed != prekeys[v].consumed)
    }

    ghost function Pools(): map<bytes, Pool>
      reads this, prekeys.Values
    {
      map u | u in prekeys :: prekeys[u].Value()
    }

    ghost function Mail(): Post
      reads this
    {
      Post(identities.Keys, queues)
    }

    constructor ()
      ensures Valid() && Pools() == map[] && Mail() == Post({}, map[])
    {
      identities, prekeys, queues := map[], map[], map[];
    }

    method PublishIdentity(userID: bytes, pub: PublicKey)
      modifies this`identities
      ensures identities == old(identities)[userID := pub]
      ensures (Mail(), Done) == PostStep(old(Mail()), Register(userID))
    {
      identities := identities[userID := pub];
      assert identities.Keys == old(identities).Keys + {userID};
    }

    method PublishPrekeys(userID: bytes, bundles: seq<Bundle>, lastResort: Option<LastResort>)
      requires Valid()
      modifies this`prekeys
      ensures Valid()
      ensures Pools() == DirStep(old(Pools()), Publish(userID, bundles, lastResort)).0
    {
      var up := new UserPrekeys(bundles, lastResort);
      prekeys := prekeys[userID := up];
      hide UserPrekeys.Valid;
      assert Pools() == old(Pools())[userID := NewPool(bundles, lastResort)];
    }

    /** When one user's record has changed, and is valid again, so is the server, and no other pool is different. */
    twostate lemma OnePoolChanged(userID: bytes)
      requires old(Valid()) && unchanged(this) && userID in prekeys && prekeys[userID].Valid()
      requires forall u :: u in prekeys && u != userID ==> unchanged(prekeys[u]) && unchanged(prekeys[u].consumed)
      ensures Valid() && Pools() == old(Pools())[userID := prekeys[userID].Value()]
    {
      hide UserPrekeys.Valid, UserPrekeys.Value;
    }

    method FetchPrekeyBundle(userID: bytes) returns (r: Result<Fetched, RelayError>)
      requires Valid()
      modifies prekeys.Values, set u | u in prekeys :: prekeys[u].consumed
      ensures Valid()
      ensures (Pools(), Some(r)) == DirStep(old(Pools()), PrekeyEvent.Fetch(userID))
    {
      if userID !in prekeys {
        return Failure(NoPrekeysPublished);
      }
      hide UserPrekeys.Valid, UserPrekeys.Value, FetchNext;
      var up := prekeys[userID];
      r := up.Fetch();
      OnePoolChanged(userID);
    }

    method Telemetry(userID: bytes) returns (r: Result<PrekeyTelemetry, RelayError>)
      requires Valid()
      ensures userID !in Pools() ==> r == Failure(NoPrekeysPublished)
      ensures userID in Pools() ==> var p := Pools()[userID];
                r.Success? && r.value.batchSize == |p.bundles| && r.value.lastResortUses == p.lastResortUses
                && p.issued + r.value.remaining == |p.bundles|
    {
      if userID !in prekeys {
        return Failure(NoPrekeysPublished);
      }
      var remaining := prekeys[userID].Remaining();
      r := Success(PrekeyTelemetry(remaining, |prekeys[userID].bundles|, prekeys[userID].lastResortUse));
    }

    method SendMessage(recipientID: bytes, senderID: bytes, envelope: bytes, now: int)
      returns (r: Result<(), RelayError>)
      modifies this`queues
      ensures (Mail(), if r.Success? then Done else Refused)
              == PostStep(old(Mail()), Send(recipientID, senderID, envelope, now))
      ensures r.Failure? ==> r.error == UnknownUser
    {
      if recipientID !in identities {
        return Failure(UnknownUser);
      }
      var queue := if recipientID in queues then queues[recipientID] else [];
      queues := queues[recipientID := queue + [QueuedMessage(senderID, envelope, now)]];
      r := Success(());
    }

    method PollMessages(userID: bytes) returns (msgs: seq<QueuedMessage>)
      modifies this`queues
      ensures (Mail(), Polled(msgs)) == PostStep(old(Mail()), Poll(userID))
    {
      msgs := if userID in queues then queues[userID] else [];
      queues := queues - {userID};
    }

    /** The inner loop of PurgeExpired, for one queue. */
    method KeepFresh(msgs: seq<QueuedMessage>, now: int, ttl: int) returns (kept: seq<QueuedMessage>, purged: nat)
      ensures kept == Kept(msgs, now, ttl) && purged == |msgs| - |kept|
    {
      kept, purged := [], 0;
      for i := 0 to |msgs|
        invariant kept == Kept(msgs[..i], now, ttl) && purged == i - |kept|
      {
        assert msgs[..i + 1][..i] == msgs[..i];
        if now - msgs[i].queuedAt > ttl {
          purged := purged + 1;
        } else {
          kept := kept + [msgs[i]];
        }
      }
      assert msgs[..|msgs|] == msgs;
    }

    /** Ranges over the queues in whatever order the map yields them. */
    method PurgeExpired(now: int, ttl: int) returns (purged: nat)
      modifies this`queues
      ensures (Mail(), PurgedCount(purged)) == PostStep(old(Mail()), Purge(now, ttl))
    {
      ghost var before, n := queues, Removed(queues, now, ttl);
      var todo := queues.Keys;
      PurgeEnds(queues, now, ttl);
      hide Kept, Sum, Removed, Purged, PartlyPurged;
      purged := 0;
      while todo != {}
        invariant todo <= before.Keys
        invariant queues == PartlyPurged(before, todo, now, ttl)
        invariant purged + Sum(todo, n) == Sum(before.Keys, n)
        decreases todo
      {
        var u :| u in todo;
        PurgeNext(before, todo, now, ttl, u);
        var kept, count := KeepFresh(queues[u], now, ttl);
        purged := purged + count;
        SumSplit(todo, n, u);
        if kept == [] {
          queues := queues - {u};
        } else {
          queues := queues[u := kept];
        }
        todo := todo - {u};
      }
    }
  }

  /** One more queue looked at. */
  lemma PurgeNext(queues: Queues, todo: set<bytes>, now: int, ttl: int, u: bytes)
    requires todo <= queues.Keys && u in todo
    ensures var q, q' := PartlyPurged(queues, todo, now, ttl), PartlyPurged(queues, todo - {u}, now, ttl);
      && u in q && q[u] == queues[u]
      && q' == (if Kept(q[u], now, ttl) == [] then q - {u} else q[u := Kept(q[u], now, ttl)])
      && Removed(queues, now, ttl)(u) == |q[u]| - |Kept(q[u], now, ttl)|
  {
    hide Kept;
  }

  lemma PurgeEnds(queues: Queues, now: int, ttl: int)
    ensures PartlyPurged(queues, queues.Keys, now, ttl) == queues
    ensures PartlyPurged(queues, {}, now, ttl) == Purged(queues, now, ttl)
    ensures forall n :: Sum({}, n) == 0
  {
    hide Kept;
  }

  /** The queues while those of `todo` have not been looked at yet. */
  ghost function PartlyPurged(queues: Queues, todo: set<bytes>, now: int, ttl: int): Queues {
    map u | u in queues && (u in todo || Kept(queues[u], now, ttl) != []) ::
      if u in todo then queues[u] else Kept(queues[u], now, ttl)
  }
}
