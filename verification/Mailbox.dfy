/**
 The relay's store-and-forward queues as a specification (relay/relay.go), and the conservation law over their runs:
 every message ever accepted has exactly one of three fates, and the relay's answers account for all of them.
 */
module Mailbox {
  import opened Bytes

  /** Times are integers on one clock, whatever their unit. */
  datatype QueuedMessage = QueuedMessage(from: bytes, envelope: bytes, queuedAt: int)

  type Queues = map<bytes, seq<QueuedMessage>>

  /** A missing entry is an empty queue. */
  function At<T>(m: map<bytes, seq<T>>, user: bytes): seq<T> {
    if user in m then m[user] else []
  }

  predicate Expired(m: QueuedMessage, now: int, ttl: int) {
    now - m.queuedAt > ttl
  }

  function Kept(msgs: seq<QueuedMessage>, now: int, ttl: int): (kept: seq<QueuedMessage>)
    ensures |kept| <= |msgs|
  {
    if msgs == [] then []
    else
      var rest, m := Kept(msgs[..|msgs| - 1], now, ttl), msgs[|msgs| - 1];
      if Expired(m, now, ttl) then rest else rest + [m]
  }

  /** The sum of n over a set of users. */
  ghost function Sum(users: set<bytes>, n: bytes -> nat): nat
    decreases |users|
  {
    if users == {} then 0
    else
      var u :| u in users;
      n(u) + Sum(users - {u}, n)
  }

  lemma {:induction false} SumSplit(users: set<bytes>, n: bytes -> nat, u: bytes)
    requires u in users
    ensures Sum(users, n) == n(u) + Sum(users - {u}, n)
    decreases |users|
  {
    var v :| v in users && Sum(users, n) == n(v) + Sum(users - {v}, n);
    if v == u {
    } else {
      SumSplit(users - {v}, n, u);
      SumSplit(users - {u}, n, v);
      assert users - {v} - {u} == users - {u} - {v};
    }
  }

  lemma {:induction false} SumAdd(users: set<bytes>, a: bytes -> nat, b: bytes -> nat, c: bytes -> nat)
    requires forall u :: u in users ==> c(u) == a(u) + b(u)
    ensures Sum(users, c) == Sum(users, a) + Sum(users, b)
    decreases |users|
  {
    if users != {} {
      var u :| u in users;
      SumAdd(users - {u}, a, b, c);
      SumSplit(users, a, u);
      SumSplit(users, b, u);
      SumSplit(users, c, u);
    }
  }

  /** Users for whom there is nothing to add may be left out. */
  lemma {:induction false} SumGrow(users: set<bytes>, more: set<bytes>, n: bytes -> nat)
    requires users <= more && (forall u :: u in more && u !in users ==> n(u) == 0)
    ensures Sum(more, n) == Sum(users, n)
    decreases |more|
  {
    if more == users {
    } else {
      var u :| u in more && u !in users;
      SumSplit(more, n, u);
      SumGrow(users, more - {u}, n);
    }
  }

  lemma SumSame(users: set<bytes>, a: bytes -> nat, b: bytes -> nat)
    requires forall u :: u in users ==> a(u) == b(u)
    ensures Sum(users, a) == Sum(users, b)
  {
    SumAdd(users, b, (_: bytes) => 0, a);
    SumGrow({}, users, (_: bytes) => 0);
  }

  // ---------------------------------------------------------------- the steps

  datatype PostEvent =
    | Register(user: bytes)
    | Send(recipient: bytes, sender: bytes, envelope: bytes, now: int)
    | Poll(user: bytes)
    | Purge(now: int, ttl: int)

  datatype Reply = Done | Refused | Polled(msgs: seq<QueuedMessage>) | PurgedCount(count: nat)

  datatype Post = Post(users: set<bytes>, queues: Queues)

  /** How many messages of one queue a purge removes. */
  function Removed(queues: Queues, now: int, ttl: int): bytes -> nat {
    (u: bytes) => |At(queues, u)| - |Kept(At(queues, u), now, ttl)|
  }

  /** Queues left empty are deleted. */
  function Purged(queues: Queues, now: int, ttl: int): Queues {
    map u | u in queues && Kept(queues[u], now, ttl) != [] :: Kept(queues[u], now, ttl)
  }

  ghost function PostStep(p: Post, ev: PostEvent): (Post, Reply) {
    match ev
    case Register(u) => (p.(users := p.users + {u}), Done)
    case Send(u, s, envelope, now) =>
      if u !in p.users then (p, Refused)
      else (p.(queues := p.queues[u := At(p.queues, u) + [QueuedMessage(s, envelope, now)]]), Done)
    case Poll(u) => (p.(queues := p.queues - {u}), Polled(At(p.queues, u)))
    case Purge(now, ttl) =>
      (p.(queues := Purged(p.queues, now, ttl)), PurgedCount(Sum(p.queues.Keys, Removed(p.queues, now, ttl))))
  }

  // ---------------------------------------------------------------- the ledger of a run

  /** What an observer writes down: the messages accepted, those handed out, and the sum of the purged numbers. */
  datatype Ledger = Ledger(accepted: Queues, delivered: Queues, purged: nat)

  function Record(l: Ledger, ev: PostEvent, r: Reply): Ledger {
    match ev
    case Register(_) => l
    case Send(u, s, envelope, now) =>
      if r == Refused then l else l.(accepted := l.accepted[u := At(l.accepted, u) + [QueuedMessage(s, envelope, now)]])
    case Poll(u) => if r.Polled? then l.(delivered := l.delivered[u := At(l.delivered, u) + r.msgs]) else l
    case Purge(_, _) => if r.PurgedCount? then l.(purged := l.purged + r.count) else l
  }

  ghost function PostRun(p: Post, l: Ledger, evs: seq<PostEvent>): (Post, Ledger)
    decreases |evs|
  {
    if evs == [] then (p, l)
    else
      var (p', r) := PostStep(p, evs[0]);
      PostRun(p', Record(l, evs[0], r), evs[1..])
  }

  // ---------------------------------------------------------------- fates

  datatype Fate = Waiting | Delivered | Discarded

  /** The messages of one fate, in the order they were sent. */
  function Select(msgs: seq<QueuedMessage>, fates: seq<Fate>, f: Fate): seq<QueuedMessage>
    requires |msgs| == |fates|
  {
    if msgs == [] then []
    else
      var rest := Select(msgs[..|msgs| - 1], fates[..|msgs| - 1], f);
      if fates[|msgs| - 1] == f then rest + [msgs[|msgs| - 1]] else rest
  }

  /** Every message has one fate, so the three selections partition them. */
  lemma {:induction false} SelectPartitions(msgs: seq<QueuedMessage>, fates: seq<Fate>)
    requires |msgs| == |fates|
    ensures |Select(msgs, fates, Waiting)| + |Select(msgs, fates, Delivered)| + |Select(msgs, fates, Discarded)|
            == |msgs|
    ensures multiset(Select(msgs, fates, Waiting)) + multiset(Select(msgs, fates, Delivered))
          + multiset(Select(msgs, fates, Discarded)) == multiset(msgs)
  {
    if msgs == [] {
    } else {
      hide Select;
      var init, m := msgs[..|msgs| - 1], msgs[|msgs| - 1];
      SelectPartitions(init, fates[..|msgs| - 1]);
      SelectLast(msgs, fates, Waiting);
      SelectLast(msgs, fates, Delivered);
      SelectLast(msgs, fates, Discarded);
      assert msgs == init + [m];
    }
  }

  lemma SelectLast(msgs: seq<QueuedMessage>, fates: seq<Fate>, f: Fate)
    requires |msgs| == |fates| > 0
    ensures Select(msgs, fates, f) == Select(msgs[..|msgs| - 1], fates[..|msgs| - 1], f)
                                      + (if fates[|msgs| - 1] == f then [msgs[|msgs| - 1]] else [])
  {
  }

  lemma SelectAppend(msgs: seq<QueuedMessage>, fates: seq<Fate>, m: QueuedMessage, g: Fate, f: Fate)
    requires |msgs| == |fates|
    ensures Select(msgs + [m], fates + [g], f) == Select(msgs, fates, f) + (if f == g then [m] else [])
  {
    assert (msgs + [m])[..|msgs|] == msgs && (fates + [g])[..|msgs|] == fates;
  }

  /** The fates after all waiting messages were handed out. */
  function HandOut(fates: seq<Fate>): (r: seq<Fate>)
    ensures |r| == |fates|
  {
    seq(|fates|, i requires 0 <= i < |fates| => if fates[i] == Waiting then Delivered else fates[i])
  }

  /** The fates after the waiting messages that have expired were thrown away. */
  function Discard(msgs: seq<QueuedMessage>, fates: seq<Fate>, now: int, ttl: int): (r: seq<Fate>)
    requires |msgs| == |fates|
    ensures |r| == |fates|
  {
    seq(|fates|, i requires 0 <= i < |fates| =>
      if fates[i] == Waiting && Expired(msgs[i], now, ttl) then Discarded else fates[i])
  }

  /** In send order, everything already delivered comes before everything still waiting. */
  predicate DeliveredFirst(fates: seq<Fate>) {
    forall i, j :: 0 <= i < j < |fates| && fates[i] == Waiting ==> fates[j] != Delivered
  }

  lemma {:induction false} SelectHandOut(msgs: seq<QueuedMessage>, fates: seq<Fate>)
    requires |msgs| == |fates| && DeliveredFirst(fates)
    ensures Select(msgs, HandOut(fates), Waiting) == []
    ensures Select(msgs, HandOut(fates), Delivered) == Select(msgs, fates, Delivered) + Select(msgs, fates, Waiting)
    ensures Select(msgs, HandOut(fates), Discarded) == Select(msgs, fates, Discarded)
  {
    if msgs == [] {
    } else {
      var n := |msgs| - 1;
      assert HandOut(fates)[..n] == HandOut(fates[..n]);
      SelectHandOut(msgs[..n], fates[..n]);
      if fates[n] == Delivered {
        NoneWaiting(msgs[..n], fates[..n]);
      }
    }
  }

  lemma {:induction false} NoneWaiting(msgs: seq<QueuedMessage>, fates: seq<Fate>)
    requires |msgs| == |fates| && (forall i :: 0 <= i < |fates| ==> fates[i] != Waiting)
    ensures Select(msgs, fates, Waiting) == []
  {
    if msgs == [] {
    } else {
      NoneWaiting(msgs[..|msgs| - 1], fates[..|msgs| - 1]);
    }
  }

  lemma {:induction false} SelectDiscard(msgs: seq<QueuedMessage>, fates: seq<Fate>, now: int, ttl: int)
    requires |msgs| == |fates|
    ensures var after, q := Discard(msgs, fates, now, ttl), Select(msgs, fates, Waiting);
      && Select(msgs, after, Waiting) == Kept(q, now, ttl)
      && Select(msgs, after, Delivered) == Select(msgs, fates, Delivered)
      && |Select(msgs, after, Discarded)| == |Select(msgs, fates, Discarded)| + |q| - |Kept(q, now, ttl)|
  {
    if msgs == [] {
    } else {
      var n := |msgs| - 1;
      assert Discard(msgs, fates, now, ttl)[..n] == Discard(msgs[..n], fates[..n], now, ttl);
      SelectDiscard(msgs[..n], fates[..n], now, ttl);
      var q, m := Select(msgs[..n], fates[..n], Waiting), msgs[n];
      assert (q + [m])[..|q|] == q;
    }
  }

  /** A purge removes what has waited for longer than the time to live and nothing else. */
  lemma {:induction false} KeptExactly(msgs: seq<QueuedMessage>, now: int, ttl: int)
    ensures forall m :: m in Kept(msgs, now, ttl) <==> m in msgs && now <= m.queuedAt + ttl
  {
    if msgs == [] {
    } else {
      KeptExactly(msgs[..|msgs| - 1], now, ttl);
      assert msgs == msgs[..|msgs| - 1] + [msgs[|msgs| - 1]];
    }
  }

  lemma {:induction false} UsersAdd(p: Post, l: Ledger, evs: seq<PostEvent>)
    ensures forall u :: u in PostRun(p, l, evs).0.users <==> u in p.users || Register(u) in evs
    decreases |evs|
  {
    if evs == [] {
    } else {
      hide Purged, Removed, Sum, Record;
      var (p', r) := PostStep(p, evs[0]);
      UsersAdd(p', Record(l, evs[0], r), evs[1..]);
      assert forall u :: Register(u) in evs <==> evs[0] == Register(u) || Register(u) in evs[1..];
    }
  }

  /** A message is refused, and then changes nothing, exactly if its recipient has never registered. */
  lemma {:induction false} RefusedExactly(
      evs: seq<PostEvent>, p: Post, l: Ledger, u: bytes, sender: bytes, envelope: bytes, now: int)
    requires (p, l) == PostRun(Post({}, map[]), Ledger(map[], map[], 0), evs)
    ensures var (p', r) := PostStep(p, Send(u, sender, envelope, now));
      && (r == Refused <==> Register(u) !in evs)
      && (r == Refused ==> p' == p)
      && (r != Refused ==> At(p'.queues, u) == At(p.queues, u) + [QueuedMessage(sender, envelope, now)])
  {
    hide PostRun;
    UsersAdd(Post({}, map[]), Ledger(map[], map[], 0), evs);
  }

  // ---------------------------------------------------------------- conservation

  /** One user's account: what is queued and what was handed out are the accepted messages of these fates. */
  ghost predicate Account(accepted: seq<QueuedMessage>, fates: seq<Fate>, queue: seq<QueuedMessage>,
                          delivered: seq<QueuedMessage>)
  {
    && |fates| == |accepted| && DeliveredFirst(fates)
    && queue == Select(accepted, fates, Waiting)
    && delivered == Select(accepted, fates, Delivered)
  }

  function DiscardCount(accepted: seq<QueuedMessage>, fates: seq<Fate>): nat {
    if |accepted| == |fates| then |Select(accepted, fates, Discarded)| else 0
  }

  function Discards(accepted: Queues, fates: map<bytes, seq<Fate>>): bytes -> nat {
    (u: bytes) => DiscardCount(At(accepted, u), At(fates, u))
  }

  function Lengths(queues: Queues): bytes -> nat {
    (u: bytes) => |At(queues, u)|
  }

  /** Every account is in order, and the purged numbers add up to the discarded messages of all users. */
  ghost predicate Balanced(p: Post, l: Ledger, fates: map<bytes, seq<Fate>>) {
    && (forall u :: Account(At(l.accepted, u), At(fates, u), At(p.queues, u), At(l.delivered, u)))
    && l.purged == Sum(l.accepted.Keys, Discards(l.accepted, fates))
  }

  lemma AccountSend(a: seq<QueuedMessage>, f: seq<Fate>, q: seq<QueuedMessage>, d: seq<QueuedMessage>, m: QueuedMessage)
    requires Account(a, f, q, d)
    ensures Account(a + [m], f + [Waiting], q + [m], d)
    ensures DiscardCount(a + [m], f + [Waiting]) == DiscardCount(a, f)
  {
    SelectAppend(a, f, m, Waiting, Waiting);
    SelectAppend(a, f, m, Waiting, Delivered);
    SelectAppend(a, f, m, Waiting, Discarded);
  }

  lemma AccountPoll(a: seq<QueuedMessage>, f: seq<Fate>, q: seq<QueuedMessage>, d: seq<QueuedMessage>)
    requires Account(a, f, q, d)
    ensures Account(a, HandOut(f), [], d + q)
    ensures DiscardCount(a, HandOut(f)) == DiscardCount(a, f)
  {
    SelectHandOut(a, f);
  }

  lemma AccountPurge(a: seq<QueuedMessage>, f: seq<Fate>, q: seq<QueuedMessage>, d: seq<QueuedMessage>, now: int,
                     ttl: int)
    requires Account(a, f, q, d)
    ensures Account(a, Discard(a, f, now, ttl), Kept(q, now, ttl), d)
    ensures DiscardCount(a, Discard(a, f, now, ttl)) == DiscardCount(a, f) + |q| - |Kept(q, now, ttl)|
  {
    SelectDiscard(a, f, now, ttl);
  }

  /** No account and nothing discarded. */
  lemma AccountNone()
    ensures Account([], [], [], []) && DiscardCount([], []) == 0
    ensures forall q, d :: Account([], [], q, d) ==> q == [] && d == []
  {
  }

  lemma AtUpdate<T>(m: map<bytes, seq<T>>, u: bytes, x: seq<T>, m': map<bytes, seq<T>>)
    requires m' == m[u := x] || (m' == m - {u} && x == [])
    ensures At(m', u) == x && forall v :: v != u ==> At(m', v) == At(m, v)
  {
  }

  lemma NoneDiscarded(accepted: Queues, fates: map<bytes, seq<Fate>>, v: bytes)
    requires v !in accepted
    ensures Discards(accepted, fates)(v) == 0
  {
  }

  /** Replacing one user's account by another that is in order, with as many discarded messages. */
  lemma ReplaceAccount(p: Post, l: Ledger, fates: map<bytes, seq<Fate>>,
                       p': Post, l': Ledger, fates': map<bytes, seq<Fate>>, u: bytes)
    requires Balanced(p, l, fates) && l'.purged == l.purged
    requires l.accepted.Keys <= l'.accepted.Keys <= l.accepted.Keys + {u}
    requires Account(At(l'.accepted, u), At(fates', u), At(p'.queues, u), At(l'.delivered, u))
    requires DiscardCount(At(l'.accepted, u), At(fates', u)) == DiscardCount(At(l.accepted, u), At(fates, u))
    requires forall v :: v != u ==>
               && At(l'.accepted, v) == At(l.accepted, v) && At(fates', v) == At(fates, v)
               && At(p'.queues, v) == At(p.queues, v) && At(l'.delivered, v) == At(l.delivered, v)
    ensures Balanced(p', l', fates')
  {
    hide Account, At, DiscardCount, Sum;
    var n, n' := Discards(l.accepted, fates), Discards(l'.accepted, fates');
    forall v
      ensures Account(At(l'.accepted, v), At(fates', v), At(p'.queues, v), At(l'.delivered, v))
      ensures n'(v) == n(v)
      ensures v !in l.accepted ==> n'(v) == 0
    {
      assert Account(At(l.accepted, v), At(fates, v), At(p.queues, v), At(l.delivered, v));
      if v !in l.accepted { NoneDiscarded(l.accepted, fates, v); }
    }
    SumSame(l.accepted.Keys, n, n');
    SumGrow(l.accepted.Keys, l'.accepted.Keys, n');
  }

  lemma SendBalances(p: Post, l: Ledger, fates: map<bytes, seq<Fate>>, u: bytes, m: QueuedMessage, p': Post, l': Ledger)
    returns (fates': map<bytes, seq<Fate>>)
    requires Balanced(p, l, fates)
    requires p'.queues == p.queues[u := At(p.queues, u) + [m]]
    requires l' == l.(accepted := l.accepted[u := At(l.accepted, u) + [m]])
    ensures Balanced(p', l', fates')
  {
    fates' := fates[u := At(fates, u) + [Waiting]];
    AccountSend(At(l.accepted, u), At(fates, u), At(p.queues, u), At(l.delivered, u), m);
    hide *;
    AtUpdate(l.accepted, u, At(l.accepted, u) + [m], l'.accepted);
    AtUpdate(fates, u, At(fates, u) + [Waiting], fates');
    AtUpdate(p.queues, u, At(p.queues, u) + [m], p'.queues);
    ReplaceAccount(p, l, fates, p', l', fates', u);
  }

  lemma PollBalances(p: Post, l: Ledger, fates: map<bytes, seq<Fate>>, u: bytes, p': Post, l': Ledger)
    returns (fates': map<bytes, seq<Fate>>)
    requires Balanced(p, l, fates)
    requires p'.queues == p.queues - {u}
    requires l' == l.(delivered := l.delivered[u := At(l.delivered, u) + At(p.queues, u)])
    ensures Balanced(p', l', fates')
  {
    fates' := fates[u := HandOut(At(fates, u))];
    AccountPoll(At(l.accepted, u), At(fates, u), At(p.queues, u), At(l.delivered, u));
    hide *;
    AtUpdate(l.delivered, u, At(l.delivered, u) + At(p.queues, u), l'.delivered);
    AtUpdate(fates, u, HandOut(At(fates, u)), fates');
    AtUpdate(p.queues, u, [], p'.queues);
    ReplaceAccount(p, l, fates, p', l', fates', u);
  }

  lemma PurgedAt(queues: Queues, now: int, ttl: int, u: bytes)
    ensures At(Purged(queues, now, ttl), u) == Kept(At(queues, u), now, ttl)
  {
  }

  /** The fates after a purge. */
  function DiscardAll(accepted: Queues, fates: map<bytes, seq<Fate>>, now: int, ttl: int): (r: map<bytes, seq<Fate>>)
    requires forall u :: u in accepted ==> |At(fates, u)| == |accepted[u]|
  {
    map u | u in accepted :: Discard(accepted[u], At(fates, u), now, ttl)
  }

  lemma DiscardAt(accepted: Queues, fates: map<bytes, seq<Fate>>, now: int, ttl: int, u: bytes)
    requires (forall u :: u in accepted ==> |At(fates, u)| == |accepted[u]|) && |At(fates, u)| == |At(accepted, u)|
    ensures At(DiscardAll(accepted, fates, now, ttl), u) == Discard(At(accepted, u), At(fates, u), now, ttl)
  {
  }

  /** One user's account under a purge. */
  lemma PurgeOne(p: Post, l: Ledger, fates: map<bytes, seq<Fate>>, now: int, ttl: int, u: bytes)
    requires forall u :: u in l.accepted ==> |At(fates, u)| == |l.accepted[u]|
    requires Account(At(l.accepted, u), At(fates, u), At(p.queues, u), At(l.delivered, u))
    ensures var fates', q := DiscardAll(l.accepted, fates, now, ttl), Purged(p.queues, now, ttl);
      && Account(At(l.accepted, u), At(fates', u), At(q, u), At(l.delivered, u))
      && Discards(l.accepted, fates')(u) == Discards(l.accepted, fates)(u) + Removed(p.queues, now, ttl)(u)
  {
    PurgedAt(p.queues, now, ttl, u);
    DiscardAt(l.accepted, fates, now, ttl, u);
    AccountPurge(At(l.accepted, u), At(fates, u), At(p.queues, u), At(l.delivered, u), now, ttl);
    hide Account, DiscardCount, DiscardAll, Discard, Purged, At, Kept;
  }

  lemma AccountLengths(p: Post, l: Ledger, fates: map<bytes, seq<Fate>>, now: int, ttl: int, u: bytes)
    requires Account(At(l.accepted, u), At(fates, u), At(p.queues, u), At(l.delivered, u))
    ensures u in l.accepted ==> |At(fates, u)| == |l.accepted[u]|
    ensures u !in l.accepted || u !in p.queues ==> Removed(p.queues, now, ttl)(u) == 0
  {
  }

  lemma PurgeBalances(p: Post, l: Ledger, fates: map<bytes, seq<Fate>>, now: int, ttl: int, p': Post, l': Ledger)
    returns (fates': map<bytes, seq<Fate>>)
    requires Balanced(p, l, fates)
    requires p'.queues == Purged(p.queues, now, ttl)
    requires l' == l.(purged := l.purged + Sum(p.queues.Keys, Removed(p.queues, now, ttl)))
    ensures Balanced(p', l', fates')
  {
    hide Account, At, DiscardAll, Purged, Removed, Discards, Sum;
    var n, n0 := Removed(p.queues, now, ttl), Discards(l.accepted, fates);
    forall u
      ensures u in l.accepted ==> |At(fates, u)| == |l.accepted[u]|
      ensures u !in l.accepted || u !in p.queues ==> n(u) == 0
    {
      assert Account(At(l.accepted, u), At(fates, u), At(p.queues, u), At(l.delivered, u));
      AccountLengths(p, l, fates, now, ttl, u);
    }
    fates' := DiscardAll(l.accepted, fates, now, ttl);
    var n1 := Discards(l.accepted, fates');
    forall u
      ensures Account(At(l'.accepted, u), At(fates', u), At(p'.queues, u), At(l'.delivered, u))
      ensures n1(u) == n0(u) + n(u)
    {
      PurgeOne(p, l, fates, now, ttl, u);
    }
    SumAdd(l.accepted.Keys, n0, n, n1);
    SumGrow(p.queues.Keys * l.accepted.Keys, l.accepted.Keys, n);
    SumGrow(p.queues.Keys * l.accepted.Keys, p.queues.Keys, n);
  }

  lemma StepBalances(p: Post, l: Ledger, fates: map<bytes, seq<Fate>>, ev: PostEvent, p': Post, r: Reply)
    returns (fates': map<bytes, seq<Fate>>)
    requires Balanced(p, l, fates) && (p', r) == PostStep(p, ev)
    ensures Balanced(p', Record(l, ev, r), fates')
  {
    hide Account, Discards, Sum, Purged, Removed;
    var l' := Record(l, ev, r);
    fates' := fates;
    match ev
    case Register(_) =>
    case Send(u, s, envelope, now) =>
      if r != Refused { fates' := SendBalances(p, l, fates, u, QueuedMessage(s, envelope, now), p', l'); }
    case Poll(u) => fates' := PollBalances(p, l, fates, u, p', l');
    case Purge(now, ttl) => fates' := PurgeBalances(p, l, fates, now, ttl, p', l');
  }

  /** Any run keeps every account in order. */
  lemma {:induction false} RunBalances(p: Post, l: Ledger, fates: map<bytes, seq<Fate>>, evs: seq<PostEvent>)
    returns (fates': map<bytes, seq<Fate>>)
    requires Balanced(p, l, fates)
    ensures var (p', l') := PostRun(p, l, evs); Balanced(p', l', fates')
    decreases |evs|
  {
    hide Balanced, PostStep, Record;
    fates' := fates;
    if evs == [] {
    } else {
      var (p', r) := PostStep(p, evs[0]);
      fates' := StepBalances(p, l, fates, evs[0], p', r);
      fates' := RunBalances(p', Record(l, evs[0], r), fates', evs[1..]);
    }
  }

  /**
   Conservation from an empty relay: whatever is sent, polled and purged, there is one fate for each message ever
   accepted such that every queue and every delivery log is exactly the messages of its fate in send order, and the
   numbers that purges returned add up to the discarded messages of all users.
   */
  lemma {:induction false} Conservation(evs: seq<PostEvent>, p: Post, l: Ledger) returns (fates: map<bytes, seq<Fate>>)
    requires (p, l) == PostRun(Post({}, map[]), Ledger(map[], map[], 0), evs)
    ensures Balanced(p, l, fates)
  {
    AccountNone();
    fates := RunBalances(Post({}, map[]), Ledger(map[], map[], 0), map[], evs);
  }

  lemma UserBalances(p: Post, l: Ledger, fates: map<bytes, seq<Fate>>, u: bytes)
    requires Balanced(p, l, fates)
    ensures Lengths(l.accepted)(u)
         == Lengths(p.queues)(u) + Lengths(l.delivered)(u) + Discards(l.accepted, fates)(u)
  {
    assert Account(At(l.accepted, u), At(fates, u), At(p.queues, u), At(l.delivered, u));
    SelectPartitions(At(l.accepted, u), At(fates, u));
  }

  /** Counted over all users, accepted messages are the queued, the delivered and the purged ones. */
  lemma {:induction false} TotalsBalance(evs: seq<PostEvent>, p: Post, l: Ledger)
    requires (p, l) == PostRun(Post({}, map[]), Ledger(map[], map[], 0), evs)
    ensures Sum(l.accepted.Keys, Lengths(l.accepted))
         == Sum(l.accepted.Keys, Lengths(p.queues)) + Sum(l.accepted.Keys, Lengths(l.delivered)) + l.purged
  {
    hide *;
    var fates := Conservation(evs, p, l);
    var keys := l.accepted.Keys;
    var a, q, d, x := Lengths(l.accepted), Lengths(p.queues), Lengths(l.delivered), Discards(l.accepted, fates);
    var qd := (u: bytes) => q(u) + d(u);
    forall u
      ensures a(u) == qd(u) + x(u)
    {
      UserBalances(p, l, fates, u);
    }
    SumAdd(keys, q, d, qd);
    SumAdd(keys, qd, x, a);
  }
}
