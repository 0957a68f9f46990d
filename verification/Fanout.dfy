/** Publishing to an exchange: matching queues, resolving the consumer groups of each, and
    dispatching one message per queue and group. */
module Fanout {
  import opened Text
  import opened Keys
  import opened ExchangeIndex
  import opened GroupCache
  import opened GroupWalk
  import Topic

  // ---------------------------------------------------------------- matching queues

  /** The queues a slot holds. */
  function QueuesIn(slot: set<Elem>): set<Queue> { set e | e in slot && e.QueueRef? :: e.queue }

  /** The databases a match looks at: one when the type is checked, one when the patterns are listed, and
      one for each pattern when its queues are listed. */
  datatype Moments = Moments(typed: Db, listed: Db, slots: string -> Db)

  ghost predicate ValidSlots(at: Moments, ex: Exchange) {
    forall rk, q :: Bound(at.slots(rk), ex, rk, q) ==> ValidQueue(q)
  }

  /** A matching pattern was registered when the patterns were listed, and the queue was bound under it
      when its queues were. */
  ghost predicate Routed(at: Moments, ex: Exchange, routingKey: string, q: Queue) {
    exists pattern ::
      && Topic.Matches(routingKey, pattern)
      && Registered(at.listed, ex, pattern)
      && Bound(at.slots(pattern), ex, pattern, q)
  }

  /** On a database that stands still with an exact registry, being bound under a matching pattern is enough. */
  lemma RoutedStill(db: Db, ex: Exchange, routingKey: string, q: Queue)
    requires Routable(ex) && RegistryExact(db)
    ensures Routed(Moments(db, db, _ => db), ex, routingKey, q) <==>
      exists pattern :: Topic.Matches(routingKey, pattern) && Bound(db, ex, pattern, q)
  {
    var at := Moments(db, db, _ => db);
    if exists pattern :: Topic.Matches(routingKey, pattern) && Bound(db, ex, pattern, q) {
      var pattern :| Topic.Matches(routingKey, pattern) && Bound(db, ex, pattern, q);
      assert Registered(at.listed, ex, pattern) && Bound(at.slots(pattern), ex, pattern, q);
    }
  }

  /** `TopicStore.MatchQueues`: every queue bound under some matching pattern, each once. */
  method MatchTopicQueues(at: Moments, ex: Exchange, routingKey: string) returns (r: Option<Error>, queues: seq<Queue>)
    requires ex.typ == TypeTopic && ValidSlots(at, ex)
    ensures r == TypeError(ex, Get(at.typed, PropsKey(ex)))
    ensures r.Some? ==> queues == []
    ensures NoDup(queues)
    ensures r.None? ==> forall q :: q in queues <==> Routed(at, ex, routingKey, q)
  {
    queues := [];
    r := TypeError(ex, Get(at.typed, PropsKey(ex)));
    if r.Some? {
      return;
    }
    var matched := MatchingPatterns(RegisteredWords(Get(at.listed, RegistryKey(ex))), routingKey);
    var seen: set<string> := {};
    for n := 0 to |matched|
      invariant NoDup(queues)
      invariant forall q :: q in queues ==> ValidQueue(q)
      invariant forall q :: q in queues <==> exists i :: 0 <= i < n && Bound(at.slots(matched[i]), ex, matched[i], q)
      invariant seen == set q | q in queues :: SeenKey(q)
    {
      var bound := QueuesIn(Get(at.slots(matched[n]), SlotKey(ex, matched[n])));
      assert forall q :: q in bound <==> Bound(at.slots(matched[n]), ex, matched[n], q);
      queues, seen := AddUnseen(bound, queues, seen);
    }
    forall q ensures q in queues <==> Routed(at, ex, routingKey, q) {
      if Routed(at, ex, routingKey, q) {
        var pattern :| Topic.Matches(routingKey, pattern) && Registered(at.listed, ex, pattern)
                       && Bound(at.slots(pattern), ex, pattern, q);
        assert pattern in matched;
      } else if q in queues {
        var i :| 0 <= i < |matched| && Bound(at.slots(matched[i]), ex, matched[i], q);
        assert matched[i] in matched;
        assert Registered(at.listed, ex, matched[i]);
        assert false;
      }
    }
  }

  method MatchingPatterns(patterns: set<string>, routingKey: string) returns (matched: seq<string>)
    ensures forall p :: p in matched <==> p in patterns && Topic.Matches(routingKey, p)
  {
    matched := [];
    var rest := patterns;
    while rest != {}
      invariant rest <= patterns
      invariant forall p :: p in matched <==> p in patterns - rest && Topic.Matches(routingKey, p)
      decreases rest
    {
      var p :| p in rest;
      rest := rest - {p};
      var hit := Topic.MatchTopicPattern(routingKey, p);
      if hit {
        matched := matched + [p];
      }
    }
  }

  method AddUnseen(bound: set<Queue>, before: seq<Queue>, seenBefore: set<string>)
      returns (queues: seq<Queue>, seen: set<string>)
    requires NoDup(before) && (forall q :: q in before || q in bound ==> ValidQueue(q))
    requires seenBefore == set q | q in before :: SeenKey(q)
    ensures NoDup(queues)
    ensures forall q :: q in queues <==> q in before || q in bound
    ensures seen == set q | q in queues :: SeenKey(q)
  {
    queues, seen := before, seenBefore;
    var rest := bound;
    while rest != {}
      invariant rest <= bound && NoDup(queues)
      invariant forall q :: q in queues <==> q in before || q in bound - rest
      invariant seen == set q | q in queues :: SeenKey(q)
      decreases rest
    {
      var q :| q in rest;
      rest := rest - {q};
      if SeenKey(q) !in seen {
        assert q !in queues;
        queues := queues + [q];
        seen := seen + {SeenKey(q)};
      } else {
        var p :| p in queues && SeenKey(p) == SeenKey(q);
        QueueTextsInjective(p, q);
      }
    }
  }

  // ---------------------------------------------------------------- dispatching

  datatype Delivery = Delivery(queue: Queue, group: Option<string>)

  /** One message per group, or a single one when the queue has no groups. */
  function QueueDeliveries(q: Queue, groups: seq<string>): seq<Delivery> {
    if groups == [] then [Delivery(q, None)]
    else seq(|groups|, i requires 0 <= i < |groups| => Delivery(q, Some(groups[i])))
  }

  /** The deliveries to queues whose groups are resolved one queue after the other: `groups[i]` is what
      the cache holds for `queues[i]` when its turn comes. */
  function Deliveries(queues: seq<Queue>, groups: seq<seq<string>>): seq<Delivery>
    requires |queues| == |groups|
  {
    if queues == [] then []
    else
      var n := |queues| - 1;
      Deliveries(queues[..n], groups[..n]) + QueueDeliveries(queues[n], groups[n])
  }

  datatype PublishError = NoMatchingQueues | DispatchFailed | RoutingKeyRequired | ExchangeError(error: Error)

  /** What becomes of one call of the publish script: it runs and says so, it refuses, or there is no
      reply, whether it ran or not. */
  datatype Reply = Accepted | Refused | NoReply(ran: bool)

  predicate Ran(r: Reply) { r == Accepted || r == NoReply(true) }

  /** `script(n)` is what becomes of the producer's n-th dispatch. */
  class Producer {
    var sent: seq<Delivery>
    var attempts: nat
    const script: nat -> Reply

    constructor (script: nat -> Reply)
      ensures sent == [] && attempts == 0 && this.script == script
    {
      this.script := script;
      sent := [];
      attempts := 0;
    }

    method Dispatch(d: Delivery) returns (ok: bool)
      modifies this
      ensures attempts == old(attempts) + 1
      ensures ok == (script(old(attempts)) == Accepted)
      ensures match script(old(attempts))
              case Accepted => sent == old(sent) + [d]
              case Refused => sent == old(sent)
              case NoReply(ran) => sent == if ran then old(sent) + [d] else old(sent)
    {
      var reply := script(attempts);
      attempts := attempts + 1;
      if Ran(reply) {
        sent := sent + [d];
      }
      ok := reply == Accepted;
    }

    /** All of the list when every dispatch is accepted; otherwise it stops at the first that is not, and
        what that one delivered may be known to nobody. */
    ghost predicate Served(from: nat, all: seq<Delivery>, ok: bool, served: nat)
      reads this
    {
      && from <= attempts && attempts - from <= |all|
      && (forall n :: from <= n < attempts - 1 ==> script(n) == Accepted)
      && (ok ==> attempts - from == served == |all| && (attempts > from ==> script(attempts - 1) == Accepted))
      && (!ok ==>
           && attempts > from && script(attempts - 1) != Accepted
           && served == attempts - from - (if Ran(script(attempts - 1)) then 0 else 1))
    }

    method ProduceToQueue(q: Queue, groups: Slice, events: seq<CacheEvent>, clock: nat -> nat)
        returns (ok: bool, ghost served: nat)
      requires Valid(groups) && Clockwise(clock, |events|)
      modifies this
      ensures var all := QueueDeliveries(q, Walk(groups, QueueText(q), events, clock));
        && Served(old(attempts), all, ok, served)
        && served <= |all| && sent == old(sent) + all[..served]
    {
      hide Act, ActAll;
      ghost var all := QueueDeliveries(q, Walk(groups, QueueText(q), events, clock));
      if groups.len > 0 {
        for i := 0 to groups.len
          invariant sent == old(sent) + all[..i] && attempts == old(attempts) + i
          invariant forall n :: old(attempts) <= n < attempts ==> script(n) == Accepted
        {
          assert all[..i + 1] == all[..i] + [all[i]];
          ok := Dispatch(Delivery(q, Some(ReadAt(groups, QueueText(q), events, clock, i))));
          if !ok {
            return false, if Ran(script(attempts - 1)) then i + 1 else i;
          }
        }
        return true, groups.len;
      }
      ok := Dispatch(Delivery(q, None));
      served := if Ran(script(attempts - 1)) then 1 else 0;
    }

    /** Publishing to the matched queues, each with the groups the cache gives out at its turn and read
        while the cache goes on changing: all of the deliveries in order, or an error and a prefix of them,
        possibly the whole. */
    method ProduceToExchange(queues: seq<Queue>, cache: CacheRun)
        returns (error: Option<PublishError>, ghost served: nat, ghost groups: seq<seq<string>>)
      requires Timed(cache)
      modifies this
      ensures error == Some(NoMatchingQueues) <==> queues == []
      ensures queues == [] ==> sent == old(sent) && attempts == old(attempts)
      ensures error.None? || error == Some(NoMatchingQueues) || error == Some(DispatchFailed)
      ensures groups == Walks(queues, cache)
      ensures error.None? ==> served == |Deliveries(queues, groups)|
      ensures queues != [] ==> Served(old(attempts), Deliveries(queues, groups), error.None?, served)
      ensures served <= |Deliveries(queues, groups)| && sent == old(sent) + Deliveries(queues, groups)[..served]
    {
      hide Deliveries, QueueDeliveries, Walk;
      groups := Walks(queues, cache);
      NoDeliveries(queues, groups);
      if |queues| == 0 {
        return Some(NoMatchingQueues), 0, groups;
      }
      for i := 0 to |queues|
        invariant sent == old(sent) + Deliveries(queues[..i], groups[..i])
        invariant attempts == old(attempts) + |Deliveries(queues[..i], groups[..i])|
        invariant forall n :: old(attempts) <= n < attempts ==> script(n) == Accepted
      {
        ghost var before := Deliveries(queues[..i], groups[..i]);
        ghost var part := QueueDeliveries(queues[i], groups[i]);
        DeliveriesSplit(queues, groups, i);
        var ok, n := ProduceToQueue(queues[i], cache.resolve(i)(QueueText(queues[i])), cache.events, cache.clock(i));
        Regroup(old(sent), before, part, Deliveries(queues, groups), n);
        if !ok {
          return Some(DispatchFailed), |before| + n, groups;
        }
      }
      assert queues[..|queues|] == queues && groups[..|groups|] == groups;
      error, served := None, |Deliveries(queues, groups)|;
    }

    /** A topic publish from end to end, the cache changing at any time. For every queue none of whose groups
        is removed during its own turn: on success exactly the queue's groups, or the queue itself without
        any, got a message, once each; on failure only those did, and none twice. Queues that do not match
        never get one. */
    method PublishTopic(at: Moments, ex: Exchange, routingKey: string, cache: CacheRun)
        returns (error: Option<PublishError>, ghost turn: map<Queue, nat>)
      requires ex.typ == TypeTopic && ValidSlots(at, ex) && Timed(cache) && Faithful(cache)
      modifies this
      ensures error == Some(RoutingKeyRequired) <==> routingKey == ""
      ensures routingKey != "" ==>
        var stored := StoredType(Get(at.typed, PropsKey(ex)));
        && (stored == None <==> error == Some(ExchangeError(ExchangeNotFound)))
        && (stored.Some? && stored.value != TypeTopic <==> error == Some(ExchangeError(TypeMismatch)))
        && (stored == Some(TypeTopic) ==> error.None? || !error.value.ExchangeError?)
      ensures routingKey != "" && StoredType(Get(at.typed, PropsKey(ex))) == Some(TypeTopic) ==>
        && (error == Some(NoMatchingQueues) <==> forall q :: !Routed(at, ex, routingKey, q))
        && (error == Some(DispatchFailed) <==> exists n :: old(attempts) <= n < attempts && script(n) != Accepted)
      ensures error.Some? && error != Some(DispatchFailed) ==> sent == old(sent) && attempts == old(attempts)
      ensures old(sent) <= sent
      ensures forall q :: q in turn ==> Routed(at, ex, routingKey, q)
      ensures forall p, q :: p in turn && q in turn && turn[p] == turn[q] ==> p == q
      ensures error.None? || error == Some(DispatchFailed) ==> forall q :: Routed(at, ex, routingKey, q) ==> q in turn
      ensures OnlyDue(sent[|old(sent)|..], cache, turn)
      ensures error.None? ==> AllDue(sent[|old(sent)|..], cache, turn)
    {
      hide Timed, Faithful, ValidSlots, Walk, Deliveries, OnlyDue, AllDue;
      turn := map[];
      if routingKey == "" {
        NothingDue(cache);
        assert sent[|old(sent)|..] == [];
        return Some(RoutingKeyRequired), turn;
      }
      var refused, queues := MatchTopicQueues(at, ex, routingKey);
      if refused.Some? {
        NothingDue(cache);
        assert sent[|old(sent)|..] == [];
        return Some(ExchangeError(refused.value)), turn;
      }
      ghost var served, groups;
      error, served, groups := ProduceToExchange(queues, cache);
      assert queues == [] <==> forall q :: !Routed(at, ex, routingKey, q) by {
        if queues != [] {
          assert Routed(at, ex, routingKey, queues[0]) by { assert queues[0] in queues; }
        }
      }
      assert error == Some(DispatchFailed) ==> script(attempts - 1) != Accepted;
      hide Served;
      turn := map q | q in queues :: Position(queues, q);
      ghost var all := Deliveries(queues, groups);
      assert sent[|old(sent)|..] == all[..served];
      PublishMeaning(queues, cache, turn);
      PrefixDue(all, served, cache, turn);
      assert error.None? ==> all[..served] == all;
    }
  }

  // ---------------------------------------------------------------- the cache meanwhile

  /** The cache's side of a publish: the history of its `events`; what it gives out for a queue at the i-th
      turn; and when, in that history, the i-th turn begins and each of the groups is read. */
  datatype CacheRun = CacheRun(events: seq<CacheEvent>, resolve: nat -> string -> Slice, clock: nat -> nat -> nat)

  ghost predicate Timed(cache: CacheRun) {
    && (forall i :: Clockwise(cache.clock(i), |cache.events|))
    && (forall i, key :: Valid(cache.resolve(i)(key)))
  }

  /** The events the cache had seen when the i-th turn began. */
  ghost function Seen(cache: CacheRun, i: nat): seq<CacheEvent>
    requires Timed(cache)
  {
    assert Clockwise(cache.clock(i), |cache.events|);
    assert cache.clock(i)(0) <= cache.clock(i)(0) <= |cache.events|;
    cache.events[..cache.clock(i)(0)]
  }

  /** The slice given out for a queue is made of the cache's own cells, or of none. */
  predicate Resolves(sl: Slice, t: Targets, key: string) {
    Valid(sl) && sl.cells[..sl.len] == GroupsOf(t, key) && (sl.attached <==> key in t)
  }

  ghost predicate Faithful(cache: CacheRun)
    requires Timed(cache)
  {
    CleanLoads(cache.events) && forall i, key :: Resolves(cache.resolve(i)(key), Replay(Seen(cache, i)), key)
  }

  /** What is read of a queue's groups at the i-th turn. */
  ghost function TurnWalk(cache: CacheRun, i: nat, key: string): seq<string>
    requires Timed(cache)
  {
    assert Clockwise(cache.clock(i), |cache.events|) && Valid(cache.resolve(i)(key));
    Walk(cache.resolve(i)(key), key, cache.events, cache.clock(i))
  }

  ghost function Walks(queues: seq<Queue>, cache: CacheRun): (r: seq<seq<string>>)
    requires Timed(cache)
    ensures |r| == |queues|
  {
    seq(|queues|, i requires 0 <= i < |queues| => TurnWalk(cache, i, QueueText(queues[i])))
  }

  /** Where a queue stands among the matched ones. */
  ghost function Position(queues: seq<Queue>, q: Queue): (i: nat)
    requires q in queues
    ensures i < |queues| && queues[i] == q
  {
    var i :| 0 <= i < |queues| && queues[i] == q; i
  }

  /** No group of the queue is removed between its turn and the last read of its groups. */
  ghost predicate CalmTurn(cache: CacheRun, turn: map<Queue, nat>, q: Queue) {
    && q in turn
    && var i, key := turn[q], QueueText(q);
       CalmUntil(key, cache.events, cache.clock(i), cache.resolve(i)(key).len)
  }

  /** No group exists and the message is for the queue itself, or it is for an existing group. */
  ghost predicate GroupDue(events: seq<CacheEvent>, key: string, group: Option<string>) {
    if group.None? then forall g :: !HasGroup(events, key, g) else HasGroup(events, key, group.value)
  }

  /** At the queue's turn the group existed. */
  ghost predicate DueInTurn(cache: CacheRun, turn: map<Queue, nat>, d: Delivery)
    requires Timed(cache)
  {
    d.queue in turn && GroupDue(Seen(cache, turn[d.queue]), QueueText(d.queue), d.group)
  }

  /** Only queues with a turn are served, and of those with a calm turn only what was due, nothing twice. */
  ghost predicate OnlyDue(sent: seq<Delivery>, cache: CacheRun, turn: map<Queue, nat>)
    requires Timed(cache)
  {
    && (forall d :: d in sent ==> d.queue in turn && (CalmTurn(cache, turn, d.queue) ==> DueInTurn(cache, turn, d)))
    && (forall x, y :: 0 <= x < y < |sent| && sent[x] == sent[y] ==> !CalmTurn(cache, turn, sent[x].queue))
  }

  /** Everything due to a queue with a calm turn is served. */
  ghost predicate AllDue(sent: seq<Delivery>, cache: CacheRun, turn: map<Queue, nat>)
    requires Timed(cache)
  {
    forall d: Delivery :: CalmTurn(cache, turn, d.queue) && DueInTurn(cache, turn, d) ==> d in sent
  }

  lemma NothingDue(cache: CacheRun)
    requires Timed(cache)
    ensures OnlyDue([], cache, map[]) && AllDue([], cache, map[])
  {
  }

  lemma PrefixDue(all: seq<Delivery>, served: nat, cache: CacheRun, turn: map<Queue, nat>)
    requires Timed(cache) && served <= |all| && OnlyDue(all, cache, turn)
    ensures OnlyDue(all[..served], cache, turn)
  {
    hide CalmTurn, DueInTurn, Timed;
  }

  /** What a calm turn reads: the groups that existed when it began. */
  lemma CalmTurnReads(cache: CacheRun, i: nat, key: string)
    requires Timed(cache) && Faithful(cache) && CalmUntil(key, cache.events, cache.clock(i), cache.resolve(i)(key).len)
    ensures NoDup(TurnWalk(cache, i, key))
    ensures forall g :: g in TurnWalk(cache, i, key) <==> HasGroup(Seen(cache, i), key, g)
  {
    hide Walk, ApplyAll, HasGroup, NoDup;
    assert Resolves(cache.resolve(i)(key), Replay(Seen(cache, i)), key);
    assert Clockwise(cache.clock(i), |cache.events|);
    CalmWalk(cache.resolve(i)(key), key, cache.events, cache.clock(i));
    assert CleanLoads(Seen(cache, i));
    CacheExact(Seen(cache, i), key);
  }

  /** The deliveries of a publish: those of calm turns are the due ones, all of them, without repeats. */
  lemma PublishMeaning(queues: seq<Queue>, cache: CacheRun, turn: map<Queue, nat>)
    requires NoDup(queues) && Timed(cache) && Faithful(cache)
    requires turn == map q | q in queues :: Position(queues, q)
    ensures var all := Deliveries(queues, Walks(queues, cache)); OnlyDue(all, cache, turn) && AllDue(all, cache, turn)
  {
    hide TurnWalk, Seen, Deliveries, Faithful, Timed;
    var groups := Walks(queues, cache);
    var all := Deliveries(queues, groups);
    ServesDue(queues, groups);
    ServesOnce(queues, groups);
    forall d: Delivery ensures d in all ==> d.queue in turn
                       ensures CalmTurn(cache, turn, d.queue) ==> (d in all <==> DueInTurn(cache, turn, d))
    {
      if CalmTurn(cache, turn, d.queue) {
        var i := turn[d.queue];
        CalmTurnReads(cache, i, QueueText(d.queue));
        DueAt(queues, groups, i, d);
        NoGroupNone(groups[i], Seen(cache, i), QueueText(d.queue));
      }
    }
    forall x, y | 0 <= x < y < |all| && all[x] == all[y] ensures !CalmTurn(cache, turn, all[x].queue) {
      assert ReadTwice(queues, groups, all[x].queue);
      var k :| 0 <= k < |queues| && queues[k] == all[x].queue && !NoDup(groups[k]);
      assert k == turn[all[x].queue];
      if CalmTurn(cache, turn, all[x].queue) {
        CalmTurnReads(cache, k, QueueText(queues[k]));
        assert false;
      }
    }
  }

  lemma DueAt(queues: seq<Queue>, groups: seq<seq<string>>, i: nat, d: Delivery)
    requires NoDup(queues) && |queues| == |groups| && i < |queues| && queues[i] == d.queue
    ensures Due(queues, groups, d) <==>
      if groups[i] == [] then d.group == None else d.group.Some? && d.group.value in groups[i]
  {
  }

  lemma NoGroupNone(groups: seq<string>, events: seq<CacheEvent>, key: string)
    requires forall g :: g in groups <==> HasGroup(events, key, g)
    ensures groups == [] <==> GroupDue(events, key, None)
  {
    if groups != [] {
      assert groups[0] in groups;
    }
  }

  lemma Regroup(origin: seq<Delivery>, a: seq<Delivery>, b: seq<Delivery>, all: seq<Delivery>, n: nat)
    requires n <= |b| && a + b <= all
    ensures (origin + a) + b[..n] == origin + all[..|a| + n]
    ensures n == |b| ==> (origin + a) + b[..n] == origin + (a + b)
  {
    assert all[..|a| + n] == a + b[..n];
  }

  lemma NoDeliveries(queues: seq<Queue>, groups: seq<seq<string>>)
    requires |queues| == |groups|
    ensures Deliveries(queues[..0], groups[..0]) == []
    ensures queues == [] ==> Deliveries(queues, groups) == []
  {
  }

  /** The deliveries up to and at one queue are the beginning of all of them. */
  lemma DeliveriesSplit(queues: seq<Queue>, groups: seq<seq<string>>, i: nat)
    requires i < |queues| == |groups|
    ensures Deliveries(queues[..i + 1], groups[..i + 1])
         == Deliveries(queues[..i], groups[..i]) + QueueDeliveries(queues[i], groups[i])
    ensures Deliveries(queues[..i + 1], groups[..i + 1]) <= Deliveries(queues, groups)
  {
    assert queues[..i + 1][..i] == queues[..i] && groups[..i + 1][..i] == groups[..i];
    DeliveriesPrefix(queues, groups, i + 1);
  }

  lemma {:induction false} DeliveriesPrefix(queues: seq<Queue>, groups: seq<seq<string>>, i: nat)
    requires i <= |queues| == |groups|
    ensures Deliveries(queues[..i], groups[..i]) <= Deliveries(queues, groups)
  {
    if i == |queues| {
      assert queues[..i] == queues && groups[..i] == groups;
    } else {
      var n := |queues| - 1;
      DeliveriesPrefix(queues[..n], groups[..n], i);
      assert queues[..n][..i] == queues[..i] && groups[..n][..i] == groups[..i];
    }
  }

  // ---------------------------------------------------------------- exactly once

  /** The pair is due a message: the queue was matched, and at its turn had the group, or none at all. */
  predicate Due(queues: seq<Queue>, groups: seq<seq<string>>, d: Delivery)
    requires |queues| == |groups|
  {
    exists i :: 0 <= i < |queues| && queues[i] == d.queue
             && if groups[i] == [] then d.group == None else d.group.Some? && d.group.value in groups[i]
  }

  lemma QueueDeliveriesMeaning(q: Queue, groups: seq<string>)
    ensures NoDup(groups) ==> NoDup(QueueDeliveries(q, groups))
    ensures forall d :: d in QueueDeliveries(q, groups) <==>
      d.queue == q && if groups == [] then d.group == None else d.group.Some? && d.group.value in groups
  {
    var all := QueueDeliveries(q, groups);
    forall d: Delivery | d.queue == q && d.group.Some? && d.group.value in groups ensures d in all {
      var i :| 0 <= i < |groups| && groups[i] == d.group.value;
      assert all[i] == d;
    }
  }

  /** Publishing to distinct queues serves exactly the due (queue, group) pairs. */
  lemma {:induction false} ServesDue(queues: seq<Queue>, groups: seq<seq<string>>)
    requires |queues| == |groups|
    ensures forall d :: d in Deliveries(queues, groups) <==> Due(queues, groups, d)
  {
    if queues != [] {
      var n := |queues| - 1;
      ServesDue(queues[..n], groups[..n]);
      QueueDeliveriesMeaning(queues[n], groups[n]);
      OneMoreDue(queues, groups, QueueDeliveries(queues[n], groups[n]));
    }
  }

  /** Some turn of the queue has read a group twice. */
  ghost predicate ReadTwice(queues: seq<Queue>, groups: seq<seq<string>>, q: Queue)
    requires |queues| == |groups|
  {
    exists k :: 0 <= k < |queues| && queues[k] == q && !NoDup(groups[k])
  }

  ghost predicate RepeatsExplained(all: seq<Delivery>, queues: seq<Queue>, groups: seq<seq<string>>)
    requires |queues| == |groups|
  {
    forall x, y :: 0 <= x < y < |all| && all[x] == all[y] ==> ReadTwice(queues, groups, all[x].queue)
  }

  /** And it serves none twice, but of a queue whose groups were read with repeats. */
  lemma {:induction false} ServesOnce(queues: seq<Queue>, groups: seq<seq<string>>)
    requires |queues| == |groups| && NoDup(queues)
    ensures RepeatsExplained(Deliveries(queues, groups), queues, groups)
  {
    if queues != [] {
      var n := |queues| - 1;
      var first, last := Deliveries(queues[..n], groups[..n]), QueueDeliveries(queues[n], groups[n]);
      ServesOnce(queues[..n], groups[..n]);
      ServesDue(queues[..n], groups[..n]);
      QueueDeliveriesMeaning(queues[n], groups[n]);
      assert Deliveries(queues, groups) == first + last;
      hide QueueDeliveries, Due;
      forall d | d in first ensures d.queue != queues[n] {
        EarlierQueue(queues, groups, d);
      }
      forall x, y | 0 <= x < y < |first + last| && (first + last)[x] == (first + last)[y]
        ensures ReadTwice(queues, groups, (first + last)[x].queue)
      {
        RepeatAt(queues, groups, first, last, x, y);
      }
    }
  }

  lemma EarlierQueue(queues: seq<Queue>, groups: seq<seq<string>>, d: Delivery)
    requires |queues| == |groups| > 0 && NoDup(queues) && Due(queues[..|queues| - 1], groups[..|queues| - 1], d)
    ensures d.queue != queues[|queues| - 1]
  {
  }

  lemma OneMoreDue(queues: seq<Queue>, groups: seq<seq<string>>, last: seq<Delivery>)
    requires |queues| == |groups| > 0
    requires var n := |queues| - 1;
      forall d :: d in last <==>
        d.queue == queues[n] && if groups[n] == [] then d.group == None else d.group.Some? && d.group.value in groups[n]
    ensures var n := |queues| - 1;
      forall d :: Due(queues, groups, d) <==> Due(queues[..n], groups[..n], d) || d in last
  {
    var n := |queues| - 1;
    var rest, gs := queues[..n], groups[..n];
    forall d ensures Due(queues, groups, d) <==> Due(rest, gs, d) || d in last {
      if Due(rest, gs, d) {
        var i :| 0 <= i < n && rest[i] == d.queue
          && if gs[i] == [] then d.group == None else d.group.Some? && d.group.value in gs[i];
        assert queues[i] == d.queue && groups[i] == gs[i];
      }
    }
  }

  lemma RepeatAt(queues: seq<Queue>, groups: seq<seq<string>>, first: seq<Delivery>, last: seq<Delivery>,
                 x: nat, y: nat)
    requires |queues| == |groups| > 0
    requires var n := |queues| - 1;
      && (forall d :: d in first ==> d.queue != queues[n])
      && (forall d :: d in last ==> d.queue == queues[n]) && (NoDup(groups[n]) ==> NoDup(last))
      && RepeatsExplained(first, queues[..n], groups[..n])
    requires x < y < |first + last| && (first + last)[x] == (first + last)[y]
    ensures ReadTwice(queues, groups, (first + last)[x].queue)
  {
    var n := |queues| - 1;
    if y < |first| {
      assert first[x] == first[y];
      var k :| 0 <= k < n && queues[..n][k] == first[x].queue && !NoDup(groups[..n][k]);
      assert queues[k] == first[x].queue && groups[k] == groups[..n][k];
    } else {
      assert last[y - |first|] in last;
      assert (first + last)[x].queue == queues[n];
      assert forall i :: 0 <= i < |first| ==> (first + last)[i] == first[i] && first[i] in first;
      assert last[x - |first|] == last[y - |first|];
      assert queues[n] == (first + last)[x].queue && !NoDup(groups[n]);
    }
  }
}
