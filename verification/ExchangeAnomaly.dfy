/** Runs in which a promise one might expect of the exchange transactions is broken, step by step from
    the empty database: a lost EXEC reply, an overwritten type, and the two races on the scan. */
module ExchangeAnomaly {
  import opened Text
  import opened Keys
  import opened ExchangeIndex
  import opened ExchangeCommit
  import opened ExchangeRace
  import opened ExchangeRuns

  // ---------------------------------------------------------------- reachable states

  ghost predicate Reachable(s: Sys) {
    exists states, steps :: IsRun(states, steps) && states[|steps|] == s
  }

  lemma InitialReachable()
    ensures Reachable(INITIAL)
  {
    assert IsRun([INITIAL], []);
  }

  lemma StepReachable(s: Sys, step: Step)
    requires Reachable(s) && Enabled(s, step)
    ensures Reachable(Next(s, step))
  {
    hide Enabled, Next;
    var states, steps :| IsRun(states, steps) && states[|steps|] == s;
    var states', steps' := states + [Next(s, step)], steps + [step];
    forall i | 0 <= i < |steps'|
      ensures Enabled(states'[i], steps'[i]) && states'[i + 1] == Next(states'[i], steps'[i])
    {
    }
    assert IsRun(states', steps') && states'[|steps'|] == Next(s, step);
  }

  lemma ReachableInv(s: Sys)
    requires Reachable(s)
    ensures SysInv(s) && RegistryExact(s.db)
  {
    hide SysInv, RegistryExact, Enabled, Next;
    var states, steps :| IsRun(states, steps) && states[|steps|] == s;
    RunInv(states, steps, |steps|);
    RoutingIndexExact(states, steps, |steps|);
  }

  // ---------------------------------------------------------------- building blocks

  lemma NewQueue(s: Sys, q: Queue) returns (s': Sys)
    requires Reachable(s) && Get(s.db, QueuePropsKey(q)) == {} && s.clients == map[]
    ensures Reachable(s') && s'.clients == map[] && s'.db == s.db[QueuePropsKey(q) := {QueueTypeField(FIFO)}]
  {
    hide Reachable;
    s' := Next(s, Environment(NewQueueOp(q, FIFO)));
    StepReachable(s, Environment(NewQueueOp(q, FIFO)));
  }

  /** A client in the middle of its reads. */
  ghost predicate ReadingWith(s: Sys, id: nat, call: Call, seen: seq<Read>) {
    id in s.clients && s.clients[id] == Client(call, Reading(seen, false), 0)
  }

  /** Two states that differ in one client only. */
  ghost predicate OnlyClient(s: Sys, s': Sys, id: nat) {
    && s'.db == s.db && s'.log == s.log && s'.clients.Keys == s.clients.Keys + {id}
    && forall other :: other in s.clients && other != id ==> s'.clients[other] == s.clients[other]
  }

  lemma Begin(s: Sys, id: nat, call: Call) returns (s': Sys)
    requires Reachable(s) && id !in s.clients && Routable(call.exchange) && CallError(call).None?
    ensures Reachable(s') && OnlyClient(s, s', id) && ReadingWith(s', id, call, [])
  {
    hide Reachable, Decide, Commit, Apply, CallError;
    var s1 := Next(s, Invoke(id, call));
    StepReachable(s, Invoke(id, call));
    s' := Next(s1, Watch(id));
    StepReachable(s1, Watch(id));
  }

  lemma DoRead(s: Sys, id: nat, call: Call, seen: seq<Read>, key: RedisKey) returns (s': Sys)
    requires Reachable(s) && ReadingWith(s, id, call, seen)
    requires Decide(call, seen).Need? && key in Decide(call, seen).keys
    ensures Reachable(s') && OnlyClient(s, s', id)
    ensures ReadingWith(s', id, call, seen + [Read(key, Get(s.db, key), true)])
  {
    hide Reachable, Decide, Commit, Apply, Get;
    s' := Next(s, ReadKey(id, key));
    StepReachable(s, ReadKey(id, key));
  }

  lemma FailRead(s: Sys, id: nat, call: Call, seen: seq<Read>) returns (s': Sys)
    requires Reachable(s) && ReadingWith(s, id, call, seen) && !call.CreateCall?
    requires Decide(call, seen).Need? && PropsKey(call.exchange) in Decide(call, seen).keys
    ensures Reachable(s') && OnlyClient(s, s', id)
    ensures ReadingWith(s', id, call, seen + [Read(PropsKey(call.exchange), {}, false)])
  {
    hide Reachable, Decide, Commit, Apply, Get;
    s' := Next(s, ReadFails(id));
    StepReachable(s, ReadFails(id));
  }

  lemma DoExec(s: Sys, id: nat, call: Call, seen: seq<Read>) returns (s': Sys)
    requires Reachable(s) && ReadingWith(s, id, call, seen) && Decide(call, seen).Exec? && |seen| > 0
    ensures Reachable(s') && s'.db == Commit(s.db, call, seen) && s'.clients.Keys == s.clients.Keys
    ensures forall other :: other in s.clients && other != id ==>
      s'.clients[other] == Disturb(s.clients[other], s.db, s'.db, HSets(call))
  {
    hide Reachable, Decide, Commit, Apply, Disturb;
    s' := Next(s, ExecOk(id));
    StepReachable(s, ExecOk(id));
  }

  lemma ChainClient(a: Sys, b: Sys, c: Sys, id: nat)
    requires OnlyClient(a, b, id) && OnlyClient(b, c, id)
    ensures OnlyClient(a, c, id)
  {
  }

  /** What a bind has read by the time it executes. */
  function BindSeen(db: Db, call: Call, props: Read): seq<Read>
    requires call.BindCall?
  {
    [Read(QueuePropsKey(call.queue), Get(db, QueuePropsKey(call.queue)), true),
     props,
     Read(SlotKey(call.exchange, call.rk), Get(db, SlotKey(call.exchange, call.rk)), true)]
  }

  lemma BindDecides(call: Call, seen: seq<Read>)
    requires call.BindCall? && |seen| == 3 && seen[0].value != {} && QueueRef(call.queue) !in seen[2].value
    requires BindingError(call.exchange, seen[0].value, seen[1].value).None?
    ensures Decide(call, []) == Need({QueuePropsKey(call.queue)})
    ensures Decide(call, [seen[0]]) == Need({PropsKey(call.exchange)})
    ensures Decide(call, [seen[0], seen[1]]) == Need({SlotKey(call.exchange, call.rk)})
    ensures Decide(call, [seen[0], seen[1], seen[2]]) == Exec
  {
    hide BindingError;
  }

  /** A bind running on its own up to its EXEC, with its properties read failed or not. */
  lemma PrepareBind(s: Sys, id: nat, call: Call, fails: bool) returns (s': Sys, seen: seq<Read>)
    requires Reachable(s) && id !in s.clients && call.BindCall? && Routable(call.exchange)
    requires Sound(s.db, OpOf(call)) && (!fails ==> !Irregular(s.db, OpOf(call)))
    ensures Reachable(s') && OnlyClient(s, s', id) && ReadingWith(s', id, call, seen)
    ensures |seen| == 3 && Decide(call, seen).Exec? && Blind(call, seen) == fails
  {
    hide Reachable, BindEffect, Decide, Commit, Apply, Get;
    var props := if fails then Read(PropsKey(call.exchange), {}, false)
                 else Read(PropsKey(call.exchange), Get(s.db, PropsKey(call.exchange)), true);
    seen := BindSeen(s.db, call, props);
    BindDecides(call, seen);
    var s1 := Begin(s, id, call);
    var s2 := DoRead(s1, id, call, [], QueuePropsKey(call.queue));
    assert [] + [seen[0]] == [seen[0]];
    var s3;
    if fails {
      s3 := FailRead(s2, id, call, [seen[0]]);
    } else {
      s3 := DoRead(s2, id, call, [seen[0]], PropsKey(call.exchange));
    }
    assert [seen[0]] + [seen[1]] == [seen[0], seen[1]];
    s' := DoRead(s3, id, call, [seen[0], seen[1]], SlotKey(call.exchange, call.rk));
    assert [seen[0], seen[1]] + [seen[2]] == seen;
    ChainClient(s, s1, s2, id);
    ChainClient(s, s2, s3, id);
    ChainClient(s, s3, s', id);
  }

  /** A bind running on its own from start to end. */
  lemma SoloBind(s: Sys, id: nat, q: Queue, ex: Exchange, rk: string, fails: bool) returns (s': Sys)
    requires Reachable(s) && id !in s.clients && Sound(s.db, BindOp(q, ex, rk))
    requires !fails ==> !Irregular(s.db, BindOp(q, ex, rk))
    ensures Reachable(s') && s'.db == BindEffect(s.db, q, ex, rk) && s'.clients.Keys == s.clients.Keys + {id}
    ensures forall other :: other in s.clients ==>
      s'.clients[other] == Disturb(s.clients[other], s.db, s'.db, HSets(BindCall(q, ex, rk)))
  {
    hide Reachable, BindEffect, Decide, Irregular, Disturb, Get;
    var call := BindCall(q, ex, rk);
    var s1, seen := PrepareBind(s, id, call, fails);
    s' := DoExec(s1, id, call, seen);
  }

  // ---------------------------------------------------------------- a lost reply

  /** The reply to an EXEC that ran is lost: the call reports an error although it has committed. */
  lemma LostReplyCommits(q: Queue, ex: Exchange, rk: string)
    requires Routable(ex) && ArgError(q, ex, rk).None?
    ensures exists s ::
      && Reachable(s) && 0 in s.clients
      && s.clients[0].call == BindCall(q, ex, rk) && s.clients[0].phase == Done(Err(ConnectionFailed))
      && Commits(s.log, 0) == 1 && Bound(s.db, ex, rk, q)
  {
    hide Reachable, Decide, Disturb, ArgError;
    InitialReachable();
    var s1 := NewQueue(INITIAL, q);
    var call := BindCall(q, ex, rk);
    FirstBindSound(s1.db, q, ex, rk);
    var s2, seen := PrepareBind(s1, 0, call, false);
    var s := Next(s2, ExecLost(0));
    StepReachable(s2, ExecLost(0));
    ReachableInv(s2);
    StepOutcome(s2, ExecLost(0), 0);
    assert ClientInv(s2, 0);
    ReachableInv(s);
    assert ClientInv(s, 0);
    BindSlots(s2.db, q, ex, rk, ex, rk);
  }

  /** A first bind of an existing queue on an otherwise empty exchange goes through. */
  lemma FirstBindSound(db: Db, q: Queue, ex: Exchange, rk: string)
    requires Routable(ex) && ArgError(q, ex, rk).None? && Get(db, QueuePropsKey(q)) != {}
    requires Get(db, PropsKey(ex)) == {} && !Bound(db, ex, rk, q)
    ensures Sound(db, BindOp(q, ex, rk)) && !Irregular(db, BindOp(q, ex, rk))
  {
  }

  // ---------------------------------------------------------------- an overwritten type

  /** The queue exists, and the exchange is either new or of the type at hand. */
  predicate Ready(db: Db, q: Queue, ex: Exchange) {
    && Get(db, QueuePropsKey(q)) == {QueueTypeField(FIFO)}
    && (Get(db, PropsKey(ex)) == {} || Get(db, PropsKey(ex)) == {TypeField(ex.typ)})
  }

  lemma ReadyBind(db: Db, q: Queue, ex: Exchange, rk: string)
    requires Ready(db, q, ex) && Routable(ex) && ArgError(q, ex, rk).None? && !Bound(db, ex, rk, q)
    ensures Sound(db, BindOp(q, ex, rk)) && !Irregular(db, BindOp(q, ex, rk))
  {
    hide ArgError;
  }

  lemma ReadyKept(db: Db, q: Queue, ex: Exchange, q': Queue, rk: string)
    requires Ready(db, q, ex) && Routable(ex)
    ensures Ready(BindEffect(db, q', ex, rk), q, ex)
    ensures StoredType(Get(BindEffect(db, q', ex, rk), PropsKey(ex))) == Some(ex.typ)
  {
    hide BindEffect, Get;
    BindAt(db, q', ex, rk, QueuePropsKey(q));
    BindAt(db, q', ex, rk, PropsKey(ex));
    var props := Get(db, PropsKey(ex));
    assert SetType(props, ex.typ) == {TypeField(ex.typ)};
  }

  /** A bind of another type whose read of the properties failed commits like any other. Afterwards the
      queue is bound under both types, but only the later one is stored: neither the types nor the
      catalogues are exact any more. */
  lemma FailedLoadOverwritesType(q: Queue, first: Exchange, second: Exchange, a: string, b: string)
    requires Routable(first) && Routable(second)
    requires first.ns == second.ns && first.name == second.name && first.typ != second.typ
    requires ArgError(q, first, a).None? && ArgError(q, second, b).None?
    ensures exists s ::
      && Reachable(s) && Bound(s.db, first, a, q) && Bound(s.db, second, b, q)
      && TypeIn(s.db, first.ns, first.name) == Some(second.typ)
      && !TypesExact(s.db) && !CatalogueExact(s.db)
  {
    hide Reachable, BindEffect, Decide, Disturb, ArgError, Irregular;
    InitialReachable();
    var s0 := NewQueue(INITIAL, q);
    ReadyBind(s0.db, q, first, a);
    var s1 := SoloBind(s0, 0, q, first, a, false);
    ReadyKept(s0.db, q, first, q, a);
    BindSlots(s0.db, q, first, a, second, b);
    BindSlots(s0.db, q, first, a, first, a);
    var s := SoloBind(s1, 1, q, second, b, true);
    BindSlots(s1.db, q, second, b, first, a);
    BindSlots(s1.db, q, second, b, second, b);
    BindType(s1.db, q, second, b, first.ns, first.name);
    assert Get(s.db, SlotKey(first, a)) != {};
    EntryKept(s0.db, q, first, a, first);
    EntryKept(s1.db, q, second, b, first);
    assert !CataloguedRight(s.db, first);
  }

  /** A bind enters its exchange in the catalogue and removes none. */
  lemma EntryKept(db: Db, q: Queue, ex: Exchange, rk: string, ex': Exchange)
    requires ex' == ex || ExchangeRef(ex') in Get(db, SystemKey(AllExchanges))
    ensures ExchangeRef(ex') in Get(BindEffect(db, q, ex, rk), SystemKey(AllExchanges))
  {
    hide BindEffect, SetType, Get;
    BindAt(db, q, ex, rk, SystemKey(AllExchanges));
  }

  // ---------------------------------------------------------------- what WATCH does not cover

  /** What an unbind has read by the time it executes, when just one other key is registered. */
  function UnbindSeen(db: Db, q: Queue, ex: Exchange, rk: string, other: string): seq<Read> {
    [Read(PropsKey(ex), Get(db, PropsKey(ex)), true),
     Read(SlotKey(ex, rk), Get(db, SlotKey(ex, rk)), true),
     Read(RegistryKey(ex), Get(db, RegistryKey(ex)), true),
     Read(SlotKey(ex, other), Get(db, SlotKey(ex, other)), true),
     Read(SlotKey(ex, rk), Get(db, SlotKey(ex, rk)), true)]
  }

  /** Both keys are registered and no other; the queue is bound under the first. */
  ghost predicate TwoKeys(db: Db, q: Queue, ex: Exchange, rk: string, other: string) {
    && Routable(ex) && rk != other && StoredType(Get(db, PropsKey(ex))) == Some(ex.typ) && Bound(db, ex, rk, q)
    && RegisteredWords(Get(db, RegistryKey(ex))) == {rk, other}
  }

  lemma UnbindDecides(db: Db, q: Queue, ex: Exchange, rk: string, other: string)
    requires TwoKeys(db, q, ex, rk, other)
    ensures var call, seen := UnbindCall(q, ex, rk), UnbindSeen(db, q, ex, rk, other);
      && Decide(call, []) == Need({PropsKey(ex)})
      && Decide(call, seen[..1]) == Need({SlotKey(ex, rk)})
      && Decide(call, seen[..2]) == Need({RegistryKey(ex)})
      && Decide(call, seen[..3]) == Need({SlotKey(ex, other)})
      && Decide(call, seen[..4]) == Need({SlotKey(ex, rk)})
      && Decide(call, seen) == Exec
      && (ScanHit(q, ex, rk, seen) <==> Bound(db, ex, other, q))
  {
    hide StoredType, Get, RegisteredWords;
    var seen := UnbindSeen(db, q, ex, rk, other);
    SlotKeyInjective(ex, rk, ex, other);
    assert seen[..1][0] == seen[0] && seen[..2][1] == seen[1];
    assert !ScanHit(q, ex, rk, seen[..3]);
    assert Unscanned(ex, rk, seen[..3]) == {SlotKey(ex, other)} by {
      assert other in RegisteredWords(seen[..3][2].value);
    }
    assert Unscanned(ex, rk, seen[..4]) == {} by {
      assert seen[..4][3].key == SlotKey(ex, other);
    }
    if Bound(db, ex, other, q) {
      assert seen[3].key != SlotKey(ex, rk) && QueueRef(q) in seen[3].value;
    }
  }

  /** An unbind running on its own up to its EXEC. */
  lemma PrepareUnbind(s: Sys, id: nat, q: Queue, ex: Exchange, rk: string, other: string) returns (s': Sys)
    requires Reachable(s) && id !in s.clients && TwoKeys(s.db, q, ex, rk, other) && ArgError(q, ex, rk).None?
    ensures Reachable(s') && OnlyClient(s, s', id)
    ensures ReadingWith(s', id, UnbindCall(q, ex, rk), UnbindSeen(s.db, q, ex, rk, other))
    ensures Decide(UnbindCall(q, ex, rk), UnbindSeen(s.db, q, ex, rk, other)).Exec?
    ensures ScanHit(q, ex, rk, UnbindSeen(s.db, q, ex, rk, other)) <==> Bound(s.db, ex, other, q)
  {
    hide Reachable, Decide, Get, ArgError, TwoKeys, ScanHit;
    var call, seen := UnbindCall(q, ex, rk), UnbindSeen(s.db, q, ex, rk, other);
    UnbindDecides(s.db, q, ex, rk, other);
    var t0 := StartUnbind(s, id, q, ex, rk, other);
    var t1 := DoRead(t0, id, call, [], seen[0].key);
    assert [] + [seen[0]] == seen[..1];
    var t2 := DoRead(t1, id, call, seen[..1], seen[1].key);
    assert seen[..1] + [seen[1]] == seen[..2];
    var t3 := DoRead(t2, id, call, seen[..2], seen[2].key);
    assert seen[..2] + [seen[2]] == seen[..3];
    var t4 := DoRead(t3, id, call, seen[..3], seen[3].key);
    assert seen[..3] + [seen[3]] == seen[..4];
    s' := DoRead(t4, id, call, seen[..4], seen[4].key);
    assert seen[..4] + [seen[4]] == seen;
    ChainClient(s, t0, t1, id);
    ChainClient(s, t1, t2, id);
    ChainClient(s, t2, t3, id);
    ChainClient(s, t3, t4, id);
    ChainClient(s, t4, s', id);
  }

  lemma StartUnbind(s: Sys, id: nat, q: Queue, ex: Exchange, rk: string, other: string) returns (s': Sys)
    requires Reachable(s) && id !in s.clients && TwoKeys(s.db, q, ex, rk, other) && ArgError(q, ex, rk).None?
    ensures Reachable(s') && OnlyClient(s, s', id) && ReadingWith(s', id, UnbindCall(q, ex, rk), [])
  {
    hide Reachable, Decide, ArgError;
    s' := Begin(s, id, UnbindCall(q, ex, rk));
  }

  lemma Undisturbable(c: Client, db: Db, db': Db, hset: set<RedisKey>)
    requires forall k :: k in Watched(c.call) ==> !Touched(db, db', hset, k)
    ensures Disturb(c, db, db', hset) == c
  {
  }

  /** An unbind that empties nothing touches no key watched by an unbind of another routing key. */
  lemma UnbindUntouched(db: Db, q: Queue, ex: Exchange, a: string, b: string, k: RedisKey)
    requires Routable(ex) && a != b && k in Watched(UnbindCall(q, ex, b))
    ensures !Touched(db, UnbindEffect(db, q, ex, a, false, true), {}, k)
  {
    hide UnbindEffect, Get;
    UnbindAt(db, q, ex, a, false, true, k);
    SlotKeyInjective(ex, a, ex, b);
    assert Get(db, k) - {} == Get(db, k);
  }

  /** A bind under a registered key of a listed queue touches no key watched by an unbind of another key. */
  lemma BindUntouched(db: Db, q: Queue, ex: Exchange, a: string, b: string, k: RedisKey)
    requires Routable(ex) && a != b && Registered(db, ex, b) && Listed(db, q, ex)
    requires k in Watched(UnbindCall(q, ex, a))
    ensures !Touched(db, BindEffect(db, q, ex, b), HSets(BindCall(q, ex, b)), k)
  {
    hide BindEffect, SetType, Get;
    SlotKeyInjective(ex, a, ex, b);
    BindAt(db, q, ex, b, k);
    assert BindAdds(q, ex, b, k) <= Get(db, k);
  }

  /** What a bind adds, read off key by key. */
  lemma BindView(db: Db, q: Queue, ex: Exchange, rk: string)
    requires Routable(ex)
    ensures var db' := BindEffect(db, q, ex, rk);
      && (forall rk', q' :: Bound(db', ex, rk', q') <==> Bound(db, ex, rk', q') || (rk', q') == (rk, q))
      && RegisteredWords(Get(db', RegistryKey(ex))) == RegisteredWords(Get(db, RegistryKey(ex))) + {rk}
      && (forall q' :: Listed(db', q', ex) <==> Listed(db, q', ex) || q' == q)
  {
    hide BindEffect, SetType, Get;
    BindAt(db, q, ex, rk, RegistryKey(ex));
    forall rk', q'
      ensures Bound(BindEffect(db, q, ex, rk), ex, rk', q') <==> Bound(db, ex, rk', q') || (rk', q') == (rk, q)
    {
      BindSlots(db, q, ex, rk, ex, rk');
    }
    forall q' ensures Listed(BindEffect(db, q, ex, rk), q', ex) <==> Listed(db, q', ex) || q' == q {
      BindLists(db, q, ex, rk, q', ex);
    }
    var before := Get(db, RegistryKey(ex));
    assert RegisteredWords(before + {Word(rk)}) == RegisteredWords(before) + {rk};
  }

  /** Two queues and a few binds, one after the other. */
  lemma TwoQueues(q: Queue, p: Queue, ex: Exchange) returns (s: Sys)
    requires q != p
    ensures Reachable(s) && s.clients == map[] && Ready(s.db, q, ex) && Ready(s.db, p, ex)
    ensures RegisteredWords(Get(s.db, RegistryKey(ex))) == {}
    ensures forall rk, q' :: !Bound(s.db, ex, rk, q')
  {
    hide Reachable;
    InitialReachable();
    var s1 := NewQueue(INITIAL, q);
    s := NewQueue(s1, p);
  }

  lemma AddBind(s: Sys, id: nat, q: Queue, p: Queue, ex: Exchange, rk: string) returns (s': Sys)
    requires Reachable(s) && id !in s.clients && Routable(ex) && ArgError(q, ex, rk).None?
    requires Ready(s.db, q, ex) && Ready(s.db, p, ex) && !Bound(s.db, ex, rk, q)
    ensures Reachable(s') && s'.clients.Keys == s.clients.Keys + {id} && s'.db == BindEffect(s.db, q, ex, rk)
    ensures Ready(s'.db, q, ex) && Ready(s'.db, p, ex) && StoredType(Get(s'.db, PropsKey(ex))) == Some(ex.typ)
    ensures forall other :: other in s.clients ==>
      s'.clients[other] == Disturb(s.clients[other], s.db, s'.db, HSets(BindCall(q, ex, rk)))
  {
    hide Reachable, BindEffect, Disturb, ArgError, Ready, Sound, Irregular, Bound;
    ReadyBind(s.db, q, ex, rk);
    s' := SoloBind(s, id, q, ex, rk, false);
    ReadyKept(s.db, q, ex, q, rk);
    ReadyKept(s.db, p, ex, q, rk);
  }

  /** The scan reads slots nobody watches. Two unbinds of a queue from its last two routing keys each see
      the other's binding: neither disturbs the other, both commit, and the exchange stays listed for a
      queue that is bound nowhere. */
  lemma RacingUnbindsStrandListing(q: Queue, p: Queue, ex: Exchange, a: string, b: string)
    requires q != p && a != b && Routable(ex)
    requires ArgError(q, ex, a).None? && ArgError(q, ex, b).None? && ArgError(p, ex, a).None?
    ensures exists s ::
      && Reachable(s) && !BackIndexExact(s.db)
      && Listed(s.db, q, ex) && forall rk :: !Bound(s.db, ex, rk, q)
  {
    hide Reachable, BindEffect, Disturb, ArgError, Ready, Decide, ScanHit, UnbindEffect, Get, RegisteredWords;
    hide StoredType;
    var s0 := TwoQueues(q, p, ex);
    var s1 := AddBind(s0, 0, q, p, ex, a);
    BindView(s0.db, q, ex, a);
    var s2 := AddBind(s1, 1, q, p, ex, b);
    BindView(s1.db, q, ex, b);
    var s3 := AddBind(s2, 2, p, q, ex, a);
    BindView(s2.db, p, ex, a);
    assert {} + {a} + {b} + {a} == {a, b} == {b, a};
    var s4 := PrepareUnbind(s3, 3, q, ex, a, b);
    var s5 := PrepareUnbind(s4, 4, q, ex, b, a);
    var s := TwoExecs(s5, q, p, ex, a, b);
  }

  lemma TwoExecs(s: Sys, q: Queue, p: Queue, ex: Exchange, a: string, b: string) returns (s': Sys)
    requires Reachable(s) && q != p && a != b && Routable(ex)
    requires ReadingWith(s, 3, UnbindCall(q, ex, a), UnbindSeen(s.db, q, ex, a, b))
    requires ReadingWith(s, 4, UnbindCall(q, ex, b), UnbindSeen(s.db, q, ex, b, a))
    requires Decide(UnbindCall(q, ex, a), UnbindSeen(s.db, q, ex, a, b)).Exec?
    requires Decide(UnbindCall(q, ex, b), UnbindSeen(s.db, q, ex, b, a)).Exec?
    requires ScanHit(q, ex, a, UnbindSeen(s.db, q, ex, a, b)) && ScanHit(q, ex, b, UnbindSeen(s.db, q, ex, b, a))
    requires Bound(s.db, ex, a, q) && Bound(s.db, ex, a, p) && Listed(s.db, q, ex)
    requires forall rk :: Bound(s.db, ex, rk, q) ==> rk == a || rk == b
    ensures Reachable(s') && !BackIndexExact(s'.db)
    ensures Listed(s'.db, q, ex) && forall rk :: !Bound(s'.db, ex, rk, q)
  {
    hide Reachable, Decide, ScanHit, UnbindEffect, Get;
    var db, seenB := s.db, UnbindSeen(s.db, q, ex, b, a);
    TwoMembers(Get(db, SlotKey(ex, a)), QueueRef(q), QueueRef(p));
    var t := DoExec(s, 3, UnbindCall(q, ex, a), UnbindSeen(db, q, ex, a, b));
    forall k | k in Watched(UnbindCall(q, ex, b)) ensures !Touched(db, t.db, {}, k) {
      UnbindUntouched(db, q, ex, a, b, k);
    }
    Undisturbable(s.clients[4], db, t.db, {});
    s' := DoExec(t, 4, UnbindCall(q, ex, b), seenB);
    var last := |seenB[4].value| == 1;
    UnbindLists(db, q, ex, a, false, true, q, ex);
    UnbindLists(t.db, q, ex, b, last, true, q, ex);
    forall rk ensures !Bound(s'.db, ex, rk, q) {
      UnbindAt(db, q, ex, a, false, true, SlotKey(ex, rk));
      UnbindAt(t.db, q, ex, b, last, true, SlotKey(ex, rk));
      assert Bound(db, ex, rk, q) ==> rk == a || rk == b;
    }
  }

  lemma TwoMembers(slot: set<Elem>, x: Elem, y: Elem)
    requires x in slot && y in slot && x != y
    ensures |slot| > 1
  {
    assert |slot - {x}| == |slot| - 1;
    assert y in slot - {x};
  }

  /** The other way round: a bind that commits after the scan, under a key another queue has registered,
      touches no key the unbind watches; the unbind then drops the exchange from the list of a queue that
      has just been bound. */
  lemma RacingBindLosesListing(q: Queue, p: Queue, ex: Exchange, a: string, b: string)
    requires q != p && a != b && Routable(ex)
    requires ArgError(q, ex, a).None? && ArgError(q, ex, b).None? && ArgError(p, ex, b).None?
    ensures exists s ::
      && Reachable(s) && !BackIndexExact(s.db)
      && Bound(s.db, ex, b, q) && !Listed(s.db, q, ex)
  {
    hide Reachable, BindEffect, Disturb, ArgError, Ready, Decide, ScanHit, UnbindEffect, Get, RegisteredWords;
    hide StoredType;
    var s0 := TwoQueues(q, p, ex);
    var s1 := AddBind(s0, 0, q, p, ex, a);
    BindView(s0.db, q, ex, a);
    var s2 := AddBind(s1, 1, p, q, ex, b);
    BindView(s1.db, p, ex, b);
    assert {} + {a} + {b} == {a, b};
    var s3 := PrepareUnbind(s2, 2, q, ex, a, b);
    RegisteredWord(s3.db, ex, b);
    var s := BindThenExec(s3, q, p, ex, a, b);
  }

  lemma BindThenExec(s: Sys, q: Queue, p: Queue, ex: Exchange, a: string, b: string) returns (s': Sys)
    requires Reachable(s) && a != b && Routable(ex) && 3 !in s.clients && ArgError(q, ex, b).None?
    requires ReadingWith(s, 2, UnbindCall(q, ex, a), UnbindSeen(s.db, q, ex, a, b))
    requires Decide(UnbindCall(q, ex, a), UnbindSeen(s.db, q, ex, a, b)).Exec?
    requires !ScanHit(q, ex, a, UnbindSeen(s.db, q, ex, a, b))
    requires Ready(s.db, q, ex) && Ready(s.db, p, ex)
    requires Registered(s.db, ex, b) && !Bound(s.db, ex, b, q) && Listed(s.db, q, ex)
    ensures Reachable(s') && !BackIndexExact(s'.db)
    ensures Bound(s'.db, ex, b, q) && !Listed(s'.db, q, ex)
  {
    hide Reachable, BindEffect, Disturb, ArgError, Ready, Decide, ScanHit, UnbindEffect, Get, StoredType;
    var seen := UnbindSeen(s.db, q, ex, a, b);
    var t := AddBind(s, 3, q, p, ex, b);
    forall k | k in Watched(UnbindCall(q, ex, a)) ensures !Touched(s.db, t.db, HSets(BindCall(q, ex, b)), k) {
      BindUntouched(s.db, q, ex, a, b, k);
    }
    Undisturbable(s.clients[2], s.db, t.db, HSets(BindCall(q, ex, b)));
    s' := DoExec(t, 2, UnbindCall(q, ex, a), seen);
    BindView(s.db, q, ex, b);
    LastListingDropped(t.db, q, ex, a, b, |seen[4].value| == 1);
  }

  lemma LastListingDropped(db: Db, q: Queue, ex: Exchange, a: string, b: string, last: bool)
    requires Routable(ex) && a != b && Bound(db, ex, b, q)
    ensures var db' := UnbindEffect(db, q, ex, a, last, false);
      Bound(db', ex, b, q) && !Listed(db', q, ex) && !BackIndexExact(db')
  {
    hide UnbindEffect, Get;
    UnbindLists(db, q, ex, a, last, false, q, ex);
    UnbindAt(db, q, ex, a, last, false, SlotKey(ex, b));
    SlotKeyInjective(ex, a, ex, b);
  }

  lemma RegisteredWord(db: Db, ex: Exchange, rk: string)
    requires rk in RegisteredWords(Get(db, RegistryKey(ex)))
    ensures Registered(db, ex, rk)
  {
  }
}
