/** Bind, unbind and create as optimistic WATCH / EXEC transactions of any number of clients,
    interleaved read by read. Deleting an exchange and creating a queue are single atomic steps
    of the environment. */
module ExchangeRace {
  import opened Text
  import opened Keys
  import opened ExchangeIndex
  import opened ExchangeCommit

  // ---------------------------------------------------------------- the retry loop

  datatype Attempt = Committed | Conflict | Failed(error: Error)

  /** `WithTransaction`: the call succeeds when the first attempt that is not a conflict
      commits, and reports exhaustion only after a conflict in every allowed attempt. */
  method WithTransaction(maxAttempts: int, watch: nat -> Attempt) returns (r: Outcome, used: nat)
    ensures var limit := if maxAttempts > 0 then maxAttempts else 3;
      && 1 <= used <= limit
      && (watch(used - 1) == Conflict ==> used == limit)
    ensures forall i :: 0 <= i < used - 1 ==> watch(i) == Conflict
    ensures r == Ok <==> watch(used - 1) == Committed
    ensures watch(used - 1).Failed? ==> r == Err(watch(used - 1).error)
    ensures watch(used - 1) == Conflict ==> r == Err(RetriesExhausted)
  {
    var limit := if maxAttempts <= 0 then 3 else maxAttempts;
    used := 0;
    while used < limit
      invariant used <= limit
      invariant forall i :: 0 <= i < used ==> watch(i) == Conflict
    {
      var attempt := watch(used);
      used := used + 1;
      if attempt == Committed {
        return Ok, used;
      }
      if attempt != Conflict {
        return Err(attempt.error), used;
      }
    }
    r := Err(RetriesExhausted);
  }

  // ---------------------------------------------------------------- clients

  datatype Call =
    | BindCall(queue: Queue, exchange: Exchange, rk: string)
    | UnbindCall(queue: Queue, exchange: Exchange, rk: string)
    | CreateCall(exchange: Exchange, policy: Policy)

  /** A read of the exchange's properties that failed looks like one that found nothing. */
  datatype Read = Read(key: RedisKey, value: set<Elem>, ok: bool)

  /** `dirty` is Redis' own note that a watched key was touched since WATCH. */
  datatype Phase = Idle | Reading(seen: seq<Read>, dirty: bool) | Done(outcome: Outcome)

  datatype Client = Client(call: Call, phase: Phase, aborts: nat)

  function OpOf(call: Call): Op {
    match call
    case BindCall(q, ex, rk) => BindOp(q, ex, rk)
    case UnbindCall(q, ex, rk) => UnbindOp(q, ex, rk)
    case CreateCall(ex, policy) => CreateOp(ex, policy)
  }

  function MaxAttempts(call: Call): nat { if call.CreateCall? then 3 else 5 }

  function CallError(call: Call): Option<Error> {
    if call.CreateCall? then None else ArgError(call.queue, call.exchange, call.rk)
  }

  function Watched(call: Call): set<RedisKey> {
    match call
    case BindCall(q, ex, rk) =>
      {ExchangeKey(ex.ns, ex.name), PropsKey(ex), RegistryKey(ex), SlotKey(ex, rk), BindingsKey(q),
       SystemKey(AllExchanges), NamespaceExchanges(ex.ns)}
    case UnbindCall(q, ex, rk) =>
      {ExchangeKey(ex.ns, ex.name), RegistryKey(ex), SlotKey(ex, rk), BindingsKey(q)}
    case CreateCall(ex, _) =>
      {PropsKey(ex), SystemKey(AllExchanges), NamespaceExchanges(ex.ns)}
  }

  // ---------------------------------------------------------------- the transaction bodies

  /** What a transaction does next, given what it has read: read one of some keys, give up, or EXEC. */
  datatype Decision = Need(keys: set<RedisKey>) | Refuse(error: Error) | Exec

  function DecideBind(q: Queue, ex: Exchange, rk: string, seen: seq<Read>): Decision {
    if |seen| == 0 then Need({QueuePropsKey(q)})
    else if seen[0].value == {} then Refuse(QueueNotFound)
    else if |seen| == 1 then Need({PropsKey(ex)})
    else
      var refused := BindingError(ex, seen[0].value, seen[1].value);
      if refused.Some? then Refuse(refused.value)
      else if |seen| == 2 then Need({SlotKey(ex, rk)})
      else if QueueRef(q) in seen[2].value then Refuse(AlreadyBound)
      else Exec
  }

  /** Some scanned slot of another routing key held the queue. */
  predicate ScanHit(q: Queue, ex: Exchange, rk: string, seen: seq<Read>) {
    exists i :: 3 <= i < |seen| && seen[i].key != SlotKey(ex, rk) && QueueRef(q) in seen[i].value
  }

  function Unscanned(ex: Exchange, rk: string, seen: seq<Read>): set<RedisKey>
    requires |seen| >= 3
  {
    set other | other in RegisteredWords(seen[2].value) && other != rk
             && (forall i :: 3 <= i < |seen| ==> seen[i].key != SlotKey(ex, other)) :: SlotKey(ex, other)
  }

  function DecideUnbind(q: Queue, ex: Exchange, rk: string, seen: seq<Read>): Decision {
    if |seen| == 0 then Need({PropsKey(ex)})
    else
      var refused := TypeError(ex, seen[0].value);
      if refused.Some? then Refuse(refused.value)
      else if |seen| == 1 then Need({SlotKey(ex, rk)})
      else if QueueRef(q) !in seen[1].value then Refuse(NotBound)
      else if |seen| == 2 then Need({RegistryKey(ex)})
      else if |seen| > 3 && seen[|seen| - 1].key == SlotKey(ex, rk) then Exec
      else if ScanHit(q, ex, rk, seen) || Unscanned(ex, rk, seen) == {} then Need({SlotKey(ex, rk)})
      else Need(Unscanned(ex, rk, seen))
  }

  function Decide(call: Call, seen: seq<Read>): Decision {
    match call
    case BindCall(q, ex, rk) => DecideBind(q, ex, rk, seen)
    case UnbindCall(q, ex, rk) => DecideUnbind(q, ex, rk, seen)
    case CreateCall(ex, _) =>
      if |seen| == 0 then Need({PropsKey(ex)})
      else if StoredType(seen[0].value).Some? then Refuse(AlreadyExists)
      else Exec
  }

  /** The queued commands, applied to whatever the database is at EXEC. */
  function Commit(db: Db, call: Call, seen: seq<Read>): Db
    requires |seen| > 0
  {
    match call
    case BindCall(q, ex, rk) => BindEffect(db, q, ex, rk)
    case UnbindCall(q, ex, rk) =>
      UnbindEffect(db, q, ex, rk, |seen[|seen| - 1].value| == 1, ScanHit(q, ex, rk, seen))
    case CreateCall(ex, policy) => CreateEffect(db, ex, policy)
  }

  // ---------------------------------------------------------------- the system

  /** One change of the database, in commit order. A bind is blind when its read of the exchange's
      properties failed. */
  datatype Entry = Entry(client: Option<nat>, op: Op, blind: bool)

  datatype Sys = Sys(db: Db, clients: map<nat, Client>, log: seq<Entry>)

  function Ops(log: seq<Entry>): seq<Op> { seq(|log|, i requires 0 <= i < |log| => log[i].op) }

  function Commits(log: seq<Entry>, id: nat): nat {
    if log == [] then 0
    else Commits(log[..|log| - 1], id) + if log[|log| - 1].client == Some(id) then 1 else 0
  }

  predicate Blind(call: Call, seen: seq<Read>) { call.BindCall? && |seen| > 1 && !seen[1].ok }

  /** A key is touched when its value changes; HSET touches its hash regardless. */
  ghost predicate Touched(db: Db, db': Db, hset: set<RedisKey>, k: RedisKey) {
    Get(db, k) != Get(db', k) || k in hset
  }

  ghost function Disturb(c: Client, db: Db, db': Db, hset: set<RedisKey>): Client {
    if c.phase.Reading? && (exists k :: k in Watched(c.call) && Touched(db, db', hset, k)) then
      c.(phase := c.phase.(dirty := true))
    else c
  }

  ghost function Publish(s: Sys, db': Db, hset: set<RedisKey>, e: Entry): Sys {
    Sys(db', map id | id in s.clients :: Disturb(s.clients[id], s.db, db', hset), s.log + [e])
  }

  function HSets(call: Call): set<RedisKey> {
    if call.UnbindCall? then {} else {PropsKey(call.exchange)}
  }

  /** `ReadFails` is a failed read of the exchange's properties, which `Load` and `ValidateType`
      report as "not found". Every other failed command, and a lost reply to WATCH or to an EXEC
      that did not run, is a `Disconnect`. `ExecLost` is an EXEC that ran but whose reply was lost. */
  datatype Step =
    | Invoke(id: nat, call: Call)
    | Watch(id: nat)
    | ReadKey(id: nat, key: RedisKey)
    | ReadFails(id: nat)
    | ExecOk(id: nat)
    | ExecLost(id: nat)
    | ExecAbort(id: nat)
    | GiveUp(id: nat)
    | Disconnect(id: nat)
    | Environment(op: Op)

  ghost predicate CanRead(s: Sys, id: nat, key: RedisKey) {
    && id in s.clients && s.clients[id].phase.Reading?
    && var d := Decide(s.clients[id].call, s.clients[id].phase.seen); d.Need? && key in d.keys
  }

  ghost predicate CanExec(s: Sys, id: nat) {
    && id in s.clients && s.clients[id].phase.Reading? && !s.clients[id].phase.dirty
    && Decide(s.clients[id].call, s.clients[id].phase.seen).Exec? && |s.clients[id].phase.seen| > 0
  }

  ghost predicate Enabled(s: Sys, step: Step) {
    match step
    case Invoke(id, call) => id !in s.clients && (call.CreateCall? || Routable(call.exchange))
    case Watch(id) => id in s.clients && s.clients[id].phase.Idle?
    case ReadKey(id, key) => CanRead(s, id, key)
    case ReadFails(id) =>
      id in s.clients && !s.clients[id].call.CreateCall? && CanRead(s, id, PropsKey(s.clients[id].call.exchange))
    case ExecOk(id) => CanExec(s, id)
    case ExecLost(id) => CanExec(s, id)
    case ExecAbort(id) => id in s.clients && s.clients[id].phase.Reading? && s.clients[id].phase.dirty
      && Decide(s.clients[id].call, s.clients[id].phase.seen).Exec?
    case GiveUp(id) => id in s.clients && s.clients[id].phase.Reading?
      && Decide(s.clients[id].call, s.clients[id].phase.seen).Refuse?
    case Disconnect(id) => id in s.clients && !s.clients[id].phase.Done?
    case Environment(op) => (op.NewQueueOp? || (op.DeleteOp? && Routable(op.exchange))) && Apply(s.db, op).1 == Ok
  }

  ghost function NextRead(s: Sys, id: nat, r: Read): Sys
    requires id in s.clients && s.clients[id].phase.Reading?
  {
    var c := s.clients[id];
    s.(clients := s.clients[id := c.(phase := c.phase.(seen := c.phase.seen + [r]))])
  }

  ghost function NextExec(s: Sys, id: nat, outcome: Outcome): Sys
    requires CanExec(s, id)
  {
    var c := s.clients[id];
    var e := Entry(Some(id), OpOf(c.call), Blind(c.call, c.phase.seen));
    var s' := Publish(s, Commit(s.db, c.call, c.phase.seen), HSets(c.call), e);
    s'.(clients := s'.clients[id := c.(phase := Done(outcome))])
  }

  ghost function Next(s: Sys, step: Step): Sys
    requires Enabled(s, step)
  {
    match step
    case Invoke(id, call) =>
      var phase := if CallError(call).Some? then Done(Err(CallError(call).value)) else Idle;
      s.(clients := s.clients[id := Client(call, phase, 0)])
    case Watch(id) => s.(clients := s.clients[id := s.clients[id].(phase := Reading([], false))])
    case ReadKey(id, key) => NextRead(s, id, Read(key, Get(s.db, key), true))
    case ReadFails(id) => NextRead(s, id, Read(PropsKey(s.clients[id].call.exchange), {}, false))
    case ExecOk(id) => NextExec(s, id, Ok)
    case ExecLost(id) => NextExec(s, id, Err(ConnectionFailed))
    case ExecAbort(id) =>
      var c := s.clients[id];
      var again := c.aborts + 1 < MaxAttempts(c.call);
      var phase := if again then Idle else Done(Err(RetriesExhausted));
      s.(clients := s.clients[id := c.(aborts := c.aborts + 1, phase := phase)])
    case GiveUp(id) =>
      var c := s.clients[id];
      s.(clients := s.clients[id := c.(phase := Done(Err(Decide(c.call, c.phase.seen).error)))])
    case Disconnect(id) =>
      s.(clients := s.clients[id := s.clients[id].(phase := Done(Err(ConnectionFailed)))])
    case Environment(op) => Publish(s, Apply(s.db, op).0, {}, Entry(None, op, false))
  }

  const INITIAL: Sys := Sys(map[], map[], [])

  ghost predicate IsRun(states: seq<Sys>, steps: seq<Step>) {
    && |states| == |steps| + 1
    && states[0] == INITIAL
    && forall i :: 0 <= i < |steps| ==> Enabled(states[i], steps[i]) && states[i + 1] == Next(states[i], steps[i])
  }

  // ---------------------------------------------------------------- the invariant

  /** Every read followed from the ones before it. */
  ghost predicate Legit(call: Call, seen: seq<Read>) {
    forall i :: 0 <= i < |seen| ==>
      Decide(call, seen[..i]).Need? && seen[i].key in Decide(call, seen[..i]).keys
  }

  /** Only the exchange's properties can have failed to be read, and a failed read shows nothing. */
  ghost predicate FailuresPlain(call: Call, seen: seq<Read>) {
    forall i :: 0 <= i < |seen| && !seen[i].ok ==>
      !call.CreateCall? && seen[i].key == PropsKey(call.exchange) && seen[i].value == {}
  }

  /** Unless the client is marked dirty, what it read under WATCH is still so. */
  ghost predicate Fresh(db: Db, call: Call, seen: seq<Read>) {
    forall i :: 0 <= i < |seen| && seen[i].ok && seen[i].key in Watched(call) ==> Get(db, seen[i].key) == seen[i].value
  }

  ghost predicate ReaderInv(db: Db, c: Client)
    requires c.phase.Reading?
  {
    var seen := c.phase.seen;
    && Legit(c.call, seen) && FailuresPlain(c.call, seen)
    && (!c.phase.dirty ==> Fresh(db, c.call, seen))
    && (c.call.BindCall? && |seen| > 0 && seen[0].value != {} ==> Get(db, QueuePropsKey(c.call.queue)) == seen[0].value)
  }

  ghost predicate ClientInv(s: Sys, id: nat)
    requires id in s.clients
  {
    var c := s.clients[id];
    && (c.call.CreateCall? || Routable(c.call.exchange))
    && Commits(s.log, id) <= 1
    && (c.phase == Done(Ok) ==> Commits(s.log, id) == 1)
    && (Commits(s.log, id) == 1 ==> c.phase == Done(Ok) || c.phase == Done(Err(ConnectionFailed)))
    && c.aborts <= MaxAttempts(c.call)
    && (c.aborts == MaxAttempts(c.call) <==> c.phase == Done(Err(RetriesExhausted)))
    && (!c.phase.Done? ==> CallError(c.call).None?)
    && (c.phase.Reading? ==> ReaderInv(s.db, c))
  }

  /** Only blind binds can be irregular. */
  ghost predicate SightedRegular(log: seq<Entry>) {
    forall i :: 0 <= i < |log| && !log[i].blind ==> !Irregular(Replay(Ops(log[..i])), log[i].op)
  }

  ghost predicate SysInv(s: Sys) {
    && Replays(Ops(s.log)) && SightedRegular(s.log)
    && Agree(s.db, Replay(Ops(s.log)))
    && (forall id :: id in s.clients ==> ClientInv(s, id))
    && (forall id :: id !in s.clients ==> Commits(s.log, id) == 0)
  }

  // ---------------------------------------------------------------- what a clean client commits

  lemma LegitAt(call: Call, seen: seq<Read>, i: nat)
    requires Legit(call, seen) && i < |seen|
    ensures Decide(call, seen[..i]).Need? && seen[i].key in Decide(call, seen[..i]).keys
  {
  }

  lemma BindReads(call: Call, seen: seq<Read>)
    requires call.BindCall? && Legit(call, seen) && Decide(call, seen).Exec?
    ensures |seen| >= 3 && seen[0].value != {} && QueueRef(call.queue) !in seen[2].value
    ensures seen[1].key == PropsKey(call.exchange) && seen[2].key == SlotKey(call.exchange, call.rk)
    ensures BindingError(call.exchange, seen[0].value, seen[1].value).None?
  {
    LegitAt(call, seen, 0);
    LegitAt(call, seen, 1);
    LegitAt(call, seen, 2);
    assert seen[..1][0] == seen[0];
  }

  lemma BindCommit(db: Db, c: Client)
    requires c.phase.Reading? && c.call.BindCall? && ReaderInv(db, c) && !c.phase.dirty
    requires Decide(c.call, c.phase.seen).Exec? && CallError(c.call).None? && Routable(c.call.exchange)
    ensures |c.phase.seen| > 0 && Commit(db, c.call, c.phase.seen) == Effect(db, OpOf(c.call))
    ensures Sound(db, OpOf(c.call))
    ensures !Blind(c.call, c.phase.seen) ==> !Irregular(db, OpOf(c.call))
  {
    hide BindEffect, BindingError;
    var seen := c.phase.seen;
    BindReads(c.call, seen);
    assert seen[2].ok;
    assert Get(db, seen[2].key) == seen[2].value;
    if seen[1].ok {
      assert Get(db, seen[1].key) == seen[1].value;
    }
  }

  lemma UnbindReads(call: Call, seen: seq<Read>)
    requires call.UnbindCall? && Legit(call, seen) && Decide(call, seen).Exec?
    ensures |seen| > 3
    ensures seen[1].key == SlotKey(call.exchange, call.rk) && QueueRef(call.queue) in seen[1].value
    ensures seen[2].key == RegistryKey(call.exchange)
    ensures seen[|seen| - 1].key == SlotKey(call.exchange, call.rk)
  {
    LegitAt(call, seen, 1);
    LegitAt(call, seen, 2);
    assert seen[..1][0] == seen[0];
    assert seen[..2][0] == seen[0] && seen[..2][1] == seen[1];
  }

  /** What an unbind relies on at EXEC: the queue is bound, and the slot size it read is the true one. */
  lemma UnbindFacts(db: Db, c: Client)
    requires c.phase.Reading? && c.call.UnbindCall? && ReaderInv(db, c) && !c.phase.dirty
    requires Decide(c.call, c.phase.seen).Exec?
    ensures Bound(db, c.call.exchange, c.call.rk, c.call.queue)
    ensures |c.phase.seen| > 3
    ensures c.phase.seen[2].ok && Get(db, RegistryKey(c.call.exchange)) == c.phase.seen[2].value
    ensures Get(db, SlotKey(c.call.exchange, c.call.rk)) == c.phase.seen[|c.phase.seen| - 1].value
  {
    hide ScanHit, Unscanned;
    var seen := c.phase.seen;
    UnbindReads(c.call, seen);
    assert seen[1].ok && seen[2].ok && seen[|seen| - 1].ok;
    assert Get(db, seen[1].key) == seen[1].value && Get(db, seen[2].key) == seen[2].value;
    assert Get(db, seen[|seen| - 1].key) == seen[|seen| - 1].value;
  }

  /** An unbind commits with the true slot size; only the queue's exchange list may differ. */
  lemma UnbindCommit(db: Db, c: Client)
    requires c.phase.Reading? && c.call.UnbindCall? && ReaderInv(db, c) && !c.phase.dirty
    requires Decide(c.call, c.phase.seen).Exec? && CallError(c.call).None? && Routable(c.call.exchange)
    ensures |c.phase.seen| > 0 && Sound(db, OpOf(c.call))
    ensures Agree(Commit(db, c.call, c.phase.seen), Effect(db, OpOf(c.call)))
  {
    hide UnbindEffect, Get, Decide, ReaderInv, ScanHit, StillBound, ArgError;
    var q, ex, rk := c.call.queue, c.call.exchange, c.call.rk;
    UnbindFacts(db, c);
    UnbindAgree(db, db, q, ex, rk, |Get(db, SlotKey(ex, rk))| == 1,
                ScanHit(q, ex, rk, c.phase.seen), StillBound(db, q, ex, rk));
  }

  lemma CreateCommit(db: Db, c: Client)
    requires c.phase.Reading? && c.call.CreateCall? && ReaderInv(db, c) && !c.phase.dirty
    requires Decide(c.call, c.phase.seen).Exec? && |c.phase.seen| > 0
    ensures Commit(db, c.call, c.phase.seen) == Effect(db, OpOf(c.call)) && Sound(db, OpOf(c.call))
  {
    hide CreateEffect, StoredType;
    LegitAt(c.call, c.phase.seen, 0);
    assert Get(db, c.phase.seen[0].key) == c.phase.seen[0].value;
  }

  /** What a clean client commits is, up to the queues' exchange lists, the effect of its operation
      on the database of that moment; and unless it is a blind bind, validation would still pass. */
  lemma CommitIsEffect(s: Sys, id: nat)
    requires SysInv(s) && CanExec(s, id)
    ensures var c := s.clients[id];
      && Sound(s.db, OpOf(c.call))
      && Agree(Commit(s.db, c.call, c.phase.seen), Effect(s.db, OpOf(c.call)))
      && (!Blind(c.call, c.phase.seen) ==> !Irregular(s.db, OpOf(c.call)))
  {
    hide Decide, Effect, Commit, Sound, Irregular, Agree, Replays, SightedRegular, ReaderInv;
    var c := s.clients[id];
    assert ClientInv(s, id);
    match c.call
    case BindCall(_, _, _) =>
      BindCommit(s.db, c);
      AgreeSame(Effect(s.db, OpOf(c.call)));
    case UnbindCall(_, _, _) =>
      UnbindCommit(s.db, c);
      OnlyBindsIrregular(s.db, OpOf(c.call));
    case CreateCall(_, _) =>
      CreateCommit(s.db, c);
      AgreeSame(Effect(s.db, OpOf(c.call)));
      OnlyBindsIrregular(s.db, OpOf(c.call));
  }

  lemma AgreeSame(db: Db)
    ensures Agree(db, db)
  {
  }

  lemma OnlyBindsIrregular(db: Db, op: Op)
    requires !op.BindOp?
    ensures !Irregular(db, op)
  {
  }

  // ---------------------------------------------------------------- every step keeps the invariant

  lemma OpsSnoc(log: seq<Entry>, e: Entry)
    ensures Ops(log + [e]) == Ops(log) + [e.op]
    ensures forall i :: 0 <= i <= |log| ==> Ops((log + [e])[..i]) == Ops(log)[..i] == Ops(log[..i])
  {
  }

  /** Logging one more sound change. */
  lemma LogGrows(db: Db, log: seq<Entry>, db': Db, e: Entry)
    requires Replays(Ops(log)) && SightedRegular(log) && Agree(db, Replay(Ops(log)))
    requires Sound(db, e.op) && (!e.blind ==> !Irregular(db, e.op)) && Agree(db', Effect(db, e.op))
    ensures Replays(Ops(log + [e])) && SightedRegular(log + [e]) && Agree(db', Replay(Ops(log + [e])))
  {
    hide Effect, Sound, Irregular, Agree;
    var ops, log', ops' := Ops(log), log + [e], Ops(log + [e]);
    OpsSnoc(log, e);
    EffectAgree(db, Replay(ops), e.op);
    AgreeTrans(db', Effect(db, e.op), Effect(Replay(ops), e.op));
    assert ops[..|ops|] == ops && ops'[..|ops|] == ops;
    forall i | 0 <= i < |ops'| ensures Sound(Replay(ops'[..i]), ops'[i]) {
      assert ops'[..i] == ops[..i];
    }
    forall i | 0 <= i < |log'| && !log'[i].blind ensures !Irregular(Replay(Ops(log'[..i])), log'[i].op) {
      assert Ops(log'[..i]) == ops[..i] == Ops(log[..i]);
    }
  }

  lemma AgreeTrans(a: Db, b: Db, c: Db)
    requires Agree(a, b) && Agree(b, c)
    ensures Agree(a, c)
  {
  }

  lemma CommitsSnoc(log: seq<Entry>, e: Entry, id: nat)
    ensures Commits(log + [e], id) == Commits(log, id) + if e.client == Some(id) then 1 else 0
  {
    assert (log + [e])[..|log|] == log;
  }

  /** No commit alters the properties of an existing queue. */
  lemma QueuePropsStable(db: Db, op: Op, q: Queue)
    requires Sound(db, op) && Get(db, QueuePropsKey(q)) != {}
    ensures Get(Effect(db, op), QueuePropsKey(q)) == Get(db, QueuePropsKey(q))
  {
    hide BindEffect, UnbindEffect, DeleteEffect, CreateEffect, ArgError, StoredType, StoredPolicy, SetType;
    hide StillBound, Delete, RegisteredWords;
    var k := QueuePropsKey(q);
    assert Get(db, k) + {} == Get(db, k) && Get(db, k) - {} == Get(db, k);
    match op
    case BindOp(q', ex, rk) => BindAt(db, q', ex, rk, k);
    case UnbindOp(q', ex, rk) =>
      UnbindAt(db, q', ex, rk, |Get(db, SlotKey(ex, rk))| == 1, StillBound(db, q', ex, rk), k);
    case DeleteOp(ex) => DeleteAt(db, ex, RegisteredWords(Get(db, RegistryKey(ex))), k);
    case CreateOp(ex, policy) => CreateAt(db, ex, policy, k);
    case NewQueueOp(q', t) =>
  }

  /** A watched read stays valid unless the change marks its reader. */
  lemma FreshKept(c: Client, db: Db, db': Db, hset: set<RedisKey>)
    requires c.phase.Reading? && Fresh(db, c.call, c.phase.seen) && !Disturb(c, db, db', hset).phase.dirty
    ensures Fresh(db', c.call, c.phase.seen)
  {
    hide Watched, Get;
    forall i | 0 <= i < |c.phase.seen| && c.phase.seen[i].ok && c.phase.seen[i].key in Watched(c.call)
      ensures Get(db', c.phase.seen[i].key) == c.phase.seen[i].value
    {
      assert !Touched(db, db', hset, c.phase.seen[i].key);
    }
  }

  /** A change made by somebody else leaves a reader either marked or with valid reads. */
  lemma ReaderKept(c: Client, db: Db, db': Db, hset: set<RedisKey>, op: Op)
    requires c.phase.Reading? && ReaderInv(db, c) && Sound(db, op) && Agree(db', Effect(db, op))
    ensures Disturb(c, db, db', hset).phase.Reading? && ReaderInv(db', Disturb(c, db, db', hset))
  {
    hide Watched, Touched, Sound, Effect, Agree, Get, Decide, Legit, FailuresPlain, Fresh;
    if c.call.BindCall? && |c.phase.seen| > 0 && c.phase.seen[0].value != {} {
      QueuePropsStable(db, op, c.call.queue);
      AgreeOn(db', Effect(db, op), QueuePropsKey(c.call.queue));
    }
    if !Disturb(c, db, db', hset).phase.dirty {
      FreshKept(c, db, db', hset);
    }
  }

  lemma BystanderKept(s: Sys, db': Db, hset: set<RedisKey>, e: Entry, id: nat)
    requires id in s.clients && ClientInv(s, id) && e.client != Some(id)
    requires Sound(s.db, e.op) && Agree(db', Effect(s.db, e.op))
    ensures ClientInv(Publish(s, db', hset, e), id)
  {
    hide Sound, Effect, Agree, Commits, ReaderInv;
    CommitsSnoc(s.log, e, id);
    if s.clients[id].phase.Reading? {
      ReaderKept(s.clients[id], s.db, db', hset, e.op);
    }
  }

  lemma ExecKept(s: Sys, id: nat, outcome: Outcome)
    requires SysInv(s) && CanExec(s, id) && (outcome == Ok || outcome == Err(ConnectionFailed))
    ensures SysInv(NextExec(s, id, outcome))
  {
    hide Commit, Sound, Effect, Irregular, Agree, Replays, SightedRegular, Ops, Commits, Disturb, Decide, ReaderInv;
    var c := s.clients[id];
    var db' := Commit(s.db, c.call, c.phase.seen);
    var e := Entry(Some(id), OpOf(c.call), Blind(c.call, c.phase.seen));
    var s' := NextExec(s, id, outcome);
    assert ClientInv(s, id);
    CommitIsEffect(s, id);
    LogGrows(s.db, s.log, db', e);
    forall other ensures other in s'.clients ==> ClientInv(s', other)
                 ensures other !in s'.clients ==> Commits(s'.log, other) == 0
    {
      CommitsSnoc(s.log, e, other);
      if other in s.clients && other != id {
        BystanderKept(s, db', HSets(c.call), e, other);
      }
    }
  }

  lemma EnvironmentIsEffect(db: Db, op: Op)
    requires (op.NewQueueOp? || (op.DeleteOp? && Routable(op.exchange))) && Apply(db, op).1 == Ok
    ensures Sound(db, op) && Apply(db, op).0 == Effect(db, op) && !Irregular(db, op)
  {
    hide DeleteEffect;
  }

  lemma EnvironmentKept(s: Sys, op: Op)
    requires SysInv(s) && Enabled(s, Environment(op))
    ensures SysInv(Next(s, Environment(op)))
  {
    hide Apply, Sound, Effect, Irregular, Agree, Replays, SightedRegular, Ops, Commits, Disturb, ReaderInv;
    var e := Entry(None, op, false);
    var db' := Apply(s.db, op).0;
    EnvironmentIsEffect(s.db, op);
    AgreeSame(db');
    LogGrows(s.db, s.log, db', e);
    var s' := Next(s, Environment(op));
    forall other ensures other in s'.clients ==> ClientInv(s', other)
                 ensures other !in s'.clients ==> Commits(s'.log, other) == 0
    {
      CommitsSnoc(s.log, e, other);
      if other in s.clients {
        BystanderKept(s, db', {}, e, other);
      }
    }
  }

  lemma LegitGrows(call: Call, seen: seq<Read>, r: Read)
    requires Legit(call, seen) && Decide(call, seen).Need? && r.key in Decide(call, seen).keys
    ensures Legit(call, seen + [r])
  {
    hide Decide;
    var more := seen + [r];
    forall i | 0 <= i < |more|
      ensures Decide(call, more[..i]).Need? && more[i].key in Decide(call, more[..i]).keys
    {
      assert more[..i] == seen[..i];
      if i == |seen| {
        assert seen[..i] == seen;
      }
    }
  }

  /** One more read, true or failed. */
  predicate Reads(db: Db, call: Call, r: Read) {
    if r.ok then r.value == Get(db, r.key) else !call.CreateCall? && r.key == PropsKey(call.exchange) && r.value == {}
  }

  lemma SeenGrows(db: Db, call: Call, seen: seq<Read>, r: Read)
    requires FailuresPlain(call, seen) && Reads(db, call, r)
    ensures FailuresPlain(call, seen + [r])
    ensures Fresh(db, call, seen) ==> Fresh(db, call, seen + [r])
  {
  }

  /** The first key a bind reads is that of the queue's properties. */
  lemma BindReadsQueueFirst(call: Call, key: RedisKey)
    requires call.BindCall? && Decide(call, []).Need? && key in Decide(call, []).keys
    ensures key == QueuePropsKey(call.queue)
  {
  }

  lemma ReadKept(s: Sys, id: nat, r: Read)
    requires SysInv(s) && CanRead(s, id, r.key) && Reads(s.db, s.clients[id].call, r)
    ensures SysInv(NextRead(s, id, r))
  {
    hide Decide, Commits, Replays, SightedRegular, Agree, Ops, Legit, Fresh, FailuresPlain;
    var c := s.clients[id];
    var seen := c.phase.seen;
    assert ClientInv(s, id);
    LegitGrows(c.call, seen, r);
    SeenGrows(s.db, c.call, seen, r);
    if c.call.BindCall? && seen == [] {
      BindReadsQueueFirst(c.call, r.key);
    }
    OneClientKept(s, NextRead(s, id, r), id);
  }

  /** A step that changes nothing but one client. */
  lemma OneClientKept(s: Sys, s': Sys, id: nat)
    requires SysInv(s) && s'.db == s.db && s'.log == s.log
    requires id in s'.clients && s'.clients == s.clients[id := s'.clients[id]]
    requires ClientInv(s', id)
    ensures SysInv(s')
  {
    hide Replays, SightedRegular, Agree, ReaderInv, Commits;
    forall other | other in s'.clients && other != id ensures ClientInv(s', other) {
      assert ClientInv(s, other);
    }
  }

  lemma RefusalNotExhaustion(call: Call, seen: seq<Read>)
    requires Decide(call, seen).Refuse?
    ensures Decide(call, seen).error != RetriesExhausted
  {
    hide ScanHit, Unscanned;
  }

  lemma LocalKept(s: Sys, step: Step)
    requires SysInv(s) && Enabled(s, step)
    requires step.Watch? || step.ExecAbort? || step.GiveUp? || step.Disconnect?
    ensures SysInv(Next(s, step))
  {
    hide Decide, Commits, Replays, SightedRegular, Agree, Ops;
    assert ClientInv(s, step.id);
    if step.GiveUp? {
      RefusalNotExhaustion(s.clients[step.id].call, s.clients[step.id].phase.seen);
    }
    OneClientKept(s, Next(s, step), step.id);
  }

  lemma InvokeKept(s: Sys, id: nat, call: Call)
    requires SysInv(s) && Enabled(s, Invoke(id, call))
    ensures SysInv(Next(s, Invoke(id, call)))
  {
    hide Commits, Replays, SightedRegular, Agree, Ops;
    OneClientKept(s, Next(s, Invoke(id, call)), id);
  }

  /** Every step of every client and of the environment keeps the invariant. */
  lemma NextKeepsInv(s: Sys, step: Step)
    requires SysInv(s) && Enabled(s, step)
    ensures SysInv(Next(s, step))
  {
    hide SysInv, Decide, Commit;
    match step
    case Invoke(id, call) => InvokeKept(s, id, call);
    case ExecOk(id) => ExecKept(s, id, Ok);
    case ExecLost(id) => ExecKept(s, id, Err(ConnectionFailed));
    case Environment(op) => EnvironmentKept(s, op);
    case ReadKey(id, key) => ReadKept(s, id, Read(key, Get(s.db, key), true));
    case ReadFails(id) => ReadKept(s, id, Read(PropsKey(s.clients[id].call.exchange), {}, false));
    case _ => LocalKept(s, step);
  }

  lemma {:induction false} RunInv(states: seq<Sys>, steps: seq<Step>, i: nat)
    requires IsRun(states, steps) && i < |states|
    ensures SysInv(states[i])
  {
    hide SysInv, Next, Enabled;
    if i > 0 {
      RunInv(states, steps, i - 1);
      NextKeepsInv(states[i - 1], steps[i - 1]);
    } else {
      InitialInv();
    }
  }

  lemma InitialInv()
    ensures SysInv(INITIAL)
  {
  }
}
