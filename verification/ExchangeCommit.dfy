/** What a transaction commits, apart from the checks it made before: the bare effect of each
    operation, what that effect keeps and breaks, and the replay of a list of commits. */
module ExchangeCommit {
  import opened Text
  import opened Keys
  import opened ExchangeIndex

  // ---------------------------------------------------------------- effects without checks

  /** What is still true of an operation at the moment it commits, whatever it read of the
      exchange's properties. */
  ghost predicate Sound(db: Db, op: Op) {
    match op
    case BindOp(q, ex, rk) =>
      Routable(ex) && ArgError(q, ex, rk).None? && Get(db, QueuePropsKey(q)) != {} && !Bound(db, ex, rk, q)
    case UnbindOp(q, ex, rk) => Routable(ex) && ArgError(q, ex, rk).None? && Bound(db, ex, rk, q)
    case DeleteOp(ex) => Routable(ex) && Delete(db, ex).1 == Ok
    case CreateOp(ex, _) => StoredType(Get(db, PropsKey(ex))) == None
    case NewQueueOp(q, _) => Get(db, QueuePropsKey(q)) == {}
  }

  ghost function Effect(db: Db, op: Op): Db {
    match op
    case BindOp(q, ex, rk) => BindEffect(db, q, ex, rk)
    case UnbindOp(q, ex, rk) =>
      UnbindEffect(db, q, ex, rk, |Get(db, SlotKey(ex, rk))| == 1, StillBound(db, q, ex, rk))
    case DeleteOp(ex) => DeleteEffect(db, ex, RegisteredWords(Get(db, RegistryKey(ex))))
    case CreateOp(ex, policy) => CreateEffect(db, ex, policy)
    case NewQueueOp(q, t) => db[QueuePropsKey(q) := {QueueTypeField(t)}]
  }

  /** A bind that validation would have refused. */
  predicate Irregular(db: Db, op: Op) {
    op.BindOp? && BindingError(op.exchange, Get(db, QueuePropsKey(op.queue)), Get(db, PropsKey(op.exchange))).Some?
  }

  /** A bind that replaces the stored type by another one. */
  predicate Overwrites(db: Db, op: Op) { op.BindOp? && OtherTypeStored(db, op.exchange) }

  lemma OverwritesIrregular(db: Db, op: Op)
    requires Overwrites(db, op)
    ensures Irregular(db, op)
  {
    assert Get(db, PropsKey(op.exchange)) != {};
  }

  /** With exact types, a sound commit that validation would have let through is the whole serial
      operation, and it succeeds. */
  lemma RegularIsSerial(db: Db, op: Op)
    requires Sound(db, op) && !Irregular(db, op) && TypesExact(db)
    ensures Apply(db, op) == (Effect(db, op), Ok)
  {
    hide BindEffect, UnbindEffect, DeleteEffect, CreateEffect, ArgError, BindingError;
    if op.UnbindOp? {
      assert Get(db, SlotKey(op.exchange, op.rk)) != {};
    }
  }

  // ---------------------------------------------------------------- what effects keep

  lemma EffectKeepsRegistry(db: Db, op: Op)
    requires Sound(db, op) && RegistryExact(db)
    ensures RegistryExact(Effect(db, op))
  {
    hide BindEffect, UnbindEffect, DeleteEffect, CreateEffect, ArgError, RegistryExact;
    match op
    case BindOp(q, ex, rk) => BindKeepsRegistry(db, q, ex, rk);
    case UnbindOp(q, ex, rk) => UnbindKeepsRegistry(db, q, ex, rk, StillBound(db, q, ex, rk));
    case DeleteOp(ex) => DeleteKeepsRegistry(db, ex);
    case CreateOp(ex, policy) =>
      CreateFrame(db, ex, policy);
      SameIndexExact(db, Effect(db, op));
    case NewQueueOp(q, t) =>
      NewQueueFrame(db, q, t);
      SameIndexExact(db, Effect(db, op));
  }

  lemma EffectKeepsBackIndex(db: Db, op: Op)
    requires Sound(db, op) && RegistryExact(db) && BackIndexExact(db)
    ensures BackIndexExact(Effect(db, op))
  {
    hide BindEffect, UnbindEffect, DeleteEffect, CreateEffect, ArgError, RegistryExact, BackIndexExact;
    match op
    case BindOp(q, ex, rk) => BindKeepsBackIndex(db, q, ex, rk);
    case UnbindOp(q, ex, rk) => UnbindBackIndexIff(db, q, ex, rk, StillBound(db, q, ex, rk));
    case DeleteOp(ex) => DeleteKeepsBackIndex(db, ex);
    case CreateOp(ex, policy) =>
      CreateFrame(db, ex, policy);
      SameIndexExact(db, Effect(db, op));
    case NewQueueOp(q, t) =>
      NewQueueFrame(db, q, t);
      SameIndexExact(db, Effect(db, op));
  }

  lemma EffectKeepsTypes(db: Db, op: Op)
    requires Sound(db, op) && RegistryExact(db) && TypesExact(db) && !Overwrites(db, op)
    ensures TypesExact(Effect(db, op))
  {
    hide BindEffect, UnbindEffect, DeleteEffect, CreateEffect, ArgError, RegistryExact, TypesExact;
    match op
    case BindOp(q, ex, rk) => BindKeepsTypes(db, q, ex, rk);
    case UnbindOp(q, ex, rk) => UnbindKeepsTypes(db, q, ex, rk, StillBound(db, q, ex, rk));
    case DeleteOp(ex) => DeleteKeepsTypes(db, ex);
    case CreateOp(ex, policy) => CreateFrame(db, ex, policy);
    case NewQueueOp(q, t) => NewQueueTypes(db, q, t);
  }

  lemma NewQueueTypes(db: Db, q: Queue, t: QueueType)
    requires TypesExact(db)
    ensures TypesExact(db[QueuePropsKey(q) := {QueueTypeField(t)}])
  {
  }

  /** The catalogues stay exact precisely as long as no type is overwritten: the entry of the old
      type is never removed. */
  lemma EffectCatalogueIff(db: Db, op: Op)
    requires Sound(db, op) && CatalogueExact(db)
    ensures CatalogueExact(Effect(db, op)) <==> !Overwrites(db, op)
  {
    hide BindEffect, UnbindEffect, DeleteEffect, CreateEffect, ArgError, CataloguedRight;
    if Overwrites(db, op) {
      OverwriteStrandsEntry(db, op);
    } else {
      forall ex ensures CataloguedRight(Effect(db, op), ex) {
        EffectCatalogued(db, op, ex);
      }
    }
  }

  lemma EffectCatalogued(db: Db, op: Op, ex: Exchange)
    requires Sound(db, op) && CataloguedRight(db, ex) && !Overwrites(db, op)
    ensures CataloguedRight(Effect(db, op), ex)
  {
    hide BindEffect, UnbindEffect, DeleteEffect, CreateEffect, ArgError;
    match op
    case BindOp(q, ex', rk) => BindCatalogued(db, q, ex', rk, ex);
    case UnbindOp(q, ex', rk) =>
      UnbindCatalogued(db, q, ex', rk, |Get(db, SlotKey(ex', rk))| == 1, StillBound(db, q, ex', rk), ex);
    case DeleteOp(ex') => DeleteCatalogued(db, ex', ex);
    case CreateOp(ex', policy) => CreateCatalogued(db, ex', policy, ex);
    case NewQueueOp(q, t) =>
  }

  lemma OverwriteStrandsEntry(db: Db, op: Op)
    requires Overwrites(db, op) && CatalogueExact(db)
    ensures !CatalogueExact(Effect(db, op))
  {
    hide BindEffect, SetType, Get;
    var former := op.exchange.(typ := StoredType(Get(db, PropsKey(op.exchange))).value);
    assert CataloguedRight(db, former);
    BindAt(db, op.queue, op.exchange, op.rk, PropsKey(former));
    BindAt(db, op.queue, op.exchange, op.rk, SystemKey(AllExchanges));
    SetTypeStored(Get(db, PropsKey(op.exchange)), op.exchange.typ);
    assert !CataloguedRight(Effect(db, op), former);
  }

  // ---------------------------------------------------------------- the stored type

  ghost function TypeIn(db: Db, ns: string, name: string): Option<ExchangeType> {
    StoredType(Get(db, ExchangeProps(ns, name)))
  }

  /** The operation is about the exchange of this name. */
  predicate Concerns(op: Op, ns: string, name: string) {
    !op.NewQueueOp? && op.exchange.ns == ns && op.exchange.name == name
  }

  lemma BindType(db: Db, q: Queue, ex: Exchange, rk: string, ns: string, name: string)
    ensures TypeIn(BindEffect(db, q, ex, rk), ns, name)
         == if (ns, name) == (ex.ns, ex.name) then Some(ex.typ) else TypeIn(db, ns, name)
  {
    hide BindEffect, SetType, StoredType;
    var k := ExchangeProps(ns, name);
    BindAt(db, q, ex, rk, k);
    SetTypeStored(Get(db, PropsKey(ex)), ex.typ);
    assert Get(db, k) + {} == Get(db, k);
  }

  lemma UnbindType(db: Db, q: Queue, ex: Exchange, rk: string, last: bool, stillBound: bool, ns: string, name: string)
    ensures TypeIn(UnbindEffect(db, q, ex, rk, last, stillBound), ns, name) == TypeIn(db, ns, name)
  {
    hide UnbindEffect, StoredType, Get;
    var k := ExchangeProps(ns, name);
    UnbindAt(db, q, ex, rk, last, stillBound, k);
    assert Get(db, k) - {} == Get(db, k);
  }

  lemma CreateType(db: Db, ex: Exchange, policy: Policy, ns: string, name: string)
    ensures TypeIn(CreateEffect(db, ex, policy), ns, name)
         == if (ns, name) == (ex.ns, ex.name) then Some(ex.typ) else TypeIn(db, ns, name)
  {
    hide CreateEffect, StoredType, StoredPolicy, Get;
    CreateAt(db, ex, policy, ExchangeProps(ns, name));
  }

  lemma DeleteType(db: Db, ex: Exchange, rks: set<string>, ns: string, name: string)
    ensures TypeIn(DeleteEffect(db, ex, rks), ns, name)
         == if (ns, name) == (ex.ns, ex.name) then None else TypeIn(db, ns, name)
  {
    hide DeleteEffect, Get;
    var k := ExchangeProps(ns, name);
    DeleteAt(db, ex, rks, k);
    assert Get(db, k) - {} == Get(db, k);
  }

  /** An existing exchange changes its type under a sound commit exactly when it is deleted or its
      type is overwritten. */
  lemma EffectTypeIff(db: Db, op: Op, ns: string, name: string)
    requires Sound(db, op) && TypeIn(db, ns, name).Some?
    ensures TypeIn(Effect(db, op), ns, name) != TypeIn(db, ns, name)
        <==> Concerns(op, ns, name) && (op.DeleteOp? || Overwrites(db, op))
  {
    hide BindEffect, UnbindEffect, DeleteEffect, CreateEffect, ArgError, StoredType, HasBindings;
    match op
    case BindOp(q, ex, rk) => BindType(db, q, ex, rk, ns, name);
    case UnbindOp(q, ex, rk) =>
      UnbindType(db, q, ex, rk, |Get(db, SlotKey(ex, rk))| == 1, StillBound(db, q, ex, rk), ns, name);
    case DeleteOp(ex) => DeleteType(db, ex, RegisteredWords(Get(db, RegistryKey(ex))), ns, name);
    case CreateOp(ex, policy) => CreateType(db, ex, policy, ns, name);
    case NewQueueOp(q, t) =>
  }

  // ---------------------------------------------------------------- agreeing databases

  predicate IsBindings(k: RedisKey) { k.QueueKey? && k.part == ExchangeBindings }

  /** The two databases agree on everything but the queues' lists of exchanges. */
  ghost predicate Agree(a: Db, b: Db) { forall k :: !IsBindings(k) ==> Get(a, k) == Get(b, k) }

  lemma AgreeExact(a: Db, b: Db)
    requires Agree(a, b)
    ensures RegistryExact(b) ==> RegistryExact(a)
    ensures TypesExact(b) ==> TypesExact(a)
    ensures CatalogueExact(b) ==> CatalogueExact(a)
  {
    forall ex, rk ensures Get(a, SlotKey(ex, rk)) == Get(b, SlotKey(ex, rk))
                  ensures Get(a, RegistryKey(ex)) == Get(b, RegistryKey(ex))
                  ensures Get(a, PropsKey(ex)) == Get(b, PropsKey(ex))
    {
    }
    if CatalogueExact(b) {
      forall ex ensures CataloguedRight(a, ex) {
        assert CataloguedRight(b, ex);
      }
    }
  }

  lemma AgreeOn(a: Db, b: Db, k: RedisKey)
    requires Agree(a, b) && !IsBindings(k)
    ensures Get(a, k) == Get(b, k)
  {
  }

  lemma EffectAgree(a: Db, b: Db, op: Op)
    requires Agree(a, b) && Sound(a, op)
    ensures Sound(b, op) && Agree(Effect(a, op), Effect(b, op))
    ensures Irregular(a, op) == Irregular(b, op)
  {
    hide Agree, BindEffect, UnbindEffect, DeleteEffect, CreateEffect, ArgError, BindingError, Get, StoredType, Delete;
    match op
    case BindOp(q, ex, rk) =>
      AgreeOn(a, b, QueuePropsKey(q));
      AgreeOn(a, b, PropsKey(ex));
      AgreeOn(a, b, SlotKey(ex, rk));
      BindAgree(a, b, q, ex, rk);
    case UnbindOp(q, ex, rk) =>
      AgreeOn(a, b, SlotKey(ex, rk));
      UnbindAgree(a, b, q, ex, rk, |Get(a, SlotKey(ex, rk))| == 1, StillBound(a, q, ex, rk), StillBound(b, q, ex, rk));
    case DeleteOp(ex) =>
      AgreeOn(a, b, RegistryKey(ex));
      DeletableAgree(a, b, ex);
      DeleteAgree(a, b, ex, RegisteredWords(Get(a, RegistryKey(ex))));
    case CreateOp(ex, policy) =>
      AgreeOn(a, b, PropsKey(ex));
      CreateAgree(a, b, ex, policy);
    case NewQueueOp(q, t) =>
      AgreeOn(a, b, QueuePropsKey(q));
      NewQueueAgree(a, b, q, t);
  }

  lemma NewQueueAgree(a: Db, b: Db, q: Queue, t: QueueType)
    requires Agree(a, b)
    ensures Agree(a[QueuePropsKey(q) := {QueueTypeField(t)}], b[QueuePropsKey(q) := {QueueTypeField(t)}])
  {
  }

  lemma BindAgree(a: Db, b: Db, q: Queue, ex: Exchange, rk: string)
    requires Agree(a, b)
    ensures Agree(BindEffect(a, q, ex, rk), BindEffect(b, q, ex, rk))
  {
    hide BindEffect, SetType, Get;
    forall k ensures !IsBindings(k) ==> Get(BindEffect(a, q, ex, rk), k) == Get(BindEffect(b, q, ex, rk), k) {
      BindAt(a, q, ex, rk, k);
      BindAt(b, q, ex, rk, k);
    }
  }

  lemma CreateAgree(a: Db, b: Db, ex: Exchange, policy: Policy)
    requires Agree(a, b)
    ensures Agree(CreateEffect(a, ex, policy), CreateEffect(b, ex, policy))
  {
    assert Get(a, PropsKey(ex)) == Get(b, PropsKey(ex));
    forall k ensures !IsBindings(k) ==> Get(CreateEffect(a, ex, policy), k) == Get(CreateEffect(b, ex, policy), k) {
      if k != PropsKey(ex) {
        CreateAt(a, ex, policy, k);
        CreateAt(b, ex, policy, k);
      }
    }
  }

  /** The flag that decides about the queue's list does not matter here. */
  lemma UnbindAgree(a: Db, b: Db, q: Queue, ex: Exchange, rk: string, last: bool, stillA: bool, stillB: bool)
    requires Agree(a, b)
    ensures Agree(UnbindEffect(a, q, ex, rk, last, stillA), UnbindEffect(b, q, ex, rk, last, stillB))
  {
    hide UnbindEffect, Get;
    forall k ensures !IsBindings(k) ==>
      Get(UnbindEffect(a, q, ex, rk, last, stillA), k) == Get(UnbindEffect(b, q, ex, rk, last, stillB), k)
    {
      UnbindAt(a, q, ex, rk, last, stillA, k);
      UnbindAt(b, q, ex, rk, last, stillB, k);
    }
  }

  lemma DeletableAgree(a: Db, b: Db, ex: Exchange)
    requires Agree(a, b)
    ensures Delete(a, ex).1 == Delete(b, ex).1
  {
    hide DeleteEffect, TypeError;
    assert Get(a, PropsKey(ex)) == Get(b, PropsKey(ex));
    forall rk ensures Get(a, SlotKey(ex, rk)) == Get(b, SlotKey(ex, rk))
              ensures Registered(a, ex, rk) <==> Registered(b, ex, rk)
    {
    }
    assert HasBindings(a, ex) <==> HasBindings(b, ex);
  }

  lemma DeleteAgree(a: Db, b: Db, ex: Exchange, rks: set<string>)
    requires Agree(a, b)
    ensures Agree(DeleteEffect(a, ex, rks), DeleteEffect(b, ex, rks))
  {
    hide DeleteEffect, Get;
    forall k ensures !IsBindings(k) ==> Get(DeleteEffect(a, ex, rks), k) == Get(DeleteEffect(b, ex, rks), k) {
      DeleteAt(a, ex, rks, k);
      DeleteAt(b, ex, rks, k);
    }
  }

  // ---------------------------------------------------------------- replaying commits

  ghost function Replay(ops: seq<Op>): Db {
    if ops == [] then map[] else Effect(Replay(ops[..|ops| - 1]), ops[|ops| - 1])
  }

  /** Every commit is sound where it stands in the replay. */
  ghost predicate Replays(ops: seq<Op>) { forall i :: 0 <= i < |ops| ==> Sound(Replay(ops[..i]), ops[i]) }

  /** No commit is one that validation would have refused. */
  ghost predicate AllRegular(ops: seq<Op>) { forall i :: 0 <= i < |ops| ==> !Irregular(Replay(ops[..i]), ops[i]) }

  lemma ReplaysPrefix(ops: seq<Op>)
    requires Replays(ops) && ops != []
    ensures Replays(ops[..|ops| - 1])
    ensures AllRegular(ops) ==> AllRegular(ops[..|ops| - 1])
  {
    hide Sound, Irregular, Replay;
    var before := ops[..|ops| - 1];
    forall i | 0 <= i < |before| ensures before[..i] == ops[..i] && before[i] == ops[i] {
    }
  }

  lemma {:induction false} ReplayRegistryExact(ops: seq<Op>)
    requires Replays(ops)
    ensures RegistryExact(Replay(ops))
  {
    hide Effect, Sound, RegistryExact;
    if ops != [] {
      ReplaysPrefix(ops);
      ReplayRegistryExact(ops[..|ops| - 1]);
      EffectKeepsRegistry(Replay(ops[..|ops| - 1]), ops[|ops| - 1]);
    } else {
      NothingStored();
    }
  }

  /** Regular commits replay as the serial run of the same operations, each of which succeeds. */
  lemma {:induction false} RegularReplayIsSerial(ops: seq<Op>)
    requires Replays(ops) && AllRegular(ops)
    ensures RunAll(map[], ops) == Replay(ops) && Inv(Replay(ops))
    ensures forall i :: 0 <= i < |ops| ==> Apply(RunAll(map[], ops[..i]), ops[i]).1 == Ok
  {
    hide Effect, Sound, Irregular, Apply, RegistryExact, BackIndexExact, TypesExact;
    if ops == [] {
      NothingStored();
    } else {
      var n := |ops| - 1;
      ReplaysPrefix(ops);
      RegularReplayIsSerial(ops[..n]);
      RegularIsSerial(Replay(ops[..n]), ops[n]);
      SoundRoutable(Replay(ops[..n]), ops[n]);
      ApplyMeaning(Replay(ops[..n]), ops[n]);
      forall i | 0 <= i < |ops| ensures Apply(RunAll(map[], ops[..i]), ops[i]).1 == Ok {
        if i < n {
          assert ops[..n][..i] == ops[..i] && ops[..n][i] == ops[i];
        }
      }
    }
  }

  lemma SoundRoutable(db: Db, op: Op)
    requires Sound(db, op)
    ensures OpRoutable(op)
  {
  }
}
