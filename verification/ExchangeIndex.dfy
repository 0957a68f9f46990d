/** The binding index of direct and topic exchanges as Redis sets: the registered routing keys
    (or patterns) of an exchange, the queues bound under each of them, and the exchanges each
    queue is bound to. This module holds the operations one at a time; `ExchangeRace` runs them
    against each other. */
module ExchangeIndex {
  import opened Text
  import opened Keys
  import Topic

  // ---------------------------------------------------------------- data

  datatype ExchangeType = TypeDirect | TypeFanout | TypeTopic
  datatype Policy = PolicyStandard | PolicyPriority
  datatype QueueType = LIFO | FIFO | PriorityQueue

  datatype Queue = Queue(ns: string, name: string)
  datatype Exchange = Exchange(ns: string, name: string, typ: ExchangeType)

  /** What a Redis set (or a hash, as the set of its fields) can hold here. */
  datatype Elem =
    | Word(text: string)
    | QueueRef(queue: Queue)
    | ExchangeRef(exchange: Exchange)
    | TypeField(typ: ExchangeType)
    | PolicyField(policy: Policy)
    | QueueTypeField(queueType: QueueType)

  /** Redis as a map of sets; an absent key and an empty set are the same thing. */
  type Db = map<RedisKey, set<Elem>>

  datatype Error =
    | NamespaceMismatch | InvalidPattern | QueueNotFound | ExchangeNotFound | TypeMismatch
    | PolicyViolation | AlreadyBound | NotBound | HasBoundQueues | AlreadyExists
    | RetriesExhausted | ConnectionFailed

  datatype Outcome = Ok | Err(error: Error)

  function Get(db: Db, k: RedisKey): set<Elem> { if k in db then db[k] else {} }

  function SAdd(db: Db, k: RedisKey, e: Elem): Db { db[k := Get(db, k) + {e}] }

  function SRem(db: Db, k: RedisKey, e: Elem): Db { db[k := Get(db, k) - {e}] }

  // ---------------------------------------------------------------- the keys of the index

  predicate Routable(ex: Exchange) { ex.typ != TypeFanout }

  function PropsKey(ex: Exchange): RedisKey { ExchangeProps(ex.ns, ex.name) }

  function RegistryKey(ex: Exchange): RedisKey {
    if ex.typ == TypeTopic then BindingPatterns(ex.ns, ex.name) else RoutingKeys(ex.ns, ex.name)
  }

  function SlotKey(ex: Exchange, rk: string): RedisKey {
    if ex.typ == TypeTopic then PatternQueues(ex.ns, ex.name, rk) else RoutingKeyQueues(ex.ns, ex.name, rk)
  }

  function BindingsKey(q: Queue): RedisKey { QueueKey(q.ns, q.name, ExchangeBindings) }

  function QueuePropsKey(q: Queue): RedisKey { QueueKey(q.ns, q.name, Properties) }

  /** Topic exchanges index by pattern, direct ones by routing key. */
  lemma IndexKeys(ex: Exchange, rk: string)
    requires Routable(ex)
    ensures RegistryKey(ex).BindingPatterns? <==> ex.typ == TypeTopic
    ensures SlotKey(ex, rk).PatternQueues? <==> ex.typ == TypeTopic
    ensures RegistryKey(ex).RoutingKeys? && SlotKey(ex, rk).RoutingKeyQueues? <==> ex.typ == TypeDirect
  {
  }

  predicate Registered(db: Db, ex: Exchange, rk: string) { Word(rk) in Get(db, RegistryKey(ex)) }

  predicate Bound(db: Db, ex: Exchange, rk: string, q: Queue) { QueueRef(q) in Get(db, SlotKey(ex, rk)) }

  predicate Listed(db: Db, q: Queue, ex: Exchange) { ExchangeRef(ex) in Get(db, BindingsKey(q)) }

  function RegisteredWords(registry: set<Elem>): set<string> {
    set e | e in registry && e.Word? :: e.text
  }

  // ---------------------------------------------------------------- exchange properties

  function StoredType(props: set<Elem>): Option<ExchangeType> {
    if TypeField(TypeDirect) in props then Some(TypeDirect)
    else if TypeField(TypeFanout) in props then Some(TypeFanout)
    else if TypeField(TypeTopic) in props then Some(TypeTopic)
    else None
  }

  function StoredPolicy(props: set<Elem>): Policy {
    if PolicyField(PolicyPriority) in props then PolicyPriority else PolicyStandard
  }

  function SetType(props: set<Elem>, t: ExchangeType): set<Elem> {
    (props - {TypeField(TypeDirect), TypeField(TypeFanout), TypeField(TypeTopic)}) + {TypeField(t)}
  }

  lemma SetTypeStored(props: set<Elem>, t: ExchangeType)
    ensures StoredType(SetType(props, t)) == Some(t)
  {
    assert forall u :: TypeField(u) in SetType(props, t) <==> u == t;
  }

  predicate PolicyAllows(policy: Policy, queueProps: set<Elem>) {
    if policy == PolicyPriority then QueueTypeField(PriorityQueue) in queueProps
    else QueueTypeField(FIFO) in queueProps || QueueTypeField(LIFO) in queueProps
  }

  // ---------------------------------------------------------------- bind

  /** The checks made before a transaction is opened. */
  function ArgError(q: Queue, ex: Exchange, rk: string): Option<Error> {
    if q.ns != ex.ns then Some(NamespaceMismatch)
    else if ex.typ == TypeTopic && !Topic.ValidPattern(rk) then Some(InvalidPattern)
    else None
  }

  /** `ValidateQueueBinding` on the loaded queue and exchange hashes. */
  function BindingError(ex: Exchange, queueProps: set<Elem>, exProps: set<Elem>): Option<Error> {
    if queueProps == {} then Some(QueueNotFound)
    else if exProps == {} then None
    else
      var stored := StoredType(exProps);
      if (if stored.Some? then stored.value else TypeDirect) != ex.typ then Some(TypeMismatch)
      else if !PolicyAllows(StoredPolicy(exProps), queueProps) then Some(PolicyViolation)
      else None
  }

  function BindEffect(db: Db, q: Queue, ex: Exchange, rk: string): Db {
    var db1 := db[PropsKey(ex) := SetType(Get(db, PropsKey(ex)), ex.typ)];
    var db2 := SAdd(db1, SystemKey(AllExchanges), ExchangeRef(ex));
    var db3 := SAdd(db2, NamespaceExchanges(ex.ns), ExchangeRef(ex));
    var db4 := SAdd(db3, RegistryKey(ex), Word(rk));
    var db5 := SAdd(db4, SlotKey(ex, rk), QueueRef(q));
    SAdd(db5, BindingsKey(q), ExchangeRef(ex))
  }

  function Bind(db: Db, q: Queue, ex: Exchange, rk: string): (Db, Outcome) {
    var invalid := ArgError(q, ex, rk);
    if invalid.Some? then (db, Err(invalid.value))
    else
      var refused := BindingError(ex, Get(db, QueuePropsKey(q)), Get(db, PropsKey(ex)));
      if refused.Some? then (db, Err(refused.value))
      else if Bound(db, ex, rk, q) then (db, Err(AlreadyBound))
      else (BindEffect(db, q, ex, rk), Ok)
  }

  // ---------------------------------------------------------------- unbind

  /** `ValidateType` with the exchange required. */
  function TypeError(ex: Exchange, exProps: set<Elem>): Option<Error> {
    match StoredType(exProps)
    case None => Some(ExchangeNotFound)
    case Some(t) => if t != ex.typ then Some(TypeMismatch) else None
  }

  ghost predicate StillBound(db: Db, q: Queue, ex: Exchange, rk: string) {
    exists other :: Registered(db, ex, other) && other != rk && Bound(db, ex, other, q)
  }

  function UnbindEffect(db: Db, q: Queue, ex: Exchange, rk: string, last: bool, stillBound: bool): Db {
    var db1 := SRem(db, SlotKey(ex, rk), QueueRef(q));
    var db2 := if last then SRem(db1, RegistryKey(ex), Word(rk)) else db1;
    if stillBound then db2 else SRem(db2, BindingsKey(q), ExchangeRef(ex))
  }

  ghost function Unbind(db: Db, q: Queue, ex: Exchange, rk: string): (Db, Outcome) {
    var invalid := ArgError(q, ex, rk);
    var refused := TypeError(ex, Get(db, PropsKey(ex)));
    if invalid.Some? then (db, Err(invalid.value))
    else if refused.Some? then (db, Err(refused.value))
    else if !Bound(db, ex, rk, q) then (db, Err(NotBound))
    else (UnbindEffect(db, q, ex, rk, |Get(db, SlotKey(ex, rk))| == 1, StillBound(db, q, ex, rk)), Ok)
  }

  // ---------------------------------------------------------------- create and delete

  function CreateEffect(db: Db, ex: Exchange, policy: Policy): Db {
    var props := SetType(Get(db, PropsKey(ex)), ex.typ)
                 - {PolicyField(PolicyStandard), PolicyField(PolicyPriority)} + {PolicyField(policy)};
    var db1 := db[PropsKey(ex) := props];
    var db2 := SAdd(db1, SystemKey(AllNamespaces), Word(ex.ns));
    var db3 := SAdd(db2, SystemKey(AllExchanges), ExchangeRef(ex));
    SAdd(db3, NamespaceExchanges(ex.ns), ExchangeRef(ex))
  }

  function Create(db: Db, ex: Exchange, policy: Policy): (Db, Outcome) {
    if StoredType(Get(db, PropsKey(ex))).Some? then (db, Err(AlreadyExists))
    else (CreateEffect(db, ex, policy), Ok)
  }

  function DeleteEffect(db: Db, ex: Exchange, rks: set<string>): Db {
    var db1 := db - {ExchangeKey(ex.ns, ex.name), PropsKey(ex), RegistryKey(ex)};
    var db2 := SRem(db1, SystemKey(AllExchanges), ExchangeRef(ex));
    var db3 := SRem(db2, NamespaceExchanges(ex.ns), ExchangeRef(ex));
    db3 - (set rk | rk in rks :: SlotKey(ex, rk))
  }

  ghost predicate HasBindings(db: Db, ex: Exchange) {
    exists rk :: Registered(db, ex, rk) && Get(db, SlotKey(ex, rk)) != {}
  }

  ghost function Delete(db: Db, ex: Exchange): (Db, Outcome) {
    var refused := TypeError(ex, Get(db, PropsKey(ex)));
    if refused.Some? then (db, Err(refused.value))
    else if HasBindings(db, ex) then (db, Err(HasBoundQueues))
    else (DeleteEffect(db, ex, RegisteredWords(Get(db, RegistryKey(ex)))), Ok)
  }

  // ---------------------------------------------------------------- the index invariant

  /** A routing key is registered exactly when some queue is bound under it. */
  ghost predicate RegistryExact(db: Db) {
    forall ex, rk :: Routable(ex) ==> (Registered(db, ex, rk) <==> Get(db, SlotKey(ex, rk)) != {})
  }

  /** An exchange is listed for a queue exactly when the queue is bound under some routing key. */
  ghost predicate BackIndexExact(db: Db) {
    forall q, ex :: Routable(ex) ==> (Listed(db, q, ex) <==> exists rk :: Bound(db, ex, rk, q))
  }

  /** Only an existing exchange of the right type has bindings. */
  ghost predicate TypesExact(db: Db) {
    forall ex, rk :: Routable(ex) && Get(db, SlotKey(ex, rk)) != {} ==>
      StoredType(Get(db, PropsKey(ex))) == Some(ex.typ)
  }

  /** The name is taken by an exchange of another type. */
  predicate OtherTypeStored(db: Db, ex: Exchange) {
    StoredType(Get(db, PropsKey(ex))).Some? && StoredType(Get(db, PropsKey(ex))).value != ex.typ
  }

  /** The catalogues list an exchange, globally and in its namespace, exactly when its type is stored. */
  ghost predicate CatalogueExact(db: Db) { forall ex :: CataloguedRight(db, ex) }

  predicate CataloguedRight(db: Db, ex: Exchange) {
    var known := StoredType(Get(db, PropsKey(ex))) == Some(ex.typ);
    && (ExchangeRef(ex) in Get(db, SystemKey(AllExchanges)) <==> known)
    && (ExchangeRef(ex) in Get(db, NamespaceExchanges(ex.ns)) <==> known)
  }

  ghost predicate Inv(db: Db) { RegistryExact(db) && BackIndexExact(db) && TypesExact(db) }

  // ---------------------------------------------------------------- what a commit changes

  function BindAdds(q: Queue, ex: Exchange, rk: string, k: RedisKey): set<Elem> {
    if k == SystemKey(AllExchanges) || k == NamespaceExchanges(ex.ns) || k == BindingsKey(q) then {ExchangeRef(ex)}
    else if k == RegistryKey(ex) then {Word(rk)}
    else if k == SlotKey(ex, rk) then {QueueRef(q)}
    else {}
  }

  lemma SAddAt(db: Db, k: RedisKey, e: Elem, at: RedisKey)
    ensures Get(SAdd(db, k, e), at) == if at == k then Get(db, at) + {e} else Get(db, at)
  {
  }

  lemma BindAt(db: Db, q: Queue, ex: Exchange, rk: string, k: RedisKey)
    ensures Get(BindEffect(db, q, ex, rk), k)
         == if k == PropsKey(ex) then SetType(Get(db, k), ex.typ) else Get(db, k) + BindAdds(q, ex, rk, k)
  {
    hide SAdd;
    var db1 := db[PropsKey(ex) := SetType(Get(db, PropsKey(ex)), ex.typ)];
    var db2 := SAdd(db1, SystemKey(AllExchanges), ExchangeRef(ex));
    var db3 := SAdd(db2, NamespaceExchanges(ex.ns), ExchangeRef(ex));
    var db4 := SAdd(db3, RegistryKey(ex), Word(rk));
    var db5 := SAdd(db4, SlotKey(ex, rk), QueueRef(q));
    assert Get(db1, k) == if k == PropsKey(ex) then SetType(Get(db, k), ex.typ) else Get(db, k);
    hide Get;
    SAddAt(db1, SystemKey(AllExchanges), ExchangeRef(ex), k);
    SAddAt(db2, NamespaceExchanges(ex.ns), ExchangeRef(ex), k);
    SAddAt(db3, RegistryKey(ex), Word(rk), k);
    SAddAt(db4, SlotKey(ex, rk), QueueRef(q), k);
    SAddAt(db5, BindingsKey(q), ExchangeRef(ex), k);
  }

  function UnbindDrops(q: Queue, ex: Exchange, rk: string, last: bool, stillBound: bool, k: RedisKey): set<Elem> {
    if k == SlotKey(ex, rk) then {QueueRef(q)}
    else if k == RegistryKey(ex) && last then {Word(rk)}
    else if k == BindingsKey(q) && !stillBound then {ExchangeRef(ex)}
    else {}
  }

  lemma UnbindAt(db: Db, q: Queue, ex: Exchange, rk: string, last: bool, stillBound: bool, k: RedisKey)
    ensures Get(UnbindEffect(db, q, ex, rk, last, stillBound), k)
         == Get(db, k) - UnbindDrops(q, ex, rk, last, stillBound, k)
  {
  }

  lemma SlotKeyInjective(ex: Exchange, rk: string, ex': Exchange, rk': string)
    requires Routable(ex) && Routable(ex')
    ensures SlotKey(ex, rk) == SlotKey(ex', rk') <==> (ex, rk) == (ex', rk')
    ensures RegistryKey(ex) == RegistryKey(ex') <==> ex == ex'
    ensures SlotKey(ex, rk) != RegistryKey(ex')
  {
  }

  /** The slots and registries after a bind. */
  lemma BindSlots(db: Db, q: Queue, ex: Exchange, rk: string, ex': Exchange, rk': string)
    requires Routable(ex) && Routable(ex')
    ensures var db' := BindEffect(db, q, ex, rk);
      && (forall q' :: Bound(db', ex', rk', q') <==> Bound(db, ex', rk', q') || (ex', rk', q') == (ex, rk, q))
      && (Get(db', SlotKey(ex', rk')) != {} <==> Get(db, SlotKey(ex', rk')) != {} || (ex', rk') == (ex, rk))
      && (Registered(db', ex', rk') <==> Registered(db, ex', rk') || (ex', rk') == (ex, rk))
  {
    hide BindEffect;
    BindAt(db, q, ex, rk, SlotKey(ex', rk'));
    BindAt(db, q, ex, rk, RegistryKey(ex'));
    SlotKeyInjective(ex, rk, ex', rk');
    if (ex', rk') == (ex, rk) {
      assert QueueRef(q) in Get(BindEffect(db, q, ex, rk), SlotKey(ex', rk'));
    }
  }

  lemma BindLists(db: Db, q: Queue, ex: Exchange, rk: string, q': Queue, ex': Exchange)
    ensures Listed(BindEffect(db, q, ex, rk), q', ex') <==> Listed(db, q', ex') || (q', ex') == (q, ex)
  {
    hide BindEffect;
    BindAt(db, q, ex, rk, BindingsKey(q'));
  }

  /** The slots and registries after an unbind that saw the true slot size. */
  lemma UnbindSlots(db: Db, q: Queue, ex: Exchange, rk: string, stillBound: bool, ex': Exchange, rk': string)
    requires Routable(ex) && Routable(ex') && Bound(db, ex, rk, q)
    ensures var last := |Get(db, SlotKey(ex, rk))| == 1;
      var db' := UnbindEffect(db, q, ex, rk, last, stillBound);
      && (forall q' :: Bound(db', ex', rk', q') <==> Bound(db, ex', rk', q') && (ex', rk', q') != (ex, rk, q))
      && (Get(db', SlotKey(ex', rk')) != {} <==> Get(db, SlotKey(ex', rk')) != {} && !((ex', rk') == (ex, rk) && last))
      && (Registered(db', ex', rk') <==> Registered(db, ex', rk') && !((ex', rk') == (ex, rk) && last))
  {
    hide UnbindEffect;
    var slot := Get(db, SlotKey(ex, rk));
    UnbindAt(db, q, ex, rk, |slot| == 1, stillBound, SlotKey(ex', rk'));
    UnbindAt(db, q, ex, rk, |slot| == 1, stillBound, RegistryKey(ex'));
    SlotKeyInjective(ex, rk, ex', rk');
    assert |slot - {QueueRef(q)}| == |slot| - 1;
    assert slot - {QueueRef(q)} == {} <==> |slot| == 1;
  }

  lemma UnbindLists(db: Db, q: Queue, ex: Exchange, rk: string, last: bool, stillBound: bool, q': Queue, ex': Exchange)
    ensures Listed(UnbindEffect(db, q, ex, rk, last, stillBound), q', ex')
        <==> Listed(db, q', ex') && ((q', ex') == (q, ex) ==> stillBound)
  {
    hide UnbindEffect;
    UnbindAt(db, q, ex, rk, last, stillBound, BindingsKey(q'));
  }

  // ---------------------------------------------------------------- what each operation means

  /** When a bind goes through, in terms of what is stored: the queue is of the exchange's namespace, exists
      and is not bound yet; a topic pattern is valid; and the exchange is new, or is of the same type and its
      policy is for queues of this type. */
  lemma BindSucceedsIff(db: Db, q: Queue, ex: Exchange, rk: string, t: QueueType)
    requires Get(db, QueuePropsKey(q)) == {QueueTypeField(t)}
    requires Get(db, PropsKey(ex)) == {} || StoredType(Get(db, PropsKey(ex))).Some?
    ensures Bind(db, q, ex, rk).1 == Ok <==>
      && q.ns == ex.ns && (ex.typ == TypeTopic ==> Topic.ValidPattern(rk)) && !Bound(db, ex, rk, q)
      && var props := Get(db, PropsKey(ex));
         || props == {}
         || (StoredType(props) == Some(ex.typ) && (PolicyField(PolicyPriority) in props <==> t == PriorityQueue))
  {
  }

  /** Which refusal a bind meets, first come first. */
  lemma BindRefusals(db: Db, q: Queue, ex: Exchange, rk: string)
    requires Get(db, PropsKey(ex)) == {} || StoredType(Get(db, PropsKey(ex))).Some?
    ensures var r := Bind(db, q, ex, rk).1;
      && (r == Err(NamespaceMismatch) <==> q.ns != ex.ns)
      && (r == Err(InvalidPattern) <==> q.ns == ex.ns && ex.typ == TypeTopic && !Topic.ValidPattern(rk))
      && (r == Err(QueueNotFound) ==> Get(db, QueuePropsKey(q)) == {})
      && (r == Err(TypeMismatch) ==>
           StoredType(Get(db, PropsKey(ex))).Some? && StoredType(Get(db, PropsKey(ex))).value != ex.typ)
      && (r == Err(AlreadyBound) ==> Bound(db, ex, rk, q))
      && (r == Ok || r == Err(PolicyViolation) || r == Err(NamespaceMismatch) || r == Err(InvalidPattern)
          || r == Err(QueueNotFound) || r == Err(TypeMismatch) || r == Err(AlreadyBound))
  {
  }

  /** After creating a queue and an exchange with a policy, on any database that knows neither, the queue can
      be bound exactly when the policy is the one for its type, and is refused for the policy otherwise. */
  lemma CreatedBindIff(db: Db, q: Queue, ex: Exchange, rk: string, policy: Policy, t: QueueType)
    requires ArgError(q, ex, rk).None? && !Bound(db, ex, rk, q)
    requires Get(db, QueuePropsKey(q)) == {} && Get(db, PropsKey(ex)) == {}
    ensures var db' := Apply(Apply(db, NewQueueOp(q, t)).0, CreateOp(ex, policy)).0;
      Bind(db', q, ex, rk).1 == if (policy == PolicyPriority) == (t == PriorityQueue) then Ok else Err(PolicyViolation)
  {
    hide CreateEffect, ArgError;
    var db1 := db[QueuePropsKey(q) := {QueueTypeField(t)}];
    assert Get(db1, PropsKey(ex)) == {} && Get(db1, SlotKey(ex, rk)) == Get(db, SlotKey(ex, rk));
    CreatedProps(db1, ex, policy);
    CreateAt(db1, ex, policy, QueuePropsKey(q));
    CreateAt(db1, ex, policy, SlotKey(ex, rk));
  }

  lemma CreatedProps(db: Db, ex: Exchange, policy: Policy)
    requires Get(db, PropsKey(ex)) == {}
    ensures Get(CreateEffect(db, ex, policy), PropsKey(ex)) == {TypeField(ex.typ), PolicyField(policy)}
  {
  }

  /** Binding adds one triple to the binding relation, leaves every policy and every queue's properties as
      they were, and keeps the whole index exact. */
  lemma BindMeaning(db: Db, q: Queue, ex: Exchange, rk: string)
    requires Routable(ex) && Inv(db)
    ensures Inv(Bind(db, q, ex, rk).0)
    ensures forall ex' ::
      StoredPolicy(Get(Bind(db, q, ex, rk).0, PropsKey(ex'))) == StoredPolicy(Get(db, PropsKey(ex')))
    ensures forall q' :: Get(Bind(db, q, ex, rk).0, QueuePropsKey(q')) == Get(db, QueuePropsKey(q'))
    ensures Bind(db, q, ex, rk).1 == Ok ==>
      forall ex', rk', q' :: Routable(ex') ==>
        (Bound(Bind(db, q, ex, rk).0, ex', rk', q') <==> Bound(db, ex', rk', q') || (ex', rk', q') == (ex, rk, q))
  {
    hide BindEffect;
    var (db', r) := Bind(db, q, ex, rk);
    if r == Ok {
      BindKeepsRegistry(db, q, ex, rk);
      BindKeepsBackIndex(db, q, ex, rk);
      BindKeepsTypes(db, q, ex, rk);
      forall ex' ensures StoredPolicy(Get(db', PropsKey(ex'))) == StoredPolicy(Get(db, PropsKey(ex'))) {
        BindAt(db, q, ex, rk, PropsKey(ex'));
      }
      forall q' ensures Get(db', QueuePropsKey(q')) == Get(db, QueuePropsKey(q')) {
        BindAt(db, q, ex, rk, QueuePropsKey(q'));
        assert Get(db, QueuePropsKey(q')) + {} == Get(db, QueuePropsKey(q'));
      }
      forall ex', rk', q' | Routable(ex')
        ensures Bound(db', ex', rk', q') <==> Bound(db, ex', rk', q') || (ex', rk', q') == (ex, rk, q)
      {
        BindSlots(db, q, ex, rk, ex', rk');
      }
    }
  }

  lemma BindKeepsRegistry(db: Db, q: Queue, ex: Exchange, rk: string)
    requires Routable(ex) && RegistryExact(db)
    ensures RegistryExact(BindEffect(db, q, ex, rk))
  {
    hide BindEffect;
    var db' := BindEffect(db, q, ex, rk);
    forall ex', rk' | Routable(ex')
      ensures Registered(db', ex', rk') <==> Get(db', SlotKey(ex', rk')) != {}
    {
      BindSlots(db, q, ex, rk, ex', rk');
    }
  }

  lemma BindKeepsBackIndex(db: Db, q: Queue, ex: Exchange, rk: string)
    requires Routable(ex) && BackIndexExact(db)
    ensures BackIndexExact(BindEffect(db, q, ex, rk))
  {
    hide BindEffect;
    var db' := BindEffect(db, q, ex, rk);
    forall q', ex' | Routable(ex')
      ensures Listed(db', q', ex') <==> exists rk' :: Bound(db', ex', rk', q')
    {
      BindLists(db, q, ex, rk, q', ex');
      forall rk' ensures Bound(db', ex', rk', q') <==> Bound(db, ex', rk', q') || (ex', rk', q') == (ex, rk, q) {
        BindSlots(db, q, ex, rk, ex', rk');
      }
      if (q', ex') == (q, ex) {
        assert Bound(db', ex', rk, q');
      } else if Listed(db, q', ex') {
        var rk' :| Bound(db, ex', rk', q');
        assert Bound(db', ex', rk', q');
      }
    }
  }

  lemma BindKeepsTypes(db: Db, q: Queue, ex: Exchange, rk: string)
    requires Routable(ex) && TypesExact(db) && !OtherTypeStored(db, ex)
    ensures TypesExact(BindEffect(db, q, ex, rk))
  {
    hide BindEffect, SetType;
    var db' := BindEffect(db, q, ex, rk);
    SetTypeStored(Get(db, PropsKey(ex)), ex.typ);
    forall ex', rk' | Routable(ex') && Get(db', SlotKey(ex', rk')) != {}
      ensures StoredType(Get(db', PropsKey(ex'))) == Some(ex'.typ)
    {
      BindSlots(db, q, ex, rk, ex', rk');
      BindAt(db, q, ex, rk, PropsKey(ex'));
      assert Get(db, PropsKey(ex')) + {} == Get(db, PropsKey(ex'));
    }
  }

  /** Unbinding succeeds exactly on a binding, with matching namespace and a valid pattern; it removes that
      one triple, leaves all properties as they were, and keeps the whole index exact: scanning the
      registered keys finds every other binding of the queue because the registry is exact. */
  lemma UnbindMeaning(db: Db, q: Queue, ex: Exchange, rk: string)
    requires Routable(ex) && Inv(db)
    ensures Unbind(db, q, ex, rk).1 == Ok <==>
      q.ns == ex.ns && (ex.typ == TypeTopic ==> Topic.ValidPattern(rk)) && Bound(db, ex, rk, q)
    ensures Unbind(db, q, ex, rk).1 == Err(NotBound) ==> !Bound(db, ex, rk, q)
    ensures Inv(Unbind(db, q, ex, rk).0)
    ensures forall ex' :: Get(Unbind(db, q, ex, rk).0, PropsKey(ex')) == Get(db, PropsKey(ex'))
    ensures Unbind(db, q, ex, rk).1 == Ok ==>
      forall ex', rk', q' :: Routable(ex') ==>
        (Bound(Unbind(db, q, ex, rk).0, ex', rk', q') <==> Bound(db, ex', rk', q') && (ex', rk', q') != (ex, rk, q))
  {
    hide UnbindEffect;
    var (db', r) := Unbind(db, q, ex, rk);
    assert Bound(db, ex, rk, q) ==> Get(db, SlotKey(ex, rk)) != {};
    if r == Ok {
      forall ex' ensures Get(db', PropsKey(ex')) == Get(db, PropsKey(ex')) {
        UnbindAt(db, q, ex, rk, |Get(db, SlotKey(ex, rk))| == 1, StillBound(db, q, ex, rk), PropsKey(ex'));
        assert Get(db, PropsKey(ex')) - {} == Get(db, PropsKey(ex'));
      }
      UnbindKeepsRegistry(db, q, ex, rk, StillBound(db, q, ex, rk));
      UnbindKeepsTypes(db, q, ex, rk, StillBound(db, q, ex, rk));
      UnbindBackIndexIff(db, q, ex, rk, StillBound(db, q, ex, rk));
      forall ex', rk', q' | Routable(ex')
        ensures Bound(db', ex', rk', q') <==> Bound(db, ex', rk', q') && (ex', rk', q') != (ex, rk, q)
      {
        UnbindSlots(db, q, ex, rk, StillBound(db, q, ex, rk), ex', rk');
      }
    }
  }

  lemma UnbindKeepsRegistry(db: Db, q: Queue, ex: Exchange, rk: string, stillBound: bool)
    requires Routable(ex) && Bound(db, ex, rk, q) && RegistryExact(db)
    ensures RegistryExact(UnbindEffect(db, q, ex, rk, |Get(db, SlotKey(ex, rk))| == 1, stillBound))
  {
    hide UnbindEffect;
    var db' := UnbindEffect(db, q, ex, rk, |Get(db, SlotKey(ex, rk))| == 1, stillBound);
    forall ex', rk' | Routable(ex')
      ensures Registered(db', ex', rk') <==> Get(db', SlotKey(ex', rk')) != {}
    {
      UnbindSlots(db, q, ex, rk, stillBound, ex', rk');
    }
  }

  lemma UnbindKeepsTypes(db: Db, q: Queue, ex: Exchange, rk: string, stillBound: bool)
    requires Routable(ex) && Bound(db, ex, rk, q) && TypesExact(db)
    ensures TypesExact(UnbindEffect(db, q, ex, rk, |Get(db, SlotKey(ex, rk))| == 1, stillBound))
  {
    hide UnbindEffect;
    var db' := UnbindEffect(db, q, ex, rk, |Get(db, SlotKey(ex, rk))| == 1, stillBound);
    forall ex', rk' | Routable(ex') && Get(db', SlotKey(ex', rk')) != {}
      ensures StoredType(Get(db', PropsKey(ex'))) == Some(ex'.typ)
    {
      UnbindSlots(db, q, ex, rk, stillBound, ex', rk');
      UnbindAt(db, q, ex, rk, |Get(db, SlotKey(ex, rk))| == 1, stillBound, PropsKey(ex'));
    }
  }

  /** An unbind keeps the back-index exact precisely when the scan result it carries is the
      truth at the moment it commits. */
  lemma UnbindBackIndexIff(db: Db, q: Queue, ex: Exchange, rk: string, stillBound: bool)
    requires Routable(ex) && Bound(db, ex, rk, q) && RegistryExact(db) && BackIndexExact(db)
    ensures BackIndexExact(UnbindEffect(db, q, ex, rk, |Get(db, SlotKey(ex, rk))| == 1, stillBound))
        <==> (stillBound <==> StillBound(db, q, ex, rk))
  {
    hide UnbindEffect;
    var last := |Get(db, SlotKey(ex, rk))| == 1;
    var db' := UnbindEffect(db, q, ex, rk, last, stillBound);
    forall q', ex', rk' | Routable(ex')
      ensures Bound(db', ex', rk', q') <==> Bound(db, ex', rk', q') && (ex', rk', q') != (ex, rk, q)
    {
      UnbindSlots(db, q, ex, rk, stillBound, ex', rk');
    }
    forall q', ex' ensures Listed(db', q', ex') <==> Listed(db, q', ex') && ((q', ex') == (q, ex) ==> stillBound) {
      UnbindLists(db, q, ex, rk, last, stillBound, q', ex');
    }
    assert Listed(db, q, ex);
    assert Listed(db', q, ex) <==> stillBound;
    assert (exists rk' :: Bound(db', ex, rk', q)) <==> StillBound(db, q, ex, rk) by {
      forall rk' | Bound(db', ex, rk', q) ensures StillBound(db, q, ex, rk) {
        assert Registered(db, ex, rk');
      }
    }
  }

  predicate Deleted(ex: Exchange, rks: set<string>, k: RedisKey) {
    k == ExchangeKey(ex.ns, ex.name) || k == PropsKey(ex) || k == RegistryKey(ex)
    || exists rk :: rk in rks && k == SlotKey(ex, rk)
  }

  lemma DeleteAt(db: Db, ex: Exchange, rks: set<string>, k: RedisKey)
    ensures Get(DeleteEffect(db, ex, rks), k)
         == if Deleted(ex, rks, k) then {}
            else Get(db, k)
                 - if k == SystemKey(AllExchanges) || k == NamespaceExchanges(ex.ns) then {ExchangeRef(ex)} else {}
  {
  }

  /** Deleting succeeds exactly when the exchange has its type stored and no queue set of it is
      inhabited; it then leaves no trace of the exchange, changes no binding, and keeps the index exact. */
  lemma DeleteMeaning(db: Db, ex: Exchange)
    requires Routable(ex) && Inv(db)
    ensures Delete(db, ex).1 == Ok <==>
      StoredType(Get(db, PropsKey(ex))) == Some(ex.typ) && forall rk :: Get(db, SlotKey(ex, rk)) == {}
    ensures Inv(Delete(db, ex).0)
    ensures Delete(db, ex).1 == Ok ==>
      var db' := Delete(db, ex).0;
      && Get(db', PropsKey(ex)) == {} && Get(db', RegistryKey(ex)) == {}
      && (forall q :: !Listed(db', q, ex))
      && (forall ex', rk :: Routable(ex') ==> Get(db', SlotKey(ex', rk)) == Get(db, SlotKey(ex', rk)))
  {
    if Delete(db, ex).1 == Ok {
      DeleteKeepsRegistry(db, ex);
      DeleteKeepsBackIndex(db, ex);
      DeleteKeepsTypes(db, ex);
      assert forall rk :: Get(db, SlotKey(ex, rk)) != {} ==> Registered(db, ex, rk);
    }
  }

  /** What a delete that goes through leaves of the index. */
  lemma DeleteKeepsRegistry(db: Db, ex: Exchange)
    requires Routable(ex) && RegistryExact(db) && Delete(db, ex).1 == Ok
    ensures var db' := Delete(db, ex).0;
      && RegistryExact(db')
      && Get(db', PropsKey(ex)) == {} && Get(db', RegistryKey(ex)) == {}
      && (forall rk :: Get(db, SlotKey(ex, rk)) == {})
      && (forall ex', rk :: Routable(ex') ==> Get(db', SlotKey(ex', rk)) == Get(db, SlotKey(ex', rk)))
  {
    hide DeleteEffect, TypeError;
    var rks := RegisteredWords(Get(db, RegistryKey(ex)));
    var db' := DeleteEffect(db, ex, rks);
    DeleteAt(db, ex, rks, RegistryKey(ex));
    DeleteAt(db, ex, rks, PropsKey(ex));
    forall rk ensures Get(db, SlotKey(ex, rk)) == {} {
      assert Registered(db, ex, rk) <==> Get(db, SlotKey(ex, rk)) != {};
    }
    forall ex', rk | Routable(ex')
      ensures Get(db', SlotKey(ex', rk)) == Get(db, SlotKey(ex', rk))
      ensures Registered(db', ex', rk) <==> ex' != ex && Registered(db, ex', rk)
    {
      DeleteAt(db, ex, rks, SlotKey(ex', rk));
      DeleteAt(db, ex, rks, RegistryKey(ex'));
      SlotKeyInjective(ex, rk, ex', rk);
    }
  }

  lemma DeleteKeepsBackIndex(db: Db, ex: Exchange)
    requires Routable(ex) && RegistryExact(db) && BackIndexExact(db) && Delete(db, ex).1 == Ok
    ensures BackIndexExact(Delete(db, ex).0) && forall q :: !Listed(Delete(db, ex).0, q, ex)
  {
    hide DeleteEffect, TypeError;
    var rks := RegisteredWords(Get(db, RegistryKey(ex)));
    var db' := DeleteEffect(db, ex, rks);
    DeleteKeepsRegistry(db, ex);
    forall q, ex' ensures Listed(db', q, ex') <==> Listed(db, q, ex') {
      DeleteAt(db, ex, rks, BindingsKey(q));
    }
    BackIndexFrame(db, db');
  }

  lemma DeleteKeepsTypes(db: Db, ex: Exchange)
    requires Routable(ex) && RegistryExact(db) && TypesExact(db) && Delete(db, ex).1 == Ok
    ensures TypesExact(Delete(db, ex).0)
  {
    hide DeleteEffect;
    var rks := RegisteredWords(Get(db, RegistryKey(ex)));
    var db' := DeleteEffect(db, ex, rks);
    DeleteKeepsRegistry(db, ex);
    forall ex', rk | Routable(ex') && Get(db', SlotKey(ex', rk)) != {}
      ensures StoredType(Get(db', PropsKey(ex'))) == Some(ex'.typ)
    {
      DeleteAt(db, ex, rks, PropsKey(ex'));
      assert Get(db, PropsKey(ex')) - {} == Get(db, PropsKey(ex'));
    }
  }

  lemma CreateAt(db: Db, ex: Exchange, policy: Policy, k: RedisKey)
    ensures var v := Get(CreateEffect(db, ex, policy), k);
      if k == PropsKey(ex) then StoredType(v) == Some(ex.typ) && StoredPolicy(v) == policy
      else if k == SystemKey(AllNamespaces) then v == Get(db, k) + {Word(ex.ns)}
      else if k == SystemKey(AllExchanges) || k == NamespaceExchanges(ex.ns) then v == Get(db, k) + {ExchangeRef(ex)}
      else v == Get(db, k)
  {
    if k == PropsKey(ex) {
      var v := Get(CreateEffect(db, ex, policy), k);
      assert v == SetType(Get(db, k), ex.typ)
               - {PolicyField(PolicyStandard), PolicyField(PolicyPriority)} + {PolicyField(policy)};
      assert forall t :: TypeField(t) in v <==> t == ex.typ;
    }
  }

  lemma BackIndexFrame(db: Db, db': Db)
    requires BackIndexExact(db)
    requires forall ex, rk :: Routable(ex) ==> Get(db', SlotKey(ex, rk)) == Get(db, SlotKey(ex, rk))
    requires forall q, ex :: Listed(db', q, ex) <==> Listed(db, q, ex)
    ensures BackIndexExact(db')
  {
    forall q, ex | Routable(ex)
      ensures Listed(db', q, ex) <==> exists rk :: Bound(db', ex, rk, q)
    {
      assert Listed(db', q, ex) <==> Listed(db, q, ex);
      forall rk ensures Bound(db', ex, rk, q) <==> Bound(db, ex, rk, q) {
        assert Get(db', SlotKey(ex, rk)) == Get(db, SlotKey(ex, rk));
      }
    }
  }

  /** Two databases with the same slots, registries and exchange lists. */
  ghost predicate SameIndex(db: Db, db': Db) {
    && (forall ex, rk :: Routable(ex) ==> Get(db', SlotKey(ex, rk)) == Get(db, SlotKey(ex, rk)))
    && (forall ex :: Routable(ex) ==> Get(db', RegistryKey(ex)) == Get(db, RegistryKey(ex)))
    && (forall q :: Get(db', BindingsKey(q)) == Get(db, BindingsKey(q)))
  }

  lemma SameIndexExact(db: Db, db': Db)
    requires SameIndex(db, db')
    ensures RegistryExact(db) ==> RegistryExact(db')
    ensures BackIndexExact(db) ==> BackIndexExact(db')
  {
    if BackIndexExact(db) {
      BackIndexFrame(db, db');
    }
  }

  lemma CreateFrame(db: Db, ex: Exchange, policy: Policy)
    ensures SameIndex(db, CreateEffect(db, ex, policy))
    ensures TypesExact(db) && StoredType(Get(db, PropsKey(ex))) == None ==> TypesExact(CreateEffect(db, ex, policy))
  {
    hide CreateEffect, StoredType, StoredPolicy, Get;
    var db' := CreateEffect(db, ex, policy);
    forall k ensures k != PropsKey(ex) && !k.SystemKey? && !k.NamespaceExchanges? ==> Get(db', k) == Get(db, k) {
      CreateAt(db, ex, policy, k);
    }
  }

  /** Creating succeeds exactly on a name without a stored type; it then stores type and policy,
      changes no binding, and keeps the index exact. */
  lemma CreateMeaning(db: Db, ex: Exchange, policy: Policy)
    requires Inv(db)
    ensures Create(db, ex, policy).1 == Ok <==> StoredType(Get(db, PropsKey(ex))) == None
    ensures Inv(Create(db, ex, policy).0)
    ensures Create(db, ex, policy).1 == Ok ==>
      var db' := Create(db, ex, policy).0;
      && StoredType(Get(db', PropsKey(ex))) == Some(ex.typ) && StoredPolicy(Get(db', PropsKey(ex))) == policy
      && forall ex', rk :: Get(db', SlotKey(ex', rk)) == Get(db, SlotKey(ex', rk))
  {
    hide CreateEffect, StoredType, StoredPolicy;
    if Create(db, ex, policy).1 == Ok {
      CreateFrame(db, ex, policy);
      SameIndexExact(db, CreateEffect(db, ex, policy));
      CreateAt(db, ex, policy, PropsKey(ex));
      forall ex', rk ensures Get(CreateEffect(db, ex, policy), SlotKey(ex', rk)) == Get(db, SlotKey(ex', rk)) {
        CreateAt(db, ex, policy, SlotKey(ex', rk));
      }
    }
  }

  // ---------------------------------------------------------------- serial runs

  datatype Op =
    | BindOp(queue: Queue, exchange: Exchange, rk: string)
    | UnbindOp(queue: Queue, exchange: Exchange, rk: string)
    | DeleteOp(exchange: Exchange)
    | CreateOp(exchange: Exchange, policy: Policy)
    | NewQueueOp(queue: Queue, queueType: QueueType)

  /** Bindings and deletions are those of direct and topic exchanges; any type can be created. */
  predicate OpRoutable(op: Op) { op.NewQueueOp? || op.CreateOp? || Routable(op.exchange) }

  ghost function Apply(db: Db, op: Op): (Db, Outcome) {
    match op
    case BindOp(q, ex, rk) => Bind(db, q, ex, rk)
    case UnbindOp(q, ex, rk) => Unbind(db, q, ex, rk)
    case DeleteOp(ex) => Delete(db, ex)
    case CreateOp(ex, policy) => Create(db, ex, policy)
    case NewQueueOp(q, t) =>
      if Get(db, QueuePropsKey(q)) != {} then (db, Err(AlreadyExists))
      else (db[QueuePropsKey(q) := {QueueTypeField(t)}], Ok)
  }

  ghost function RunAll(db: Db, ops: seq<Op>): Db {
    if ops == [] then db else Apply(RunAll(db, ops[..|ops| - 1]), ops[|ops| - 1]).0
  }

  lemma NewQueueFrame(db: Db, q: Queue, t: QueueType)
    ensures SameIndex(db, db[QueuePropsKey(q) := {QueueTypeField(t)}])
    ensures Inv(db) ==> Inv(db[QueuePropsKey(q) := {QueueTypeField(t)}])
  {
    SameIndexExact(db, db[QueuePropsKey(q) := {QueueTypeField(t)}]);
  }

  /** A refused operation changes nothing, and every operation keeps the index exact. */
  lemma ApplyMeaning(db: Db, op: Op)
    requires OpRoutable(op) && Inv(db)
    ensures Inv(Apply(db, op).0)
    ensures Apply(db, op).1 != Ok ==> Apply(db, op).0 == db
  {
    hide BindEffect, UnbindEffect, DeleteEffect, CreateEffect;
    match op
    case BindOp(q, ex, rk) => BindMeaning(db, q, ex, rk);
    case UnbindOp(q, ex, rk) => UnbindMeaning(db, q, ex, rk);
    case DeleteOp(ex) => DeleteMeaning(db, ex);
    case CreateOp(ex, policy) => CreateMeaning(db, ex, policy);
    case NewQueueOp(q, t) => NewQueueFrame(db, q, t);
  }

  lemma BoundSameType(db: Db, q: Queue, ex: Exchange, rk: string)
    requires Bind(db, q, ex, rk).1 == Ok
    ensures !OtherTypeStored(db, ex)
  {
  }

  lemma BindCatalogued(db: Db, q: Queue, ex: Exchange, rk: string, ex': Exchange)
    requires CataloguedRight(db, ex') && !OtherTypeStored(db, ex)
    ensures CataloguedRight(BindEffect(db, q, ex, rk), ex')
  {
    hide BindEffect, SetType, Get;
    BindAt(db, q, ex, rk, PropsKey(ex'));
    BindAt(db, q, ex, rk, SystemKey(AllExchanges));
    BindAt(db, q, ex, rk, NamespaceExchanges(ex'.ns));
    SetTypeStored(Get(db, PropsKey(ex)), ex.typ);
    assert Get(db, PropsKey(ex')) + {} == Get(db, PropsKey(ex'));
  }

  lemma CreateCatalogued(db: Db, ex: Exchange, policy: Policy, ex': Exchange)
    requires CataloguedRight(db, ex') && Create(db, ex, policy).1 == Ok
    ensures CataloguedRight(CreateEffect(db, ex, policy), ex')
  {
    hide CreateEffect, StoredType, StoredPolicy, Get;
    CreateAt(db, ex, policy, PropsKey(ex'));
    CreateAt(db, ex, policy, SystemKey(AllExchanges));
    CreateAt(db, ex, policy, NamespaceExchanges(ex'.ns));
  }

  lemma DeleteCatalogued(db: Db, ex: Exchange, ex': Exchange)
    requires CataloguedRight(db, ex') && Delete(db, ex).1 == Ok
    ensures CataloguedRight(Delete(db, ex).0, ex')
  {
    hide DeleteEffect, Get, HasBindings, RegisteredWords;
    var rks := RegisteredWords(Get(db, RegistryKey(ex)));
    DeleteAt(db, ex, rks, PropsKey(ex'));
    DeleteAt(db, ex, rks, SystemKey(AllExchanges));
    DeleteAt(db, ex, rks, NamespaceExchanges(ex'.ns));
  }

  lemma UnbindCatalogued(db: Db, q: Queue, ex: Exchange, rk: string, last: bool, stillBound: bool, ex': Exchange)
    requires CataloguedRight(db, ex')
    ensures CataloguedRight(UnbindEffect(db, q, ex, rk, last, stillBound), ex')
  {
    hide UnbindEffect, Get, StoredType;
    UnbindAt(db, q, ex, rk, last, stillBound, PropsKey(ex'));
    UnbindAt(db, q, ex, rk, last, stillBound, SystemKey(AllExchanges));
    UnbindAt(db, q, ex, rk, last, stillBound, NamespaceExchanges(ex'.ns));
    assert Get(db, PropsKey(ex')) - {} == Get(db, PropsKey(ex'));
  }

  lemma ApplyCatalogued(db: Db, op: Op, ex: Exchange)
    requires CataloguedRight(db, ex)
    ensures CataloguedRight(Apply(db, op).0, ex)
  {
    hide BindEffect, UnbindEffect, DeleteEffect, CreateEffect, ArgError, BindingError, TypeError;
    if Apply(db, op).1 == Ok {
      match op
      case BindOp(q, ex', rk) =>
        BoundSameType(db, q, ex', rk);
        BindCatalogued(db, q, ex', rk, ex);
      case UnbindOp(q, ex', rk) =>
        UnbindCatalogued(db, q, ex', rk, |Get(db, SlotKey(ex', rk))| == 1, StillBound(db, q, ex', rk), ex);
      case DeleteOp(ex') => DeleteCatalogued(db, ex', ex);
      case CreateOp(ex', policy) => CreateCatalogued(db, ex', policy, ex);
      case NewQueueOp(q, t) =>
    }
  }

  /** After any serial run, on any mix of direct and topic exchanges, both indexes and the
      catalogues are exact. */
  lemma {:induction false} SerialRunsExact(ops: seq<Op>)
    requires forall i :: 0 <= i < |ops| ==> OpRoutable(ops[i])
    ensures Inv(RunAll(map[], ops)) && CatalogueExact(RunAll(map[], ops))
  {
    hide Apply, CataloguedRight, RegistryExact, BackIndexExact, TypesExact;
    if ops != [] {
      var before, op := RunAll(map[], ops[..|ops| - 1]), ops[|ops| - 1];
      SerialRunsExact(ops[..|ops| - 1]);
      ApplyMeaning(before, op);
      forall ex ensures CataloguedRight(Apply(before, op).0, ex) {
        ApplyCatalogued(before, op, ex);
      }
    } else {
      NothingStored();
    }
  }

  lemma NothingStored()
    ensures Inv(map[]) && CatalogueExact(map[])
  {
  }

  // ---------------------------------------------------------------- the stores

  /** The direct or topic store at work on Redis, one call at a time. Callers hand it params
      carrying the store's own exchange type. */
  class ExchangeStore {
    const typ: ExchangeType
    var db: Db

    constructor (typ: ExchangeType, db: Db)
      requires typ != TypeFanout
      ensures this.typ == typ && this.db == db
    {
      this.typ := typ;
      this.db := db;
    }

    method BindQueue(q: Queue, ex: Exchange, rk: string) returns (r: Outcome)
      requires ex.typ == typ
      modifies this
      ensures (db, r) == Bind(old(db), q, ex, rk)
    {
      if q.ns != ex.ns {
        return Err(NamespaceMismatch);
      }
      if typ == TypeTopic {
        var ok := Topic.ValidateTopicPattern(rk);
        if !ok {
          return Err(InvalidPattern);
        }
      }
      var refused := BindingError(ex, Get(db, QueuePropsKey(q)), Get(db, PropsKey(ex)));
      if refused.Some? {
        return Err(refused.value);
      }
      if QueueRef(q) in Get(db, SlotKey(ex, rk)) {
        return Err(AlreadyBound);
      }
      db := db[PropsKey(ex) := SetType(Get(db, PropsKey(ex)), ex.typ)];
      db := SAdd(db, SystemKey(AllExchanges), ExchangeRef(ex));
      db := SAdd(db, NamespaceExchanges(ex.ns), ExchangeRef(ex));
      db := SAdd(db, RegistryKey(ex), Word(rk));
      db := SAdd(db, SlotKey(ex, rk), QueueRef(q));
      db := SAdd(db, BindingsKey(q), ExchangeRef(ex));
      r := Ok;
    }

    method UnbindQueue(q: Queue, ex: Exchange, rk: string) returns (r: Outcome)
      requires ex.typ == typ
      modifies this
      ensures (db, r) == Unbind(old(db), q, ex, rk)
    {
      if q.ns != ex.ns {
        return Err(NamespaceMismatch);
      }
      if typ == TypeTopic {
        var ok := Topic.ValidateTopicPattern(rk);
        if !ok {
          return Err(InvalidPattern);
        }
      }
      var refused := TypeError(ex, Get(db, PropsKey(ex)));
      if refused.Some? {
        return Err(refused.value);
      }
      if QueueRef(q) !in Get(db, SlotKey(ex, rk)) {
        return Err(NotBound);
      }
      var rest := RegisteredWords(Get(db, RegistryKey(ex)));
      var stillBound := false;
      while rest != {} && !stillBound
        invariant forall other :: other in rest ==> Registered(db, ex, other)
        invariant stillBound ==> StillBound(db, q, ex, rk)
        invariant !stillBound ==>
          forall other :: Registered(db, ex, other) && other !in rest && other != rk ==> !Bound(db, ex, other, q)
        invariant db == old(db)
        decreases rest
      {
        var other :| other in rest;
        rest := rest - {other};
        if other != rk && QueueRef(q) in Get(db, SlotKey(ex, other)) {
          stillBound := true;
        }
      }
      var count := |Get(db, SlotKey(ex, rk))|;
      db := SRem(db, SlotKey(ex, rk), QueueRef(q));
      if count == 1 {
        db := SRem(db, RegistryKey(ex), Word(rk));
      }
      if !stillBound {
        db := SRem(db, BindingsKey(q), ExchangeRef(ex));
      }
      r := Ok;
    }

    method DeleteExchange(ex: Exchange) returns (r: Outcome)
      requires ex.typ == typ
      modifies this
      ensures (db, r) == Delete(old(db), ex)
    {
      var refused := TypeError(ex, Get(db, PropsKey(ex)));
      if refused.Some? {
        return Err(refused.value);
      }
      var all := RegisteredWords(Get(db, RegistryKey(ex)));
      var rest := all;
      while rest != {}
        invariant rest <= all
        invariant forall rk :: rk in all && rk !in rest ==> Get(db, SlotKey(ex, rk)) == {}
        invariant db == old(db)
        decreases rest
      {
        var rk :| rk in rest;
        if Get(db, SlotKey(ex, rk)) != {} {
          assert Registered(db, ex, rk);
          return Err(HasBoundQueues);
        }
        rest := rest - {rk};
      }
      assert forall rk :: Registered(db, ex, rk) ==> rk in all;
      db := db - {ExchangeKey(ex.ns, ex.name), PropsKey(ex), RegistryKey(ex)};
      db := SRem(db, SystemKey(AllExchanges), ExchangeRef(ex));
      db := SRem(db, NamespaceExchanges(ex.ns), ExchangeRef(ex));
      db := db - (set rk | rk in all :: SlotKey(ex, rk));
      r := Ok;
    }
  }
}
