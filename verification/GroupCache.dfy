/** The consumer groups of pub/sub queues as a producer caches them: loaded once, then kept up to date by
    events. */
module GroupCache {
  import opened Text
  import opened Keys
  import opened ExchangeIndex

  predicate NoDup<T(==)>(s: seq<T>) { forall i, j :: 0 <= i < j < |s| ==> s[i] != s[j] }

  predicate ValidQueue(q: Queue) { ValidName(q.ns) && ValidName(q.name) }

  // ---------------------------------------------------------------- queue identity as text

  /** The deduplication key of `MatchQueues`. */
  function SeenKey(q: Queue): string { q.ns + ":" + q.name }

  /** The cache key of the resolver. */
  function QueueText(q: Queue): string { q.name + "@" + q.ns }

  lemma PairInjective(a: string, b: string, a': string, b': string, sep: char)
    requires sep !in a && sep !in a' && sep !in b && sep !in b'
    requires a + [sep] + b == a' + [sep] + b'
    ensures a == a' && b == b'
  {
    SplitConcat(a, b, sep);
    SplitConcat(a', b', sep);
    SplitWhole(a, sep);
    SplitWhole(b, sep);
    SplitWhole(a', sep);
    SplitWhole(b', sep);
    assert Split(a + [sep] + b, sep) == [a, b];
    assert Split(a' + [sep] + b', sep) == [a', b'];
  }

  /** Validated names make both texts unambiguous. */
  lemma QueueTextsInjective(p: Queue, q: Queue)
    requires ValidQueue(p) && ValidQueue(q)
    ensures SeenKey(p) == SeenKey(q) ==> p == q
    ensures QueueText(p) == QueueText(q) ==> p == q
  {
    ValidNameStable(p.ns);
    ValidNameStable(p.name);
    ValidNameStable(q.ns);
    ValidNameStable(q.name);
    if SeenKey(p) == SeenKey(q) {
      PairInjective(p.ns, p.name, q.ns, q.name, ':');
    }
    if QueueText(p) == QueueText(q) {
      PairInjective(p.name, p.ns, q.name, q.ns, '@');
    }
  }

  // ---------------------------------------------------------------- the group cache

  /** Queue text to consumer groups. */
  type Targets = map<string, seq<string>>

  datatype CacheEvent =
    | Loaded(key: string, groups: seq<string>)
    | QueueCreated(key: string, pubSub: bool)
    | QueueDeleted(key: string)
    | GroupCreated(key: string, group: string)
    | GroupDeleted(key: string, group: string)
    | Cleared

  function GroupsOf(t: Targets, key: string): seq<string> { if key in t then t[key] else [] }

  function Without(groups: seq<string>, group: string): seq<string> {
    if groups == [] then []
    else if groups[0] == group then groups[1..]
    else [groups[0]] + Without(groups[1..], group)
  }

  function AddGroup(t: Targets, key: string, group: string): Targets {
    if group in GroupsOf(t, key) then t else t[key := GroupsOf(t, key) + [group]]
  }

  function RemoveGroup(t: Targets, key: string, group: string): Targets {
    if group in GroupsOf(t, key) then t[key := Without(GroupsOf(t, key), group)] else t
  }

  function ApplyEvent(t: Targets, e: CacheEvent): Targets {
    match e
    case Loaded(key, groups) => t[key := groups]
    case QueueCreated(key, pubSub) => if pubSub && key !in t then t[key := []] else t
    case QueueDeleted(key) => t - {key}
    case GroupCreated(key, group) => AddGroup(t, key, group)
    case GroupDeleted(key, group) => RemoveGroup(t, key, group)
    case Cleared => map[]
  }

  function ApplyAll(t: Targets, events: seq<CacheEvent>): Targets {
    if events == [] then t else ApplyEvent(ApplyAll(t, events[..|events| - 1]), events[|events| - 1])
  }

  lemma ApplySnoc(t: Targets, events: seq<CacheEvent>, e: CacheEvent)
    ensures ApplyAll(t, events + [e]) == ApplyEvent(ApplyAll(t, events), e)
  {
    assert (events + [e])[..|events|] == events;
  }

  lemma LoadNothing(t: Targets, members: seq<Scanned>)
    ensures ApplyAll(t, LoadEvents(members[..0])) == t
  {
  }

  lemma LoadOneMore(t: Targets, members: seq<Scanned>, i: nat)
    requires i < |members|
    ensures var before, m := ApplyAll(t, LoadEvents(members[..i])), members[i];
      ApplyAll(t, LoadEvents(members[..i + 1]))
      == if Loads(m) then before[QueueText(m.queue.value) := m.groups.value] else before
  {
    hide Loads, ApplyAll;
    var m, events := members[i], LoadEvents(members[..i]);
    assert members[..i + 1][..i] == members[..i];
    if Loads(m) {
      LoadedNames(m);
      ApplySnoc(t, events, Loaded(QueueText(m.queue.value), m.groups.value));
    } else {
      assert events + [] == events;
    }
  }

  lemma LoadedNames(m: Scanned)
    requires Loads(m)
    ensures m.queue.Some? && m.groups.Some?
  {
  }

  function Replay(events: seq<CacheEvent>): Targets { ApplyAll(map[], events) }

  /** What the load finds for one member of the set of all queues: the queue it names if it can be read,
      the delivery model in the queue's properties if those can be read and hold one, and the groups if
      they can be read. Whatever cannot be read makes the load go on to the next member. */
  datatype Scanned = Scanned(queue: Option<Queue>, model: Option<string>, groups: Option<seq<string>>)

  const PUB_SUB: Int64 := 1

  predicate Loads(m: Scanned) {
    && m.queue.Some? && m.queue.value.name != "" && m.queue.value.ns != ""
    && m.model.Some? && ParseInt(m.model.value).value == PUB_SUB
    && m.groups.Some?
  }

  /** The events of one load, in the order of the scan. */
  function LoadEvents(members: seq<Scanned>): seq<CacheEvent> {
    if members == [] then []
    else
      var m := members[|members| - 1];
      LoadEvents(members[..|members| - 1]) + if Loads(m) then [Loaded(QueueText(m.queue.value), m.groups.value)] else []
  }

  /** The member of the scan names this queue, and its properties and groups could be read and make it a
      pub/sub queue. */
  predicate Caches(m: Scanned, key: string) {
    && m.queue.Some? && m.queue.value.name != "" && m.queue.value.ns != "" && QueueText(m.queue.value) == key
    && m.model.Some? && ParseInt(m.model.value).value == 1
    && m.groups.Some?
  }

  predicate LastCached(members: seq<Scanned>, key: string, i: int) {
    && 0 <= i < |members| && Caches(members[i], key)
    && forall j :: i < j < |members| ==> !Caches(members[j], key)
  }

  /** One member further in the scan. */
  lemma LoadStep(members: seq<Scanned>, key: string)
    requires members != []
    ensures var n := |members| - 1;
      var before, after := Replay(LoadEvents(members[..n])), Replay(LoadEvents(members));
      && (key in after <==> key in before || Caches(members[n], key))
      && GroupsOf(after, key) == if Caches(members[n], key) then members[n].groups.value else GroupsOf(before, key)
  {
    hide ParseInt, ApplyAll, LoadEvents, QueueText;
    var n := |members| - 1;
    LoadOneMore(map[], members, n);
    assert members[..n + 1] == members;
  }

  /** After a load into an empty cache a queue is cached exactly when some member of the scan is a readable
      pub/sub queue of that name. */
  lemma {:induction false} LoadCachesIff(members: seq<Scanned>, key: string)
    ensures key in Replay(LoadEvents(members)) <==> exists i :: 0 <= i < |members| && Caches(members[i], key)
  {
    if members != [] {
      hide Caches, ApplyAll;
      var n := |members| - 1;
      LoadCachesIff(members[..n], key);
      LoadStep(members, key);
      assert forall i :: 0 <= i < n ==> members[..n][i] == members[i];
      if exists i :: 0 <= i < |members| && Caches(members[i], key) {
        var i :| 0 <= i < |members| && Caches(members[i], key);
        assert i < n ==> Caches(members[..n][i], key);
      }
    }
  }

  /** Its groups are the ones read for the last such member. */
  lemma {:induction false} LoadedGroups(members: seq<Scanned>, key: string, i: int)
    requires LastCached(members, key, i)
    ensures members[i].groups.Some? && GroupsOf(Replay(LoadEvents(members)), key) == members[i].groups.value
  {
    hide ApplyAll, ParseInt;
    var n := |members| - 1;
    LoadStep(members, key);
    if i < n {
      assert LastCached(members[..n], key, i);
      LoadedGroups(members[..n], key, i);
    }
  }

  /** Of the delivery models as they are stored, only number one is cached. */
  lemma OnlyPubSubCached(m: Scanned, n: Int64)
    requires m.queue.Some? && m.model == Some(Itoa(n)) && n != 1
    ensures !Caches(m, QueueText(m.queue.value))
  {
    ParseItoa(n);
  }

  /** The reference: the set of groups of each queue, by the last event that speaks of it. */
  ghost predicate HasGroup(events: seq<CacheEvent>, key: string, group: string) {
    if events == [] then false
    else
      var earlier := HasGroup(events[..|events| - 1], key, group);
      match events[|events| - 1]
      case Loaded(k, groups) => if k == key then group in groups else earlier
      case QueueCreated(_, _) => earlier
      case QueueDeleted(k) => k != key && earlier
      case GroupCreated(k, g) => (k, g) == (key, group) || earlier
      case GroupDeleted(k, g) => (k, g) != (key, group) && earlier
      case Cleared => false
  }

  /** Loads deliver the members of a Redis set, so without repeats. */
  predicate CleanLoads(events: seq<CacheEvent>) {
    forall i :: 0 <= i < |events| && events[i].Loaded? ==> NoDup(events[i].groups)
  }

  lemma {:induction false} WithoutMeaning(groups: seq<string>, group: string)
    requires NoDup(groups)
    ensures NoDup(Without(groups, group))
    ensures forall g :: g in Without(groups, group) <==> g in groups && g != group
  {
    if groups != [] {
      assert groups == [groups[0]] + groups[1..];
      assert groups[0] !in groups[1..];
      if groups[0] != group {
        WithoutMeaning(groups[1..], group);
        var rest := Without(groups[1..], group);
        assert groups[0] !in rest;
        assert NoDup([groups[0]] + rest);
      }
    }
  }

  /** After any load and any events the cached lists are free of repeats and hold exactly the
      groups the event history says exist. */
  lemma {:induction false} CacheExact(events: seq<CacheEvent>, key: string)
    requires CleanLoads(events)
    ensures NoDup(GroupsOf(Replay(events), key))
    ensures forall group :: group in GroupsOf(Replay(events), key) <==> HasGroup(events, key, group)
  {
    if events != [] {
      var n := |events| - 1;
      CacheExact(events[..n], key);
      var groups := GroupsOf(Replay(events[..n]), key);
      if events[n].GroupDeleted? {
        WithoutMeaning(groups, events[n].group);
      }
    }
  }

  class Resolver {
    var targets: Targets

    constructor ()
      ensures targets == map[]
    {
      targets := map[];
    }

    method Load(members: seq<Scanned>)
      modifies this
      ensures targets == ApplyAll(old(targets), LoadEvents(members))
    {
      hide LoadEvents, ApplyAll, ParseInt;
      LoadNothing(old(targets), members);
      for i := 0 to |members|
        invariant targets == ApplyAll(old(targets), LoadEvents(members[..i]))
      {
        var m := members[i];
        LoadOneMore(old(targets), members, i);
        if m.queue.None? || m.queue.value.name == "" || m.queue.value.ns == "" {
          continue;
        }
        if m.model.None? {
          continue;
        }
        if ParseInt(m.model.value).value != PUB_SUB {
          continue;
        }
        if m.groups.None? {
          continue;
        }
        targets := targets[QueueText(m.queue.value) := m.groups.value];
      }
      assert members[..|members|] == members;
    }

    method Clear()
      modifies this
      ensures targets == ApplyEvent(old(targets), Cleared)
    {
      targets := map[];
    }

    method OnQueueCreated(key: string, pubSub: bool)
      modifies this
      ensures targets == ApplyEvent(old(targets), QueueCreated(key, pubSub))
    {
      if pubSub {
        if key !in targets {
          targets := targets[key := []];
        }
      }
    }

    method OnQueueDeleted(key: string)
      modifies this
      ensures targets == ApplyEvent(old(targets), QueueDeleted(key))
    {
      targets := targets - {key};
    }

    method Add(key: string, group: string)
      modifies this
      ensures targets == ApplyEvent(old(targets), GroupCreated(key, group))
    {
      var groups := if key in targets then targets[key] else [];
      for i := 0 to |groups|
        invariant group !in groups[..i] && targets == old(targets)
      {
        if groups[i] == group {
          return;
        }
      }
      assert groups[..|groups|] == groups;
      targets := targets[key := groups + [group]];
    }

    method Remove(key: string, group: string)
      modifies this
      ensures targets == ApplyEvent(old(targets), GroupDeleted(key, group))
    {
      var groups := if key in targets then targets[key] else [];
      for i := 0 to |groups|
        invariant group !in groups[..i] && targets == old(targets)
      {
        if groups[i] == group {
          WithoutAt(groups, group, i);
          targets := targets[key := groups[..i] + groups[i + 1..]];
          return;
        }
      }
      assert groups[..|groups|] == groups;
    }
  }

  lemma {:induction false} WithoutAt(groups: seq<string>, group: string, i: nat)
    requires i < |groups| && groups[i] == group && group !in groups[..i]
    ensures Without(groups, group) == groups[..i] + groups[i + 1..]
  {
    if i > 0 {
      assert groups[0] == groups[..i][0];
      assert groups[1..][..i - 1] == groups[1..i];
      assert forall g :: g in groups[1..i] ==> g in groups[..i];
      WithoutAt(groups[1..], group, i - 1);
      assert [groups[0]] + groups[1..i] == groups[..i];
      assert groups[1..][i - 1 + 1..] == groups[i + 1..];
    }
  }
}
