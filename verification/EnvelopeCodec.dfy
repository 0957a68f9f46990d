/** Storing an envelope and loading it back between scheduling calls. */
module EnvelopeCodec {
  import opened Text
  import opened MessageState
  import opened Schedule
  import opened StateCodec

  // ---------------------------------------------------------------- messages

  datatype ExchangeKind = Direct | Fanout | Topic | Unsupported

  datatype ExchangeParams = ExchangeParams(name: string, kind: ExchangeKind)

  /** `ProducibleMessage`, durations and times in milliseconds. */
  datatype Message = Message(
    createdAt: Int64,
    ttl: Int64,
    retryThreshold: Int64,
    retryDelay: Int64,
    consumeTimeout: Int64,
    body: string,
    priority: Option<Int64>,
    plan: Plan,
    exchange: Option<ExchangeParams>,
    routingKey: string,
    queue: Option<string>)

  /** What a new message starts from: the clock and the process-wide defaults. */
  datatype Fresh = Fresh(now: Int64, ttl: Int64, retryThreshold: Int64, retryDelay: Int64, consumeTimeout: Int64)

  function New(f: Fresh): Message {
    Message(f.now, f.ttl, f.retryThreshold, f.retryDelay, f.consumeTimeout,
            "", None, Plan("", None, None, 0), None, "", None)
  }

  datatype Envelope = Envelope(
    message: Message,
    state: State,
    status: Int64,
    destination: Option<string>,
    group: string)

  /** What is serialised of a message: everything but its routing key. */
  datatype Params = Params(
    createdAt: Int64,
    ttl: Int64,
    retryThreshold: Int64,
    retryDelay: Int64,
    consumeTimeout: Int64,
    body: string,
    priority: Option<Int64>,
    plan: Plan,
    exchange: Option<ExchangeParams>,
    queue: Option<string>,
    destination: Option<string>,
    group: string)

  function ToParams(e: Envelope): Params {
    var m := e.message;
    Params(m.createdAt, m.ttl, m.retryThreshold, m.retryDelay, m.consumeTimeout, m.body, m.priority, m.plan,
           m.exchange, m.queue, e.destination, e.group)
  }

  /** The JSON library, taken as a pair of functions. */
  datatype Json = Json(marshal: Params -> string, unmarshal: string -> Option<Params>)

  ghost predicate RoundTrips(json: Json) { forall p :: json.unmarshal(json.marshal(p)) == Some(p) }

  // ---------------------------------------------------------------- rebuilding the message

  predicate Space(c: char) { c == ' ' || '\t' <= c <= '\r' }

  function TrimLeft(s: string): string { if s != "" && Space(s[0]) then TrimLeft(s[1..]) else s }

  function TrimRight(s: string): string {
    if s != "" && Space(s[|s| - 1]) then TrimRight(s[..|s| - 1]) else s
  }

  function Trim(s: string): string { TrimRight(TrimLeft(s)) }

  function AtLeastZero(v: Int64): Int64 { if v < 0 then 0 else v }

  function OptionAtLeastZero(v: Option<Int64>): Option<Int64> { if v.Some? then Some(AtLeastZero(v.value)) else None }

  function SetPlan(plan: Plan): Plan {
    Plan(Trim(plan.cron),
         OptionAtLeastZero(plan.scheduledDelay),
         OptionAtLeastZero(plan.period),
         AtLeastZero(plan.repeat))
  }

  /** A message as the setters leave it: nothing negative, a trimmed cron expression, and at most one of
      a queue and an exchange, the latter of a known kind. */
  predicate WellSet(m: Message) {
    && m.ttl >= 0 && m.retryThreshold >= 0 && m.retryDelay >= 0 && m.consumeTimeout >= 0
    && ValidPlan(m.plan) && Trim(m.plan.cron) == m.plan.cron
    && (m.exchange.None? || m.queue.None?)
    && (m.exchange.Some? ==> m.exchange.value.kind != Unsupported)
  }

  predicate WellSetFresh(f: Fresh) { f.ttl >= 0 && f.retryThreshold >= 0 && f.retryDelay >= 0 && f.consumeTimeout >= 0 }

  /** The message a decoder builds from params: a new one, which keeps its own creation time and, unless
      the params carry a positive one, its own time to live; there is no routing key to restore. */
  function Rebuilt(p: Params, f: Fresh): Message {
    Message(
      createdAt := f.now,
      ttl := if p.ttl > 0 then p.ttl else f.ttl,
      retryThreshold := AtLeastZero(p.retryThreshold),
      retryDelay := AtLeastZero(p.retryDelay),
      consumeTimeout := AtLeastZero(p.consumeTimeout),
      body := p.body,
      priority := p.priority,
      plan := SetPlan(p.plan),
      exchange := if p.queue.None? && p.exchange.Some? && p.exchange.value.kind != Unsupported then p.exchange
                  else None,
      routingKey := "",
      queue := p.queue)
  }

  /** `rebuildMessage`, one setter after the other. */
  method RebuildMessage(p: Params, f: Fresh) returns (m: Message)
    ensures m == Rebuilt(p, f)
  {
    m := New(f);
    m := m.(body := p.body);
    if p.priority.Some? {
      m := m.(priority := p.priority);
    }
    if p.ttl > 0 {
      m := m.(ttl := p.ttl);
    }
    m := m.(retryThreshold := AtLeastZero(p.retryThreshold));
    m := m.(retryDelay := AtLeastZero(p.retryDelay));
    m := m.(consumeTimeout := AtLeastZero(p.consumeTimeout));
    if p.plan.cron != "" {
      m := m.(plan := m.plan.(cron := Trim(p.plan.cron)));
    }
    if p.plan.scheduledDelay.Some? {
      m := m.(plan := m.plan.(scheduledDelay := Some(AtLeastZero(p.plan.scheduledDelay.value))));
    }
    if p.plan.period.Some? {
      m := m.(plan := m.plan.(period := Some(AtLeastZero(p.plan.period.value))));
    }
    m := m.(plan := m.plan.(repeat := AtLeastZero(p.plan.repeat)));
    if p.exchange.Some? && p.exchange.value.kind != Unsupported {
      m := m.(exchange := p.exchange, queue := None, routingKey := "");
    }
    if p.queue.Some? {
      m := m.(queue := p.queue, exchange := None, routingKey := "");
    }
  }

  lemma {:induction false} TrimRightFirst(s: string)
    ensures TrimRight(s) != "" ==> s != "" && TrimRight(s)[0] == s[0]
    ensures TrimRight(TrimRight(s)) == TrimRight(s)
  {
    if s != "" && Space(s[|s| - 1]) {
      TrimRightFirst(s[..|s| - 1]);
    }
  }

  lemma {:induction false} TrimLeftFirst(s: string)
    ensures TrimLeft(s) != "" ==> !Space(TrimLeft(s)[0])
  {
    if s != "" && Space(s[0]) {
      TrimLeftFirst(s[1..]);
    }
  }

  /** Space, tab, line feed, vertical tab, form feed and carriage return. */
  lemma SpaceCharacters(c: char)
    ensures Space(c) <==> c in {' ', '\t', '\n', '\U{000B}', '\U{000C}', '\r'}
  {
  }

  predicate AllSpace(s: string) { forall i :: 0 <= i < |s| ==> Space(s[i]) }

  lemma {:induction false} TrimLeftMeaning(s: string) returns (cut: string)
    ensures AllSpace(cut) && s == cut + TrimLeft(s)
  {
    cut := "";
    if s != "" && Space(s[0]) {
      var rest := TrimLeftMeaning(s[1..]);
      cut := [s[0]] + rest;
    }
  }

  lemma {:induction false} TrimRightMeaning(s: string) returns (cut: string)
    ensures AllSpace(cut) && s == TrimRight(s) + cut
    ensures TrimRight(s) != "" ==> !Space(TrimRight(s)[|TrimRight(s)| - 1])
  {
    cut := "";
    if s != "" && Space(s[|s| - 1]) {
      var rest := TrimRightMeaning(s[..|s| - 1]);
      cut := rest + [s[|s| - 1]];
    }
  }

  /** Trimming takes white space off both ends and leaves none there. */
  lemma TrimMeaning(s: string)
    ensures exists a, b :: AllSpace(a) && AllSpace(b) && s == a + Trim(s) + b
    ensures var t := Trim(s); t != "" ==> !Space(t[0]) && !Space(t[|t| - 1])
  {
    var a := TrimLeftMeaning(s);
    var b := TrimRightMeaning(TrimLeft(s));
    TrimLeftFirst(s);
    TrimRightFirst(TrimLeft(s));
    assert s == a + Trim(s) + b;
  }

  lemma TrimSettles(s: string)
    ensures Trim(Trim(s)) == Trim(s)
  {
    var t := TrimLeft(s);
    TrimLeftFirst(s);
    TrimRightFirst(t);
    assert TrimLeft(TrimRight(t)) == TrimRight(t);
  }

  /** Whatever the params, a rebuilt message is one the setters could have left, and rebuilding it from
      its own params by the same clock and defaults changes it no more. */
  lemma RebuildSettles(p: Params, f: Fresh, state: State, status: Int64)
    requires WellSetFresh(f)
    ensures WellSet(Rebuilt(p, f))
    ensures Rebuilt(ToParams(Envelope(Rebuilt(p, f), state, status, p.destination, p.group)), f) == Rebuilt(p, f)
  {
    TrimSettles(p.plan.cron);
  }

  /** What becomes of params that no setter has seen: what is negative becomes zero, a time to live that is
      not positive the default, a queue displaces an exchange, and an exchange of no known kind is dropped. */
  lemma RebuiltForeign(p: Params, f: Fresh)
    ensures var m := Rebuilt(p, f);
      && m.createdAt == f.now && m.routingKey == "" && m.body == p.body && m.priority == p.priority
      && (p.ttl > 0 ==> m.ttl == p.ttl) && (p.ttl <= 0 ==> m.ttl == f.ttl)
      && (p.retryThreshold >= 0 ==> m.retryThreshold == p.retryThreshold)
      && (p.retryThreshold < 0 ==> m.retryThreshold == 0)
      && (p.retryDelay >= 0 ==> m.retryDelay == p.retryDelay) && (p.retryDelay < 0 ==> m.retryDelay == 0)
      && (p.consumeTimeout >= 0 ==> m.consumeTimeout == p.consumeTimeout)
      && (p.consumeTimeout < 0 ==> m.consumeTimeout == 0)
      && (p.plan.repeat >= 0 ==> m.plan.repeat == p.plan.repeat) && (p.plan.repeat < 0 ==> m.plan.repeat == 0)
      && (p.plan.period.None? <==> m.plan.period.None?)
      && (p.plan.period.Some? ==>
           m.plan.period.value == if p.plan.period.value >= 0 then p.plan.period.value else 0)
      && (p.plan.scheduledDelay.None? <==> m.plan.scheduledDelay.None?)
      && (p.plan.scheduledDelay.Some? ==>
           m.plan.scheduledDelay.value == if p.plan.scheduledDelay.value >= 0 then p.plan.scheduledDelay.value else 0)
      && m.queue == p.queue
      && (m.exchange.Some? <==> p.queue.None? && p.exchange.Some? && p.exchange.value.kind in {Direct, Fanout, Topic})
      && (m.exchange.Some? ==> m.exchange == p.exchange)
  {
  }

  // ---------------------------------------------------------------- encode and decode

  function EnvelopeRow(json: Json, e: Envelope): Row {
    StoredRow(e.state)[MESSAGE := Some(json.marshal(ToParams(e)))][STATUS := Some(Itoa(e.status))]
  }

  /** The hash the envelope starts from: params and status. */
  lemma HeadRow(hash: Hash, message: string, status: string)
    requires hash == map[Key(MESSAGE) := message, Key(STATUS) := status]
    ensures forall i: nat :: i < FIELD_COUNT ==>
      RowOf(hash)[i] == if i == MESSAGE then Some(message) else if i == STATUS then Some(status) else None
  {
    forall i: nat, f: nat | i < FIELD_COUNT && f < FIELD_COUNT && Key(i) == Key(f) ensures i == f {
      ItoaInjective(i, f);
    }
  }

  lemma RowWithout(hash: Hash)
    ensures RowOf(hash - {Key(MESSAGE), Key(STATUS)}) == RowOf(hash)[MESSAGE := None][STATUS := None]
  {
    forall i: nat | i < FIELD_COUNT && i != MESSAGE && i != STATUS
      ensures Key(i) != Key(MESSAGE) && Key(i) != Key(STATUS)
    {
      if Key(i) == Key(MESSAGE) {
        ItoaInjective(i, MESSAGE);
      }
      if Key(i) == Key(STATUS) {
        ItoaInjective(i, STATUS);
      }
    }
  }

  /** Params and status under keys of their own, and the state hash merged over them. */
  method EncodeEnvelope(json: Json, e: Envelope) returns (hash: Hash)
    ensures RowOf(hash) == EnvelopeRow(json, e)
  {
    hide Itoa, TimeText;
    var text := json.marshal(ToParams(e));
    var head := map[Key(MESSAGE) := text, Key(STATUS) := Itoa(e.status)];
    var stateHash := EncodeState(e.state);
    HeadRow(head, text, Itoa(e.status));
    hash := head + stateHash;
    forall i: nat | i < FIELD_COUNT ensures RowOf(hash)[i] == EnvelopeRow(json, e)[i] {
      assert RowOf(hash)[i] == if RowOf(stateHash)[i].Some? then RowOf(stateHash)[i] else RowOf(head)[i];
    }
  }

  /** `DecodeEnvelope`: the delay of the params, when there is one, overrides the stored delay. */
  function DecodeEnvelope(json: Json, hash: Hash, uuid: string, f: Fresh): Option<Envelope> {
    if hash == map[] then None
    else
      var params := json.unmarshal(TextOf(RowOf(hash)[MESSAGE], ""));
      var decoded := DecodeState(hash - {Key(MESSAGE), Key(STATUS)}, uuid);
      if params.None? || decoded.None? then None
      else
        var p := params.value;
        var delay := p.plan.scheduledDelay;
        var state := if delay.Some? then decoded.value.(delay := delay.value) else decoded.value;
        Some(Envelope(Rebuilt(p, f), state, IntOf(RowOf(hash)[STATUS]), p.destination, p.group))
  }

  /** Decoding fails exactly on a hash without any field of the state, or with params that cannot be read. */
  lemma DecodeFailsIff(json: Json, hash: Hash, uuid: string, f: Fresh)
    ensures DecodeEnvelope(json, hash, uuid, f).None? <==>
      || hash.Keys <= {Itoa(MESSAGE), Itoa(STATUS)}
      || json.unmarshal(if Itoa(MESSAGE) in hash then hash[Itoa(MESSAGE)] else "").None?
  {
    hide DecodeRow, Itoa;
    var rest := hash - {Key(MESSAGE), Key(STATUS)};
    assert rest == map[] <==> hash.Keys <= {Key(MESSAGE), Key(STATUS)} by {
      forall k ensures k in rest <==> k in hash.Keys && k !in {Key(MESSAGE), Key(STATUS)} {
      }
      if rest != map[] {
        var k :| k in rest;
        assert k in hash.Keys && k !in {Key(MESSAGE), Key(STATUS)};
      } else {
        forall k | k in hash.Keys ensures k in {Key(MESSAGE), Key(STATUS)} {
          assert k !in rest;
        }
      }
    }
  }

  /** The envelope after a reload at time `f.now`: the creation time is the time of the reload, a time to
      live of zero has become the default, the routing key is gone, the delay is armed again, and
      timestamps that are not positive are gone; everything else is as before. */
  function Reloaded(e: Envelope, f: Fresh): Envelope {
    var ttl := if e.message.ttl > 0 then e.message.ttl else f.ttl;
    e.(message := e.message.(createdAt := f.now, ttl := ttl, routingKey := ""),
       state := ReloadedState(e.message.plan, e.state))
  }

  function ReloadedState(plan: Plan, state: State): State {
    var s := Storable(state);
    if plan.scheduledDelay.Some? then s.(delay := plan.scheduledDelay.value) else s
  }

  /** Storing and loading an envelope gives exactly that. */
  lemma EnvelopeRoundTrip(json: Json, hash: Hash, e: Envelope, uuid: string, f: Fresh)
    requires RoundTrips(json) && WellSet(e.message)
    requires RowOf(hash) == EnvelopeRow(json, e)
    ensures DecodeEnvelope(json, hash, uuid, f) == Some(Reloaded(e, f))
  {
    hide Itoa, TimeText, ParseInt, DecodeRow, Trim;
    var rest := hash - {Key(MESSAGE), Key(STATUS)};
    ParseItoa(e.status);
    RowWithout(hash);
    assert RowOf(rest) == StoredRow(e.state);
    assert RowOf(rest)[ID].Some? && RowOf(hash)[ID].Some?;
    StoredRoundTrip(e.state, uuid);
  }

  /** A reload changes nothing at all if and only if it happens in the millisecond the message was
      created, the time to live is positive or is the default anyway, there is no routing key, no part of
      the scheduled delay has been used up, and every timestamp present is positive. */
  lemma ReloadIdentityIff(e: Envelope, f: Fresh)
    ensures Reloaded(e, f) == e <==>
      && e.message.createdAt == f.now
      && (e.message.ttl > 0 || e.message.ttl == f.ttl)
      && e.message.routingKey == ""
      && (e.message.plan.scheduledDelay.None? || e.message.plan.scheduledDelay.value == e.state.delay)
      && AllPositive(e.state.times)
  {
    PositiveTimesIff(e.state.times);
  }

  // ---------------------------------------------------------------- does a reload change the expiry?

  predicate Expired(m: Message, now: int) { m.ttl > 0 && now - m.createdAt >= m.ttl }

  /** A reload leaves the moment of expiry alone if and only if the message never expires before or after
      it, or expires and was created at the very time of the reload. */
  lemma ReloadExpiryIff(e: Envelope, f: Fresh)
    requires WellSet(e.message) && WellSetFresh(f)
    ensures (forall now :: Expired(Reloaded(e, f).message, now) <==> Expired(e.message, now)) <==>
      if e.message.ttl > 0 then e.message.createdAt == f.now else f.ttl == 0
  {
    var m, m' := e.message, Reloaded(e, f).message;
    if m.ttl > 0 && m.createdAt != f.now {
      var earlier := if m.createdAt < f.now then m.createdAt else f.now;
      assert Expired(m, earlier + m.ttl) != Expired(m', earlier + m.ttl);
    } else if m.ttl == 0 && f.ttl > 0 {
      assert Expired(m', f.now + f.ttl) && !Expired(m, f.now + f.ttl);
    }
  }

  /** One message that a reload does change: made to live for ever, created at 1 and reloaded at 2 in a
      process whose default is five milliseconds, it is expired at 7. */
  lemma ReloadChangesOne()
    ensures var f := Fresh(2, 5, 3, 0, 0);
      var e := Envelope(New(f).(createdAt := 1, ttl := 0), NewState("id"), 0, None, "");
      WellSet(e.message) && Reloaded(e, f) != e && !Expired(e.message, 7) && Expired(Reloaded(e, f).message, 7)
  {
  }

  // ---------------------------------------------------------------- does a reload change the schedule?

  /** The part of the state the schedule looks at and changes. */
  function Clockwork(s: State): (Int64, bool, Int64) { (s.delay, s.cronFired, s.repeatCount) }

  lemma NextSameClockwork(plan: Plan, a: State, b: State, r: Reading)
    requires Clockwork(a) == Clockwork(b)
    ensures Next(plan, a, r).at == Next(plan, b, r).at && Next(plan, a, r).kind == Next(plan, b, r).kind
    ensures Clockwork(Next(plan, a, r).state) == Clockwork(Next(plan, b, r).state)
  {
  }

  /** The next call gives the same timestamp and leaves the same clockwork either way. */
  predicate Unchanged(plan: Plan, state: State, r: Reading) {
    var kept, reloaded := Next(plan, state, r), Next(plan, ReloadedState(plan, state), r);
    kept.at == reloaded.at && Clockwork(kept.state) == Clockwork(reloaded.state)
  }

  /** Storing and loading leaves the schedule alone exactly when the message has no scheduled
      delay, or still has all of it pending. */
  lemma ReloadNeutralIff(plan: Plan, state: State)
    requires ValidPlan(plan)
    ensures (forall r: Reading :: r.now > 0 ==> Unchanged(plan, state, r)) <==>
      (plan.scheduledDelay.None? || plan.scheduledDelay.value == state.delay)
  {
    var d := plan.scheduledDelay;
    if d.None? || d.value == state.delay {
      forall r: Reading ensures Unchanged(plan, state, r) {
        NextSameClockwork(plan, state, ReloadedState(plan, state), r);
      }
    } else {
      var longer := if d.value > state.delay then d.value else state.delay;
      assert !Unchanged(plan, state, Reading(1, 2 + longer));
    }
  }

  /** The state before call `i` when the envelope is stored and loaded before every call that
      `reload` marks. */
  function BeforeWithReloads(plan: Plan, st: State, rs: seq<Reading>, reload: seq<bool>, i: nat): State
    requires |reload| == |rs| && i < |rs|
  {
    var s := if i == 0 then st else Next(plan, BeforeWithReloads(plan, st, rs, reload, i - 1), rs[i - 1]).state;
    if reload[i] then ReloadedState(plan, s) else s
  }

  /** For a message without a scheduled delay, persistence at any points of a run is invisible:
      every call gives the same timestamp and leaves the same clockwork. */
  lemma {:induction false} ReloadsInvisible(plan: Plan, st: State, rs: seq<Reading>, reload: seq<bool>, i: nat)
    requires plan.scheduledDelay.None? && |reload| == |rs| && i < |rs|
    ensures Clockwork(BeforeWithReloads(plan, st, rs, reload, i)) == Clockwork(Before(plan, st, rs, i))
    ensures Next(plan, BeforeWithReloads(plan, st, rs, reload, i), rs[i]).at == Call(plan, st, rs, i).at
  {
    if i > 0 {
      ReloadsInvisible(plan, st, rs, reload, i - 1);
      NextSameClockwork(plan, BeforeWithReloads(plan, st, rs, reload, i - 1), Before(plan, st, rs, i - 1), rs[i - 1]);
    }
    NextSameClockwork(plan, BeforeWithReloads(plan, st, rs, reload, i), Before(plan, st, rs, i), rs[i]);
  }

  /** A message with a scheduled delay that is loaded before every call, as the scheduled
      publisher does, is scheduled at its delay again on every call: it never reaches its cron or
      repeat schedule. */
  lemma DelayRearmsForever(plan: Plan, st: State, rs: seq<Reading>, reload: seq<bool>, i: nat)
    requires plan.scheduledDelay.Some? && plan.scheduledDelay.value > 0
    requires |reload| == |rs| && i < |rs| && reload[i]
    ensures Next(plan, BeforeWithReloads(plan, st, rs, reload, i), rs[i]).kind == DelayDue
    ensures Next(plan, BeforeWithReloads(plan, st, rs, reload, i), rs[i]).at == rs[i].now + plan.scheduledDelay.value
  {
  }
}
