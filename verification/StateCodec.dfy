/** The two encoders of message state (the stored hash and the publish arguments) and the one
    decoder that has to read them both. */
module StateCodec {
  import opened Text
  import opened MessageState

  // ---------------------------------------------------------------- hash fields

  const ID: nat := 0
  const STATUS: nat := 1
  const MESSAGE: nat := 2
  const SCHEDULED_AT: nat := 3
  const PUBLISHED_AT: nat := 4
  const PROCESSING_STARTED_AT: nat := 5
  const DEAD_LETTERED_AT: nat := 6
  const ACKNOWLEDGED_AT: nat := 7
  const UNACKNOWLEDGED_AT: nat := 8
  const LAST_UNACKNOWLEDGED_AT: nat := 9
  const LAST_SCHEDULED_AT: nat := 10
  const LAST_PROCESSED_AT: nat := 11
  const REQUEUED_AT: nat := 12
  const REQUEUE_COUNT: nat := 13
  const LAST_REQUEUED_AT: nat := 14
  const LAST_RETRIED_ATTEMPT_AT: nat := 15
  const SCHEDULED_CRON_FIRED: nat := 16
  const ATTEMPTS: nat := 17
  const SCHEDULED_REPEAT_COUNT: nat := 18
  const EXPIRED: nat := 19
  const EFFECTIVE_SCHEDULED_DELAY: nat := 20
  const SCHEDULED_TIMES: nat := 21
  const SCHEDULED_MESSAGE_PARENT_ID: nat := 22
  const REQUEUED_MESSAGE_PARENT_ID: nat := 23
  const FIELD_COUNT: nat := 24

  /** The hash key of a field is its number in decimal. */
  function Key(f: Int64): string { Itoa(f) }

  type Hash = map<string, string>

  /** A hash seen field by field: what each field number maps to, if anything. */
  type Row = r: seq<Option<string>> | |r| == FIELD_COUNT witness seq(FIELD_COUNT, _ => None)

  function RowOf(hash: Hash): Row {
    seq(FIELD_COUNT, i requires 0 <= i < FIELD_COUNT => if Key(i) in hash then Some(hash[Key(i)]) else None)
  }

  // ---------------------------------------------------------------- the stored hash

  function BoolText(b: bool): string { if b then "1" else "0" }

  /** A timestamp is stored only when present and positive. */
  function TimeText(ts: Option<Int64>): Option<string> {
    if ts.Some? && ts.value > 0 then Some(Itoa(ts.value)) else None
  }

  function ParentText(id: string): Option<string> { if id != "" then Some(id) else None }

  /** What `EncodeState` stores for a state, in field order. */
  function StoredRow(s: State): Row { TextRow(FieldValues(s)) }

  /** One field before it is printed. */
  datatype Value =
    | Absent
    | Text(text: string)
    | Time(ts: Option<Int64>)
    | Number(n: Int64)
    | Flag(b: bool)
    | Parent(id: string)

  function ValueText(v: Value): Option<string> {
    match v
    case Absent => None
    case Text(t) => Some(t)
    case Time(ts) => TimeText(ts)
    case Number(n) => Some(Itoa(n))
    case Flag(b) => Some(BoolText(b))
    case Parent(id) => ParentText(id)
  }

  function TextRow(values: seq<Value>): Row
    requires |values| == FIELD_COUNT
  {
    seq(FIELD_COUNT, i requires 0 <= i < FIELD_COUNT => ValueText(values[i]))
  }

  function FieldValues(s: State): (r: seq<Value>)
    ensures |r| == FIELD_COUNT
  {
    [Text(s.id),
     Absent,
     Absent,
     Time(s.times.scheduledAt),
     Time(s.times.publishedAt),
     Time(s.times.processingStartedAt),
     Time(s.times.deadLetteredAt),
     Time(s.times.acknowledgedAt),
     Time(s.times.unacknowledgedAt),
     Time(s.times.lastUnacknowledgedAt),
     Time(s.times.lastScheduledAt),
     Time(s.times.lastProcessedAt),
     Time(s.times.requeuedAt),
     Number(s.requeueCount),
     Time(s.times.lastRequeuedAt),
     Time(s.times.lastRetriedAttemptAt),
     Flag(s.cronFired),
     Number(s.attempts),
     Number(s.repeatCount),
     Flag(s.expired),
     Number(s.delay),
     Number(s.scheduledTimes),
     Parent(s.scheduledParent),
     Parent(s.requeuedParent)]
  }

  /** Writing a row into an empty hash, each value under its own key. */
  method WriteRow(row: Row) returns (hash: Hash)
    ensures RowOf(hash) == row
  {
    hash := map[];
    for n := 0 to FIELD_COUNT
      invariant forall i: nat :: i < FIELD_COUNT ==>
        (Key(i) in hash <==> i < n && row[i].Some?) && (Key(i) in hash ==> row[i] == Some(hash[Key(i)]))
    {
      if row[n].Some? {
        ghost var before := hash;
        hash := hash[Key(n) := row[n].value];
        forall i: nat | i < FIELD_COUNT
          ensures Key(i) in hash <==> Key(i) in before || i == n
          ensures i != n && Key(i) in hash ==> hash[Key(i)] == before[Key(i)]
        {
          if Key(i) == Key(n) {
            ItoaInjective(i, n);
          }
        }
      }
    }
  }

  method EncodeState(s: State) returns (hash: Hash)
    ensures RowOf(hash) == StoredRow(s)
    ensures hash != map[]
  {
    hash := WriteRow(StoredRow(s));
    assert RowOf(hash)[ID] == Some(s.id);
  }

  // ---------------------------------------------------------------- decoding

  function TextOf(v: Option<string>, otherwise: string): string { if v.Some? then v.value else otherwise }

  function IntOf(v: Option<string>): Int64 { if v.Some? then ParseInt(v.value).value else 0 }

  function BoolOf(v: Option<string>): bool { v == Some("1") }

  function TimeOf(v: Option<string>): Option<Int64> {
    if v.Some? && ParseInt(v.value).ok && ParseInt(v.value).value > 0 then Some(ParseInt(v.value).value) else None
  }

  function DecodeTimes(row: Row): Times<Int64> {
    Times(
      scheduledAt := TimeOf(row[SCHEDULED_AT]),
      publishedAt := TimeOf(row[PUBLISHED_AT]),
      requeuedAt := TimeOf(row[REQUEUED_AT]),
      processingStartedAt := TimeOf(row[PROCESSING_STARTED_AT]),
      acknowledgedAt := TimeOf(row[ACKNOWLEDGED_AT]),
      unacknowledgedAt := TimeOf(row[UNACKNOWLEDGED_AT]),
      deadLetteredAt := TimeOf(row[DEAD_LETTERED_AT]),
      lastRequeuedAt := TimeOf(row[LAST_REQUEUED_AT]),
      lastUnacknowledgedAt := TimeOf(row[LAST_UNACKNOWLEDGED_AT]),
      lastScheduledAt := TimeOf(row[LAST_SCHEDULED_AT]),
      lastRetriedAttemptAt := TimeOf(row[LAST_RETRIED_ATTEMPT_AT]),
      lastProcessedAt := TimeOf(row[LAST_PROCESSED_AT]))
  }

  function DecodeRow(row: Row, uuid: string): State {
    State(
      id := TextOf(row[ID], uuid),
      times := DecodeTimes(row),
      cronFired := BoolOf(row[SCHEDULED_CRON_FIRED]),
      attempts := IntOf(row[ATTEMPTS]),
      repeatCount := IntOf(row[SCHEDULED_REPEAT_COUNT]),
      requeueCount := IntOf(row[REQUEUE_COUNT]),
      expired := BoolOf(row[EXPIRED]),
      delay := IntOf(row[EFFECTIVE_SCHEDULED_DELAY]),
      scheduledTimes := IntOf(row[SCHEDULED_TIMES]),
      scheduledParent := TextOf(row[SCHEDULED_MESSAGE_PARENT_ID], ""),
      requeuedParent := TextOf(row[REQUEUED_MESSAGE_PARENT_ID], ""))
  }

  /** `DecodeState`: an empty hash is an error, any other is read over a fresh state with id `uuid`. */
  function DecodeState(hash: Hash, uuid: string): Option<State> {
    if hash == map[] then None else Some(DecodeRow(RowOf(hash), uuid))
  }

  /** A hash none of whose fields is one of the state's gives a fresh state. */
  lemma DecodeNothing(hash: Hash, uuid: string)
    requires hash != map[] && forall i: nat :: i < FIELD_COUNT ==> Key(i) !in hash
    ensures DecodeState(hash, uuid) == Some(NewState(uuid))
  {
    hide ParseInt, Itoa;
    assert forall i :: 0 <= i < FIELD_COUNT ==> RowOf(hash)[i] == None;
  }

  /** The texts: flags as one and zero, numbers in decimal, and nothing for a timestamp that is absent or not
      positive, a parent that is empty, the status and the params. */
  lemma StoredTexts(s: State)
    ensures var row := StoredRow(s);
      && row[ID] == Some(s.id) && row[STATUS] == None && row[MESSAGE] == None
      && row[EXPIRED] == Some(if s.expired then "1" else "0")
      && row[SCHEDULED_CRON_FIRED] == Some(if s.cronFired then "1" else "0")
      && row[ATTEMPTS] == Some(Itoa(s.attempts)) && row[REQUEUE_COUNT] == Some(Itoa(s.requeueCount))
      && (row[PUBLISHED_AT].Some? <==> s.times.publishedAt.Some? && s.times.publishedAt.value > 0)
      && (row[SCHEDULED_MESSAGE_PARENT_ID].Some? <==> s.scheduledParent != "")
      && (row[REQUEUED_MESSAGE_PARENT_ID].Some? <==> s.requeuedParent != "")
  {
    hide Itoa;
  }

  function Positive(ts: Option<Int64>): Option<Int64> { if ts.Some? && ts.value > 0 then ts else None }

  function PositiveTimes(t: Times<Int64>): Times<Int64> {
    Times(
      scheduledAt := Positive(t.scheduledAt),
      publishedAt := Positive(t.publishedAt),
      requeuedAt := Positive(t.requeuedAt),
      processingStartedAt := Positive(t.processingStartedAt),
      acknowledgedAt := Positive(t.acknowledgedAt),
      unacknowledgedAt := Positive(t.unacknowledgedAt),
      deadLetteredAt := Positive(t.deadLetteredAt),
      lastRequeuedAt := Positive(t.lastRequeuedAt),
      lastUnacknowledgedAt := Positive(t.lastUnacknowledgedAt),
      lastScheduledAt := Positive(t.lastScheduledAt),
      lastRetriedAttemptAt := Positive(t.lastRetriedAttemptAt),
      lastProcessedAt := Positive(t.lastProcessedAt))
  }

  /** Every time present has the property. */
  predicate AllTimes<T>(t: Times<T>, good: T -> bool) {
    && (t.scheduledAt.Some? ==> good(t.scheduledAt.value))
    && (t.publishedAt.Some? ==> good(t.publishedAt.value))
    && (t.requeuedAt.Some? ==> good(t.requeuedAt.value))
    && (t.processingStartedAt.Some? ==> good(t.processingStartedAt.value))
    && (t.acknowledgedAt.Some? ==> good(t.acknowledgedAt.value))
    && (t.unacknowledgedAt.Some? ==> good(t.unacknowledgedAt.value))
    && (t.deadLetteredAt.Some? ==> good(t.deadLetteredAt.value))
    && (t.lastRequeuedAt.Some? ==> good(t.lastRequeuedAt.value))
    && (t.lastUnacknowledgedAt.Some? ==> good(t.lastUnacknowledgedAt.value))
    && (t.lastScheduledAt.Some? ==> good(t.lastScheduledAt.value))
    && (t.lastRetriedAttemptAt.Some? ==> good(t.lastRetriedAttemptAt.value))
    && (t.lastProcessedAt.Some? ==> good(t.lastProcessedAt.value))
  }

  predicate AllPositive(t: Times<Int64>) { AllTimes(t, (ts: Int64) => ts > 0) }

  lemma PositiveTimesIff(t: Times<Int64>)
    ensures t == PositiveTimes(t) <==> AllPositive(t)
  {
  }

  /** The state as far as it can be stored: timestamps that are not positive are lost. */
  function Storable(s: State): State { s.(times := PositiveTimes(s.times)) }

  lemma TimeRoundTrip(ts: Option<Int64>)
    ensures TimeOf(TimeText(ts)) == Positive(ts)
  {
    if ts.Some? {
      ParseItoa(ts.value);
    }
  }

  lemma StoredTimes(s: State)
    ensures DecodeTimes(StoredRow(s)) == PositiveTimes(s.times)
  {
    hide TimeText, TimeOf, Positive, Itoa;
    var t := s.times;
    TimeRoundTrip(t.scheduledAt);
    TimeRoundTrip(t.publishedAt);
    TimeRoundTrip(t.requeuedAt);
    TimeRoundTrip(t.processingStartedAt);
    TimeRoundTrip(t.acknowledgedAt);
    TimeRoundTrip(t.unacknowledgedAt);
    TimeRoundTrip(t.deadLetteredAt);
    TimeRoundTrip(t.lastRequeuedAt);
    TimeRoundTrip(t.lastUnacknowledgedAt);
    TimeRoundTrip(t.lastScheduledAt);
    TimeRoundTrip(t.lastRetriedAttemptAt);
    TimeRoundTrip(t.lastProcessedAt);
  }

  lemma StoredRoundTrip(s: State, uuid: string)
    ensures DecodeRow(StoredRow(s), uuid) == Storable(s)
  {
    hide Itoa, ParseInt, DecodeTimes, TimeText;
    StoredTimes(s);
    ParseItoa(s.attempts);
    ParseItoa(s.repeatCount);
    ParseItoa(s.requeueCount);
    ParseItoa(s.delay);
    ParseItoa(s.scheduledTimes);
  }

  /** Encoding a state and decoding the hash gives the state back, exactly when every timestamp
      it carries is positive; the others come back absent. */
  lemma StateRoundTrip(hash: Hash, s: State, uuid: string)
    requires hash != map[] && RowOf(hash) == StoredRow(s)
    ensures DecodeState(hash, uuid) == Some(Storable(s))
    ensures DecodeState(hash, uuid) == Some(s) <==> AllPositive(s.times)
  {
    StoredRoundTrip(s, uuid);
    PositiveTimesIff(s.times);
  }

  // ---------------------------------------------------------------- finer than milliseconds

  const NANOS_PER_MILLI: nat := 1_000_000

  /** A point in time as the process keeps it, in nanoseconds. */
  type Instant = n: int | MIN_INT64 <= n / NANOS_PER_MILLI <= MAX_INT64

  function UnixMilli(n: Instant): Int64 { n / NANOS_PER_MILLI }

  function FromUnixMilli(ms: Int64): Instant { ms * NANOS_PER_MILLI }

  function MapTimes<A, B>(t: Times<A>, g: A -> B): Times<B> {
    Times(
      scheduledAt := MapTime(t.scheduledAt, g),
      publishedAt := MapTime(t.publishedAt, g),
      requeuedAt := MapTime(t.requeuedAt, g),
      processingStartedAt := MapTime(t.processingStartedAt, g),
      acknowledgedAt := MapTime(t.acknowledgedAt, g),
      unacknowledgedAt := MapTime(t.unacknowledgedAt, g),
      deadLetteredAt := MapTime(t.deadLetteredAt, g),
      lastRequeuedAt := MapTime(t.lastRequeuedAt, g),
      lastUnacknowledgedAt := MapTime(t.lastUnacknowledgedAt, g),
      lastScheduledAt := MapTime(t.lastScheduledAt, g),
      lastRetriedAttemptAt := MapTime(t.lastRetriedAttemptAt, g),
      lastProcessedAt := MapTime(t.lastProcessedAt, g))
  }

  function MapTime<A, B>(ts: Option<A>, g: A -> B): Option<B> { if ts.Some? then Some(g(ts.value)) else None }

  /** Every instant present is a positive whole number of milliseconds. */
  predicate AllWholeMillis(t: Times<Instant>) { AllTimes(t, WholeMilli) }

  predicate WholeMilli(n: Instant) { n > 0 && n % NANOS_PER_MILLI == 0 }

  lemma InstantRoundTrip(ts: Option<Instant>)
    ensures MapTime(Positive(MapTime(ts, UnixMilli)), FromUnixMilli) == ts <==> (ts.Some? ==> WholeMilli(ts.value))
  {
  }

  /** At the process's own precision, a stored and loaded state has the instants it had if and only if
      every one of them is a positive whole number of milliseconds. */
  lemma InstantsRoundTripIff(hash: Hash, s: State, live: Times<Instant>, uuid: string)
    requires hash != map[] && RowOf(hash) == StoredRow(s) && s.times == MapTimes(live, UnixMilli)
    ensures MapTimes(DecodeState(hash, uuid).value.times, FromUnixMilli) == live <==> AllWholeMillis(live)
  {
    hide WholeMilli, Positive, MapTime, DecodeState, StoredRow, RowOf;
    StateRoundTrip(hash, s, uuid);
    InstantRoundTrip(live.scheduledAt);
    InstantRoundTrip(live.publishedAt);
    InstantRoundTrip(live.requeuedAt);
    InstantRoundTrip(live.processingStartedAt);
    InstantRoundTrip(live.acknowledgedAt);
    InstantRoundTrip(live.unacknowledgedAt);
    InstantRoundTrip(live.deadLetteredAt);
    InstantRoundTrip(live.lastRequeuedAt);
    InstantRoundTrip(live.lastUnacknowledgedAt);
    InstantRoundTrip(live.lastScheduledAt);
    InstantRoundTrip(live.lastRetriedAttemptAt);
    InstantRoundTrip(live.lastProcessedAt);
  }
}

/** The argument vector of the publish script: the second encoder of message state. */
module PublishArgs {
  import opened Text
  import opened MessageState
  import opened StateCodec

  /** Fields in the order the publish arguments name them. */
  const ORDER: seq<nat> :=
    [ID,
     STATUS,
     MESSAGE,
     SCHEDULED_AT,
     PUBLISHED_AT,
     PROCESSING_STARTED_AT,
     DEAD_LETTERED_AT,
     ACKNOWLEDGED_AT,
     UNACKNOWLEDGED_AT,
     LAST_UNACKNOWLEDGED_AT,
     LAST_SCHEDULED_AT,
     REQUEUED_AT,
     REQUEUE_COUNT,
     LAST_REQUEUED_AT,
     LAST_RETRIED_ATTEMPT_AT,
     SCHEDULED_CRON_FIRED,
     ATTEMPTS,
     SCHEDULED_REPEAT_COUNT,
     EXPIRED,
     EFFECTIVE_SCHEDULED_DELAY,
     SCHEDULED_TIMES,
     SCHEDULED_MESSAGE_PARENT_ID,
     REQUEUED_MESSAGE_PARENT_ID,
     LAST_PROCESSED_AT]

  /** Where each field number stands in that order. */
  const POSITION: seq<nat> := [0, 1, 2, 3, 4, 5, 6, 7, 8, 9, 10, 23, 11, 12, 13, 14, 15, 16, 17, 18, 19, 20, 21, 22]

  function OrEmpty(ts: Option<Int64>): string { if ts.Some? then Itoa(ts.value) else "" }

  function PropertyKeys(): seq<string> {
    seq(|ORDER|, i requires 0 <= i < |ORDER| => Key(ORDER[i]))
  }

  /** The values, listed next to the keys above. */
  function PropertyValues(s: State, status: Int64, json: string): seq<string> {
    [s.id,
     Itoa(status),
     json,
     OrEmpty(s.times.scheduledAt),
     OrEmpty(s.times.publishedAt),
     OrEmpty(s.times.processingStartedAt),
     OrEmpty(s.times.deadLetteredAt),
     OrEmpty(s.times.acknowledgedAt),
     OrEmpty(s.times.unacknowledgedAt),
     OrEmpty(s.times.lastUnacknowledgedAt),
     OrEmpty(s.times.lastScheduledAt),
     OrEmpty(s.times.requeuedAt),
     Itoa(s.requeueCount),
     OrEmpty(s.times.lastRequeuedAt),
     OrEmpty(s.times.lastRetriedAttemptAt),
     BoolText(s.cronFired),
     Itoa(s.attempts),
     Itoa(s.repeatCount),
     BoolText(s.expired),
     Itoa(s.delay),
     Itoa(s.scheduledTimes),
     s.scheduledParent,
     s.requeuedParent,
     OrEmpty(s.times.lastProcessedAt)]
  }

  /** The numbers the script is told first: of the queue's fields for its type and its counts of all, pending
      and scheduled messages; of the queue types; of the fields for the operational state and the lock id; and
      of the operational states. */
  const QUEUE_FIELD_TYPE: nat := 0
  const QUEUE_FIELD_MESSAGES: nat := 2
  const QUEUE_FIELD_PENDING: nat := 5
  const QUEUE_FIELD_SCHEDULED: nat := 4
  const QUEUE_FIELD_STATE: nat := 11
  const QUEUE_FIELD_LOCK_ID: nat := 13
  const LIFO: nat := 0
  const FIFO: nat := 1
  const PRIORITY: nat := 2
  const ACTIVE: nat := 0
  const PAUSED: nat := 1
  const STOPPED: nat := 2
  const LOCKED: nat := 3
  const STATUS_PENDING: nat := 1
  const STATUS_SCHEDULED: nat := 3

  const HEAD: seq<nat> :=
    [QUEUE_FIELD_TYPE, QUEUE_FIELD_MESSAGES, QUEUE_FIELD_PENDING, QUEUE_FIELD_SCHEDULED,
     PRIORITY, LIFO, FIFO,
     QUEUE_FIELD_STATE, QUEUE_FIELD_LOCK_ID,
     ACTIVE, PAUSED, STOPPED, LOCKED]

  lemma HeadTexts(i: nat)
    requires i < |HEAD|
    ensures |HEAD| == |QueuePropertyArgs()| == 13 && QueuePropertyArgs()[i] == Itoa(HEAD[i])
  {
    assert Digits(1) == "1" && Digits(11) == "11" && Digits(13) == "13";
  }

  function QueuePropertyArgs(): seq<string> {
    ["0", "2", "5", "4", "2", "0", "1", "11", "13", "0", "1", "2", "3"]
  }

  const KEYS_AT: nat := 17
  const VALUES_AT: nat := 41

  /** `BuildPublishArgs`: 67 arguments with the keys and the values side by side at the offsets
      the script reads them from. */
  method BuildPublishArgs(s: State, status: Int64, json: string, priority: Option<Int64>, group: string)
      returns (args: seq<string>)
    ensures |args| == 67
    ensures args[KEYS_AT..VALUES_AT] == PropertyKeys()
    ensures args[VALUES_AT..VALUES_AT + FIELD_COUNT] == PropertyValues(s, status, json)
    ensures args[13] == OrEmpty(priority) && args[14] == OrEmpty(s.times.scheduledAt)
    ensures args[65] == group && args[66] == ""
    ensures forall i :: 0 <= i < 13 ==> args[i] == Itoa(HEAD[i])
    ensures args[15] == Itoa(STATUS_SCHEDULED) && args[16] == Itoa(STATUS_PENDING)
  {
    forall i: nat | i < 13 ensures QueuePropertyArgs()[i] == Itoa(HEAD[i]) {
      HeadTexts(i);
    }
    assert Itoa(STATUS_SCHEDULED) == "3" && Itoa(STATUS_PENDING) == "1";
    hide Itoa;
    args := QueuePropertyArgs();
    args := args + [OrEmpty(priority), OrEmpty(s.times.scheduledAt), "3", "1"];
    ghost var head := args;
    args := args + PropertyKeys();
    args := args + PropertyValues(s, status, json);
    args := args + [group];
    args := args + [""];
    assert args == head + PropertyKeys() + PropertyValues(s, status, json) + [group, ""];
  }

  /** HSET of the keys to the values, pair by pair. */
  function Zip(keys: seq<string>, values: seq<string>): Hash
    requires |keys| == |values|
  {
    if keys == [] then map[]
    else Zip(keys[..|keys| - 1], values[..|keys| - 1])[keys[|keys| - 1] := values[|keys| - 1]]
  }

  predicate Distinct(keys: seq<string>) { forall i, j :: 0 <= i < j < |keys| ==> keys[i] != keys[j] }

  lemma {:induction false} ZipLookup(keys: seq<string>, values: seq<string>, i: nat)
    requires |keys| == |values| && Distinct(keys) && i < |keys|
    ensures keys[i] in Zip(keys, values) && Zip(keys, values)[keys[i]] == values[i]
  {
    var n := |keys| - 1;
    if i < n {
      ZipLookup(keys[..n], values[..n], i);
    }
  }

  lemma OrderInverts(f: nat, i: nat)
    requires f < FIELD_COUNT && i < FIELD_COUNT
    ensures |ORDER| == |POSITION| == FIELD_COUNT
    ensures POSITION[f] < FIELD_COUNT && ORDER[POSITION[f]] == f
    ensures ORDER[i] < FIELD_COUNT && POSITION[ORDER[i]] == i
  {
  }

  lemma KeysDistinct()
    ensures Distinct(PropertyKeys())
  {
    OrderInverts(0, 0);
    forall i, j | 0 <= i < j < FIELD_COUNT ensures PropertyKeys()[i] != PropertyKeys()[j] {
      OrderInverts(0, i);
      OrderInverts(0, j);
      if Key(ORDER[i]) == Key(ORDER[j]) {
        ItoaInjective(ORDER[i], ORDER[j]);
      }
    }
  }

  /** Zipping the publish arguments puts, under every field, the value listed for it. */
  lemma PublishedRow(s: State, status: Int64, json: string, f: nat)
    requires f < FIELD_COUNT
    ensures |PropertyKeys()| == |PropertyValues(s, status, json)| == FIELD_COUNT
    ensures POSITION[f] < FIELD_COUNT
    ensures RowOf(Zip(PropertyKeys(), PropertyValues(s, status, json)))[f]
         == Some(PropertyValues(s, status, json)[POSITION[f]])
  {
    OrderInverts(f, 0);
    KeysDistinct();
    ZipLookup(PropertyKeys(), PropertyValues(s, status, json), POSITION[f]);
  }

  lemma OrEmptyRoundTrip(ts: Option<Int64>)
    ensures TimeOf(Some(OrEmpty(ts))) == Positive(ts)
  {
    if ts.Some? {
      ParseItoa(ts.value);
    }
  }

  lemma PublishedTimes(s: State, status: Int64, json: string)
    ensures DecodeTimes(RowOf(Zip(PropertyKeys(), PropertyValues(s, status, json)))) == PositiveTimes(s.times)
  {
    hide OrEmpty, TimeOf, Positive, Itoa, RowOf, Zip;
    var t := s.times;
    PublishedRow(s, status, json, SCHEDULED_AT);
    OrEmptyRoundTrip(t.scheduledAt);
    PublishedRow(s, status, json, PUBLISHED_AT);
    OrEmptyRoundTrip(t.publishedAt);
    PublishedRow(s, status, json, REQUEUED_AT);
    OrEmptyRoundTrip(t.requeuedAt);
    PublishedRow(s, status, json, PROCESSING_STARTED_AT);
    OrEmptyRoundTrip(t.processingStartedAt);
    PublishedRow(s, status, json, ACKNOWLEDGED_AT);
    OrEmptyRoundTrip(t.acknowledgedAt);
    PublishedRow(s, status, json, UNACKNOWLEDGED_AT);
    OrEmptyRoundTrip(t.unacknowledgedAt);
    PublishedRow(s, status, json, DEAD_LETTERED_AT);
    OrEmptyRoundTrip(t.deadLetteredAt);
    PublishedRow(s, status, json, LAST_REQUEUED_AT);
    OrEmptyRoundTrip(t.lastRequeuedAt);
    PublishedRow(s, status, json, LAST_UNACKNOWLEDGED_AT);
    OrEmptyRoundTrip(t.lastUnacknowledgedAt);
    PublishedRow(s, status, json, LAST_SCHEDULED_AT);
    OrEmptyRoundTrip(t.lastScheduledAt);
    PublishedRow(s, status, json, LAST_RETRIED_ATTEMPT_AT);
    OrEmptyRoundTrip(t.lastRetriedAttemptAt);
    PublishedRow(s, status, json, LAST_PROCESSED_AT);
    OrEmptyRoundTrip(t.lastProcessedAt);
  }

  /** The publish arguments decode to the same state as the stored hash, for every state and
      whatever timestamps are absent, zero or negative. */
  lemma EncodersAgree(s: State, status: Int64, json: string, uuid: string)
    ensures DecodeRow(RowOf(Zip(PropertyKeys(), PropertyValues(s, status, json))), uuid) == Storable(s)
         == DecodeRow(StoredRow(s), uuid)
  {
    hide OrEmpty, Itoa, ParseInt, DecodeTimes, RowOf, Zip;
    StoredRoundTrip(s, uuid);
    PublishedTimes(s, status, json);
    PublishedRow(s, status, json, ID);
    PublishedRow(s, status, json, SCHEDULED_CRON_FIRED);
    PublishedRow(s, status, json, ATTEMPTS);
    PublishedRow(s, status, json, SCHEDULED_REPEAT_COUNT);
    PublishedRow(s, status, json, REQUEUE_COUNT);
    PublishedRow(s, status, json, EXPIRED);
    PublishedRow(s, status, json, EFFECTIVE_SCHEDULED_DELAY);
    PublishedRow(s, status, json, SCHEDULED_TIMES);
    PublishedRow(s, status, json, SCHEDULED_MESSAGE_PARENT_ID);
    PublishedRow(s, status, json, REQUEUED_MESSAGE_PARENT_ID);
    ParseItoa(s.attempts);
    ParseItoa(s.repeatCount);
    ParseItoa(s.requeueCount);
    ParseItoa(s.delay);
    ParseItoa(s.scheduledTimes);
  }
}
