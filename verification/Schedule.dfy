/** The lifecycle state of a message, in the milliseconds it is observed and stored in. */
module MessageState {
  import opened Text

  /** When things happened to a message, in milliseconds or finer. */
  datatype Times<T> = Times(
    scheduledAt: Option<T>,
    publishedAt: Option<T>,
    requeuedAt: Option<T>,
    processingStartedAt: Option<T>,
    acknowledgedAt: Option<T>,
    unacknowledgedAt: Option<T>,
    deadLetteredAt: Option<T>,
    lastRequeuedAt: Option<T>,
    lastUnacknowledgedAt: Option<T>,
    lastScheduledAt: Option<T>,
    lastRetriedAttemptAt: Option<T>,
    lastProcessedAt: Option<T>)

  datatype State = State(
    id: string,
    times: Times<Int64>,
    cronFired: bool,
    attempts: Int64,
    repeatCount: Int64,
    requeueCount: Int64,
    expired: bool,
    delay: Int64,
    scheduledTimes: Int64,
    scheduledParent: string,
    requeuedParent: string)

  const NO_TIMES: Times<Int64> := Times(None, None, None, None, None, None, None, None, None, None, None, None)

  function NewState(uuid: string): State {
    State(uuid, NO_TIMES, false, 0, 0, 0, false, 0, 0, "", "")
  }
}

/** Delay, cron and repeat scheduling of one message across any number of calls. */
module Schedule {
  import opened Text
  import opened MessageState

  /** The scheduling options of a message; negative values never get past the setters. */
  datatype Plan = Plan(cron: string, scheduledDelay: Option<Int64>, period: Option<Int64>, repeat: Int64)

  predicate ValidPlan(plan: Plan) {
    && plan.repeat >= 0
    && (plan.period.Some? ==> plan.period.value >= 0)
    && (plan.scheduledDelay.Some? ==> plan.scheduledDelay.value >= 0)
  }

  /** What the clock and the cron library answer during one call; tick 0 stands for none. */
  datatype Reading = Reading(now: int, tick: int)

  datatype Kind = DelayDue | CronTick | Repetition | Ended

  datatype Event = Event(kind: Kind, at: int, state: State)

  /** A repetition is due now: one is left, there is a period, and with cron a tick came first. */
  predicate RepeatDue(plan: Plan, st: State) {
    && st.repeatCount < plan.repeat
    && plan.period.Some?
    && if plan.cron == "" then plan.repeat > 0 else st.cronFired
  }

  function RepeatAt(plan: Plan, st: State, now: int): int
    requires RepeatDue(plan, st)
  {
    if plan.cron == "" && st.repeatCount <= 0 then now else now + plan.period.value
  }

  /** The schedule: a pending delay goes first and once; then whichever of the next cron tick and
      the next repetition comes first, the tick winning ties and starting a new repeat cycle. */
  function Next(plan: Plan, st: State, r: Reading): Event {
    if st.delay > 0 then Event(DelayDue, r.now + st.delay, st.(delay := 0))
    else
      var tick := if plan.cron == "" then 0 else r.tick;
      var due := RepeatDue(plan, st) && RepeatAt(plan, st, r.now) > 0;
      if due && (tick <= 0 || RepeatAt(plan, st, r.now) < tick) then
        Event(Repetition, RepeatAt(plan, st, r.now), st.(repeatCount := st.repeatCount + 1))
      else if tick > 0 then Event(CronTick, tick, st.(repeatCount := 0, cronFired := true))
      else Event(Ended, 0, st)
  }

  class Envelope {
    const plan: Plan
    var state: State

    constructor (plan: Plan, uuid: string)
      ensures this.plan == plan
      ensures state == NewState(uuid).(delay := if plan.scheduledDelay.Some? then plan.scheduledDelay.value else 0)
    {
      this.plan := plan;
      var s := NewState(uuid);
      if plan.scheduledDelay.Some? {
        s := s.(delay := plan.scheduledDelay.value);
      }
      state := s;
    }

    predicate IsPeriodic()
      reads this
    {
      plan.cron != "" || plan.repeat > 0
    }

    predicate IsSchedulable()
      reads this
    {
      state.delay > 0 || IsPeriodic()
    }

    method NextScheduledTimestamp(r: Reading) returns (ts: int)
      requires ValidPlan(plan)
      modifies this
      ensures ts == Next(plan, old(state), r).at
      ensures state == Next(plan, old(state), r).state
    {
      if !IsSchedulable() {
        return 0;
      }
      var delay := state.delay;
      if delay > 0 {
        state := state.(delay := 0);
        return r.now + delay;
      }
      if plan.cron == "" && plan.repeat == 0 {
        return 0;
      }
      var cronTimestamp := 0;
      if plan.cron != "" && r.tick > 0 {
        cronTimestamp := r.tick;
      }
      var repeatTimestamp := 0;
      if state.repeatCount < plan.repeat {
        if plan.cron == "" || state.cronFired {
          if plan.period.Some? {
            if plan.cron != "" {
              repeatTimestamp := r.now + plan.period.value;
            } else if state.repeatCount > 0 {
              repeatTimestamp := r.now + plan.period.value;
            } else {
              repeatTimestamp := r.now;
            }
          }
        }
      }
      if cronTimestamp > 0 && repeatTimestamp > 0 {
        if repeatTimestamp < cronTimestamp {
          state := state.(repeatCount := state.repeatCount + 1);
          return repeatTimestamp;
        }
        state := state.(repeatCount := 0);
        state := state.(cronFired := true);
        return cronTimestamp;
      }
      if cronTimestamp > 0 {
        state := state.(repeatCount := 0);
        state := state.(cronFired := true);
        return cronTimestamp;
      }
      if repeatTimestamp > 0 {
        state := state.(repeatCount := state.repeatCount + 1);
        return repeatTimestamp;
      }
      return 0;
    }
  }

  // ---------------------------------------------------------------- runs

  /** The state before call `i` of a run. */
  function Before(plan: Plan, st: State, rs: seq<Reading>, i: nat): State
    requires i <= |rs|
  {
    if i == 0 then st else Next(plan, Before(plan, st, rs, i - 1), rs[i - 1]).state
  }

  function Call(plan: Plan, st: State, rs: seq<Reading>, i: nat): Event
    requires i < |rs|
  {
    Next(plan, Before(plan, st, rs, i), rs[i])
  }

  predicate ClockPositive(rs: seq<Reading>) { forall i :: 0 <= i < |rs| ==> rs[i].now > 0 }

  predicate Counting(plan: Plan, st: State) { ValidPlan(plan) && 0 <= st.repeatCount <= plan.repeat }

  // ---------------------------------------------------------------- repeat only

  function Pending(st: State): nat { if st.delay > 0 then 1 else 0 }

  /** How many repetitions are still to come. */
  function Left(plan: Plan, st: State): int { if plan.period.Some? then plan.repeat - st.repeatCount else 0 }

  /** The result of call `i`, in closed form. */
  function RepeatOnlyAt(plan: Plan, st: State, now: int, i: nat): int {
    if i < Pending(st) then now + st.delay
    else
      var k := i - Pending(st);
      if k >= Left(plan, st) then 0
      else if plan.period.None? || st.repeatCount + k == 0 then now
      else now + plan.period.value
  }

  lemma {:induction false} RepeatOnlyState(plan: Plan, st: State, rs: seq<Reading>, i: nat)
    requires Counting(plan, st) && plan.cron == "" && ClockPositive(rs) && i <= |rs|
    ensures var b := Before(plan, st, rs, i);
      && (i == 0 ==> b == st)
      && (i > 0 ==> b.delay <= 0)
      && b.repeatCount == st.repeatCount + (
           if i <= Pending(st) then 0
           else if i - Pending(st) <= Left(plan, st) then i - Pending(st)
           else Left(plan, st))
  {
    if i > 0 {
      RepeatOnlyState(plan, st, rs, i - 1);
    }
  }

  /** Without cron the whole run is determined: the pending delay if any, then the first repetition
      at once, the others one period ahead, exactly as many as are left, and then 0 for ever. */
  lemma RepeatOnlyRun(plan: Plan, st: State, rs: seq<Reading>, i: nat)
    requires Counting(plan, st) && plan.cron == "" && ClockPositive(rs) && i < |rs|
    ensures Call(plan, st, rs, i).at == RepeatOnlyAt(plan, st, rs[i].now, i)
  {
    RepeatOnlyState(plan, st, rs, i);
  }

  function PositiveCalls(plan: Plan, st: State, rs: seq<Reading>, n: nat): nat
    requires n <= |rs|
  {
    if n == 0 then 0 else PositiveCalls(plan, st, rs, n - 1) + if Call(plan, st, rs, n - 1).at > 0 then 1 else 0
  }

  /** The number of deliveries scheduled is the pending delay plus the repetitions left. */
  lemma {:induction false} RepeatOnlyTotal(plan: Plan, st: State, rs: seq<Reading>, n: nat)
    requires Counting(plan, st) && plan.cron == "" && ClockPositive(rs) && n <= |rs|
    ensures PositiveCalls(plan, st, rs, n)
         == if n <= Pending(st) + Left(plan, st) then n else Pending(st) + Left(plan, st)
  {
    if n > 0 {
      RepeatOnlyTotal(plan, st, rs, n - 1);
      RepeatOnlyRun(plan, st, rs, n - 1);
    }
  }

  // ---------------------------------------------------------------- cron with repeat

  /** The cron library always finds a later tick. */
  predicate TicksAhead(rs: seq<Reading>) { forall i :: 0 <= i < |rs| ==> 0 < rs[i].now < rs[i].tick }

  lemma {:induction false} CronState(plan: Plan, st: State, rs: seq<Reading>, i: nat)
    requires Counting(plan, st) && plan.cron != "" && TicksAhead(rs) && i <= |rs|
    ensures Counting(plan, Before(plan, st, rs, i))
    ensures i > 0 ==> Before(plan, st, rs, i).delay <= 0
    ensures Before(plan, st, rs, i).cronFired ==>
      st.cronFired || exists j :: 0 <= j < i && Call(plan, st, rs, j).kind == CronTick
  {
    if i > 0 {
      CronState(plan, st, rs, i - 1);
      assert Before(plan, st, rs, i) == Call(plan, st, rs, i - 1).state;
    }
  }

  /** A cron schedule never ends: every call yields a later timestamp, a delay only first, and a
      repetition only after some tick and strictly before the next one. */
  lemma CronRun(plan: Plan, st: State, rs: seq<Reading>, i: nat)
    requires Counting(plan, st) && plan.cron != "" && TicksAhead(rs) && i < |rs|
    ensures Call(plan, st, rs, i).at >= rs[i].now > 0
    ensures Call(plan, st, rs, i).kind != Ended
    ensures Call(plan, st, rs, i).kind == DelayDue <==> i == 0 && st.delay > 0
    ensures Call(plan, st, rs, i).kind == Repetition ==> Call(plan, st, rs, i).at < rs[i].tick
    ensures Call(plan, st, rs, i).kind == CronTick ==> Call(plan, st, rs, i).at == rs[i].tick
    ensures Call(plan, st, rs, i).kind == Repetition ==>
      st.cronFired || exists j :: 0 <= j < i && Call(plan, st, rs, j).kind == CronTick
    ensures 0 <= Call(plan, st, rs, i).state.repeatCount <= plan.repeat
  {
    CronState(plan, st, rs, i);
  }

  /** Which of the two a call of a cron schedule yields: a repetition if and only if a tick has come before,
      one is left, there is a period, and it fits in before the tick; it is then one period ahead and
      counted. Otherwise the call yields the tick, which starts a new cycle. */
  lemma CronCallIff(plan: Plan, st: State, rs: seq<Reading>, i: nat)
    requires Counting(plan, st) && plan.cron != "" && TicksAhead(rs) && i < |rs| && (i > 0 || st.delay <= 0)
    ensures var b, e := Before(plan, st, rs, i), Call(plan, st, rs, i);
      var repeats := b.cronFired && b.repeatCount < plan.repeat && plan.period.Some?
                     && rs[i].now + plan.period.value < rs[i].tick;
      && (e.kind == Repetition <==> repeats)
      && (repeats ==>
           && e.at == rs[i].now + plan.period.value
           && e.state.repeatCount == b.repeatCount + 1 && e.state.cronFired)
      && (!repeats ==>
           && e.kind == CronTick && e.at == rs[i].tick
           && e.state.repeatCount == 0 && e.state.cronFired)
  {
    CronState(plan, st, rs, i);
  }

  /** Any call without a pending delay, whatever the clock and the cron library say: a repetition is due when
      one is left, there is a period, and with cron a tick has come before; it would come one period ahead, or
      at once when it is the first without cron. It is taken if it lies after the epoch and before any further
      tick; else the tick is, which starts a new cycle; else the schedule has ended. */
  lemma AnyCall(plan: Plan, st: State, r: Reading)
    requires ValidPlan(plan) && st.delay <= 0 && st.repeatCount >= 0
    ensures var e := Next(plan, st, r);
      var at := if plan.cron == "" && st.repeatCount == 0 then r.now
                else r.now + if plan.period.Some? then plan.period.value else 0;
      var ticks := plan.cron != "" && r.tick >= 1;
      if st.repeatCount < plan.repeat && plan.period.Some? && (plan.cron == "" || st.cronFired)
         && at >= 1 && (ticks ==> at < r.tick)
      then e == Event(Repetition, at, st.(repeatCount := st.repeatCount + 1))
      else if ticks then e == Event(CronTick, r.tick, st.(repeatCount := 0, cronFired := true))
      else e == Event(Ended, 0, st)
  {
  }

  /** A pending delay comes before everything else, and once. */
  lemma DelayFirst(plan: Plan, st: State, r: Reading)
    ensures st.delay > 0 ==> Next(plan, st, r) == Event(DelayDue, r.now + st.delay, st.(delay := 0))
    ensures Next(plan, st, r).kind == DelayDue <==> st.delay > 0
  {
  }

  /** Between two ticks there are at most `repeat` repetitions. */
  lemma {:induction false} RepetitionsBounded(plan: Plan, st: State, rs: seq<Reading>, i: nat, j: nat)
    requires Counting(plan, st) && plan.cron != "" && TicksAhead(rs) && i <= j <= |rs|
    requires forall k :: i <= k < j ==> Call(plan, st, rs, k).kind == Repetition
    ensures j - i == Before(plan, st, rs, j).repeatCount - Before(plan, st, rs, i).repeatCount
    ensures j - i <= plan.repeat
  {
    CronState(plan, st, rs, i);
    CronState(plan, st, rs, j);
    if i < j {
      RepetitionsBounded(plan, st, rs, i, j - 1);
      assert Call(plan, st, rs, j - 1).kind == Repetition;
    }
  }
}
