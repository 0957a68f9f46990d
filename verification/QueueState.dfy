/** The operational state of a queue: many clients read the newest recorded transition, check it
    against the transition graph, and submit a compare-and-set to the state script. */
module QueueState {
  import opened Text

  datatype OpState = Active | Paused | Stopped | Locked

  datatype Owner = PurgeJob | OtherOwner(name: string)

  datatype Transition = Transition(from: Option<OpState>, to: OpState, lockId: Option<string>, owner: Option<Owner>)

  const MAX_HISTORY: nat := 100

  // ---------------------------------------------------------------- the transition graph

  function AllowedTransitions(s: OpState): seq<OpState> {
    match s
    case Active => [Paused, Locked, Stopped]
    case Paused => [Active, Stopped, Locked]
    case Stopped => [Active]
    case Locked => [Active, Stopped]
  }

  predicate CanTransitionTo(s: OpState, target: OpState) { target in AllowedTransitions(s) }

  /** The graph, edge by edge: from active to any other state, from any other state back to active, from
      paused or locked to stopped, and from paused to locked. */
  lemma GraphShape(s: OpState, t: OpState)
    ensures CanTransitionTo(s, t) <==>
      s != t && (s == Active || t == Active || (t == Stopped && s != Stopped) || (s == Paused && t == Locked))
  {
  }

  // ---------------------------------------------------------------- the stored record

  /** The state field and the history list, newest entry first. */
  datatype Record = Record(state: OpState, history: seq<Transition>)

  function Trimmed(history: seq<Transition>): seq<Transition> {
    if |history| > MAX_HISTORY then history[..MAX_HISTORY] else history
  }

  /** The state script when it accepts: only on the expected state, pushing one entry. */
  function SetState(r: Record, expected: OpState, t: Transition): (Record, bool) {
    if r.state == expected then (Record(t.to, Trimmed([t] + r.history)), true) else (r, false)
  }

  /** `FetchCurrent`: the newest entry, or an initial one made from the state field. A failed read of the
      newest entry is taken for an empty history. */
  function Current(state: OpState, history: seq<Transition>): Transition {
    if history == [] then Transition(None, state, None, None) else history[0]
  }

  // ---------------------------------------------------------------- requests

  datatype Request =
    | TransitionTo(target: OpState, withLockId: Option<string>, withOwner: Option<Owner>)
    | AcquireLock(owner: Owner, lockId: string)
    | ReleaseLock(owner: Owner, lockId: string)
    | Recover

  datatype Error =
    | InvalidTransition | InvalidLock | NotLocked | LockOwnerMismatch | LockIdMismatch
    | Skipped | ScriptRefused | ReplyLost

  datatype Plan = Submit(t: Transition) | Reject(error: Error)

  /** What a client decides on seeing `current`: the transition to submit, or why not. The
      submission always expects `current.to`. */
  function Decide(req: Request, current: Transition): Plan {
    match req
    case TransitionTo(target, lockId, owner) =>
      if CanTransitionTo(current.to, target) then Submit(Transition(Some(current.to), target, lockId, owner))
      else Reject(InvalidTransition)
    case AcquireLock(owner, id) =>
      if id == "" then Reject(InvalidLock)
      else if CanTransitionTo(current.to, Locked) then
        Submit(Transition(Some(current.to), Locked, Some(id), Some(owner)))
      else Reject(InvalidTransition)
    case ReleaseLock(owner, id) =>
      if id == "" then Reject(InvalidLock)
      else if current.to != Locked then Reject(NotLocked)
      else if current.owner != Some(owner) then Reject(LockOwnerMismatch)
      else if current.lockId != Some(id) then Reject(LockIdMismatch)
      else Submit(Transition(Some(current.to), Active, Some(id), None))
    case Recover =>
      if current.to == Locked && current.owner == Some(PurgeJob) && current.lockId.Some? && current.lockId.value != ""
      then Submit(Transition(Some(Locked), Active, current.lockId, None))
      else Reject(Skipped)
  }

  /** Exactly when each request is submitted, and what the entry says: a transition along an edge, with the
      lock id and owner it was given; a lock from active or paused, with both; a release of the lock named, or
      a recovery of a purge job's lock, back to active with the id and without an owner. */
  lemma SubmittedIff(req: Request, current: Transition)
    ensures var plan := Decide(req, current);
      match req
      case TransitionTo(target, lockId, owner) =>
        && (plan.Submit? <==> CanTransitionTo(current.to, target))
        && (plan.Submit? ==> plan.t == Transition(Some(current.to), target, lockId, owner))
        && (plan.Reject? ==> plan.error == InvalidTransition)
      case AcquireLock(owner, id) =>
        && (plan.Submit? <==> id != "" && (current.to == Active || current.to == Paused))
        && (plan.Submit? ==> plan.t == Transition(Some(current.to), Locked, Some(id), Some(owner)))
        && (plan.Reject? ==> plan.error == if id == "" then InvalidLock else InvalidTransition)
      case ReleaseLock(owner, id) =>
        && (plan.Submit? <==>
              id != "" && current.to == Locked && current.owner == Some(owner) && current.lockId == Some(id))
        && (plan.Submit? ==> plan.t == Transition(Some(Locked), Active, Some(id), None))
        && (plan == Reject(NotLocked) <==> id != "" && current.to != Locked)
      case Recover =>
        && (plan.Submit? <==>
              && current.to == Locked && current.owner == Some(PurgeJob)
              && current.lockId.Some? && current.lockId.value != "")
        && (plan.Submit? ==> plan.t == Transition(Some(Locked), Active, current.lockId, None))
  {
    GraphShape(current.to, Locked);
  }

  /** Whatever is submitted starts at the observed state and follows the graph; a release or a
      recovery only ever answers a lock entry with that owner and id. */
  lemma SubmissionsLegal(req: Request, current: Transition)
    requires Decide(req, current).Submit?
    ensures Decide(req, current).t.from == Some(current.to)
    ensures CanTransitionTo(current.to, Decide(req, current).t.to)
    ensures req.ReleaseLock? ==>
      current.to == Locked && current.owner == Some(req.owner) && current.lockId == Some(req.lockId)
    ensures req.Recover? ==> current.to == Locked && current.owner == Some(PurgeJob)
  {
  }

  // ---------------------------------------------------------------- one client, undisturbed

  class StateStore {
    var record: Record

    ghost predicate Valid()
      reads this
    {
      record.history != [] ==> record.history[0].to == record.state
    }

    constructor ()
      ensures Valid() && record == Record(Active, [Transition(None, Active, None, None)])
    {
      record := Record(Active, [Transition(None, Active, None, None)]);
    }

    /** A request goes through exactly when it is legal for the stored state, and then the
        stored state is its target and its entry the newest. */
    method Handle(req: Request) returns (error: Option<Error>)
      requires Valid()
      modifies this
      ensures Valid()
      ensures var plan := Decide(req, Current(old(record).state, old(record).history));
        && error.None? == plan.Submit?
        && (plan.Submit? ==> record == Record(plan.t.to, Trimmed([plan.t] + old(record).history)))
        && (plan.Reject? ==> record == old(record) && error == Some(plan.error))
    {
      var current := Current(record.state, record.history);
      var plan := Decide(req, current);
      if plan.Reject? {
        return Some(plan.error);
      }
      SubmissionsLegal(req, current);
      var reply := SetState(record, current.to, plan.t);
      record := reply.0;
      error := if reply.1 then None else Some(ScriptRefused);
    }
  }

  // ---------------------------------------------------------------- many clients

  datatype Phase =
    | Asked                       // about to read the state field
    | SawState(state: OpState)    // about to read the newest entry
    | SawEntry(current: Transition)
    | Finished(error: Option<Error>)

  datatype Client = Client(req: Request, phase: Phase)

  /** `log` is every accepted transition, oldest first; the record keeps only the newest ones. */
  datatype Sys = Sys(record: Record, clients: map<nat, Client>, log: seq<Transition>)

  datatype Step =
    | Ask(id: nat, req: Request)
    | ReadState(id: nat)
    | ReadEntry(id: nat, failed: bool)
    | Give(id: nat)    // rejected, or a recovery that found the purge worker alive
    | Send(id: nat, refused: bool, replyLost: bool)

  predicate Enabled(s: Sys, step: Step) {
    match step
    case Ask(id, _) => id !in s.clients
    case ReadState(id) => id in s.clients && s.clients[id].phase.Asked?
    case ReadEntry(id, _) => id in s.clients && s.clients[id].phase.SawState?
    case Give(id) =>
      && id in s.clients && s.clients[id].phase.SawEntry?
      && (Decide(s.clients[id].req, s.clients[id].phase.current).Reject? || s.clients[id].req.Recover?)
    case Send(id, _, _) =>
      && id in s.clients && s.clients[id].phase.SawEntry?
      && Decide(s.clients[id].req, s.clients[id].phase.current).Submit?
  }

  function Move(s: Sys, id: nat, phase: Phase): Sys
    requires id in s.clients
  {
    s.(clients := s.clients[id := s.clients[id].(phase := phase)])
  }

  function Next(s: Sys, step: Step): Sys
    requires Enabled(s, step)
  {
    match step
    case Ask(id, req) => s.(clients := s.clients[id := Client(req, Asked)])
    case ReadState(id) => Move(s, id, SawState(s.record.state))
    case ReadEntry(id, failed) =>
      Move(s, id, SawEntry(Current(s.clients[id].phase.state, if failed then [] else s.record.history)))
    case Give(id) =>
      var plan := Decide(s.clients[id].req, s.clients[id].phase.current);
      Move(s, id, Finished(Some(if plan.Reject? then plan.error else Skipped)))
    case Send(id, refused, replyLost) =>
      var current := s.clients[id].phase.current;
      var t := Decide(s.clients[id].req, current).t;
      var (record', ok) := SetState(s.record, current.to, t);
      if refused || !ok then Move(s, id, Finished(Some(ScriptRefused)))
      else
        Move(s.(record := record', log := s.log + [t]), id, Finished(if replyLost then Some(ReplyLost) else None))
  }

  /** A queue is active when created, with or without the entry that records it. */
  predicate Initial(s: Sys) {
    && s.clients == map[]
    && s.record == Record(Active, s.log)
    && (s.log == [] || s.log == [Transition(None, Active, None, None)])
  }

  ghost predicate IsRun(states: seq<Sys>, steps: seq<Step>) {
    && |states| == |steps| + 1
    && Initial(states[0])
    && forall i :: 0 <= i < |steps| ==> Enabled(states[i], steps[i]) && states[i + 1] == Next(states[i], steps[i])
  }

  // ---------------------------------------------------------------- the chain

  predicate Link(before: OpState, t: Transition) { t.from == Some(before) && CanTransitionTo(before, t.to) }

  /** Oldest first: each entry starts where the one before ended, along an allowed edge. */
  ghost predicate Chain(log: seq<Transition>) {
    && (forall i :: 1 <= i < |log| ==> Link(log[i - 1].to, log[i]))
    && (log != [] ==> Link(Active, log[0]) || log[0] == Transition(None, Active, None, None))
  }

  function Newest(log: seq<Transition>): seq<Transition> {
    if log == [] then [] else [log[|log| - 1]] + Newest(log[..|log| - 1])
  }

  ghost predicate Inv(s: Sys) {
    && Chain(s.log)
    && s.record.state == (if s.log == [] then Active else s.log[|s.log| - 1].to)
    && s.record.history == Trimmed(Newest(s.log))
  }

  lemma LogGrows(r: Record, log: seq<Transition>, t: Transition)
    requires Chain(log) && r.state == (if log == [] then Active else log[|log| - 1].to)
    requires r.history == Trimmed(Newest(log)) && Link(r.state, t)
    ensures Chain(log + [t]) && Trimmed([t] + r.history) == Trimmed(Newest(log + [t]))
  {
    hide Link, Trimmed;
    var log' := log + [t];
    assert log'[..|log|] == log;
    TrimPush(t, Newest(log));
    forall i | 1 <= i < |log'| ensures Link(log'[i - 1].to, log'[i]) {
      assert i < |log| ==> Link(log[i - 1].to, log[i]);
    }
  }

  lemma SendKeepsInv(s: Sys, step: Step)
    requires Inv(s) && Enabled(s, step) && step.Send?
    ensures Inv(Next(s, step))
  {
    hide Decide, Chain, Newest, Trimmed;
    var c := s.clients[step.id];
    SubmissionsLegal(c.req, c.phase.current);
    if s.record.state == c.phase.current.to {
      LogGrows(s.record, s.log, Decide(c.req, c.phase.current).t);
    }
  }

  lemma OtherKeepsInv(s: Sys, step: Step)
    requires Inv(s) && Enabled(s, step) && !step.Send?
    ensures Inv(Next(s, step))
  {
    hide Inv, Decide;
    assert Next(s, step).record == s.record && Next(s, step).log == s.log;
    SameInv(s, Next(s, step));
  }

  lemma SameInv(s: Sys, s': Sys)
    requires Inv(s) && s'.record == s.record && s'.log == s.log
    ensures Inv(s')
  {
  }

  lemma TrimPush(t: Transition, all: seq<Transition>)
    ensures Trimmed([t] + Trimmed(all)) == Trimmed([t] + all)
  {
  }

  lemma {:induction false} RunInv(states: seq<Sys>, steps: seq<Step>, i: nat)
    requires IsRun(states, steps) && i < |states|
    ensures Inv(states[i])
  {
    if i > 0 {
      RunInv(states, steps, i - 1);
      if steps[i - 1].Send? {
        SendKeepsInv(states[i - 1], steps[i - 1]);
      } else {
        OtherKeepsInv(states[i - 1], steps[i - 1]);
      }
    } else if states[0].log != [] {
      assert Newest(states[0].log[..0]) == [];
    }
  }

  lemma {:induction false} NewestAt(log: seq<Transition>, k: nat)
    requires k < |log|
    ensures |Newest(log)| == |log| && Newest(log)[k] == log[|log| - 1 - k]
  {
    if k > 0 {
      NewestAt(log[..|log| - 1], k - 1);
    } else if |log| > 1 {
      NewestAt(log[..|log| - 1], 0);
    }
  }

  /** At every point of every interleaving the recorded history is the newest hundred of all accepted
      transitions, newest first: a chain along allowed edges whose newest entry ends in the stored state. */
  lemma HistoryIsChain(states: seq<Sys>, steps: seq<Step>, i: nat)
    requires IsRun(states, steps) && i < |states|
    ensures var r := states[i].record;
      && |r.history| == (if |states[i].log| < 100 then |states[i].log| else 100)
      && (forall k :: 0 <= k < |r.history| ==> r.history[k] == states[i].log[|states[i].log| - 1 - k])
      && (r.history != [] ==> r.history[0].to == r.state)
      && (forall k :: 0 <= k < |r.history| - 1 ==> Link(r.history[k + 1].to, r.history[k]))
  {
    RunInv(states, steps, i);
    var log := states[i].log;
    if log != [] {
      NewestAt(log, 0);
    }
    forall k: nat | k < |log| ensures |Newest(log)| == |log| && Newest(log)[k] == log[|log| - 1 - k] {
      NewestAt(log, k);
    }
  }

  /** What a client sees: the newest entry, unless the history is empty or the read failed; then just the
      state it read before. */
  lemma SeesNewest(s: Sys, id: nat, failed: bool)
    requires Enabled(s, ReadEntry(id, failed))
    ensures var s' := Next(s, ReadEntry(id, failed));
      && s'.clients[id].phase == SawEntry(
           if failed || s.record.history == [] then Transition(None, s.clients[id].phase.state, None, None)
           else s.record.history[0])
      && s'.record == s.record && s'.log == s.log
  {
  }

  /** What a submission comes to: accepted exactly when the script does not refuse it and the state is still
      the one it was made for; then it is recorded, whether or not the client hears of it. */
  lemma SubmissionOutcome(s: Sys, id: nat, refused: bool, replyLost: bool)
    requires Enabled(s, Send(id, refused, replyLost))
    ensures var s', current := Next(s, Send(id, refused, replyLost)), s.clients[id].phase.current;
      var t := Decide(s.clients[id].req, current).t;
      if !refused && s.record.state == current.to then
        && s'.record.state == t.to && s'.record.history != [] && s'.record.history[0] == t && s'.log == s.log + [t]
        && s'.clients[id].phase == Finished(if replyLost then Some(ReplyLost) else None)
      else
        && s'.record == s.record && s'.log == s.log
        && s'.clients[id].phase == Finished(Some(ScriptRefused))
  {
    hide Decide;
  }

  /** A client on its own, from any state the system can be in: its request goes through exactly when it is
      legal for the newest entry, is then recorded as the newest, and otherwise changes nothing. */
  lemma SoloRequest(s: Sys, id: nat, req: Request)
    requires Inv(s) && id !in s.clients
    ensures Enabled(s, Ask(id, req))
    ensures var s1 := Next(s, Ask(id, req));
      Enabled(s1, ReadState(id)) && Enabled(Next(s1, ReadState(id)), ReadEntry(id, false))
    ensures var s3 := Next(Next(Next(s, Ask(id, req)), ReadState(id)), ReadEntry(id, false));
      var plan := Decide(req, Current(s.record.state, s.record.history));
      if plan.Submit? then
        && Enabled(s3, Send(id, false, false))
        && var s4 := Next(s3, Send(id, false, false));
           s4.clients[id].phase == Finished(None) && s4.record.state == plan.t.to && s4.log == s.log + [plan.t]
      else
        && Enabled(s3, Give(id))
        && Next(s3, Give(id)).clients[id].phase == Finished(Some(plan.error)) && Next(s3, Give(id)).record == s.record
  {
    hide Decide;
    var log := s.log;
    if log != [] {
      NewestAt(log, 0);
    }
    assert Current(s.record.state, s.record.history).to == s.record.state;
  }

  /** Of two clients that observed the same state, the second to submit is refused unless the
      state has come back in between: right after the first it cannot have. */
  lemma RaceLoserRefused(s: Sys, a: Step, b: nat)
    requires Inv(s) && a.Send? && Enabled(s, a) && b != a.id && Enabled(s, Send(b, false, false))
    requires s.clients[a.id].phase.current.to == s.clients[b].phase.current.to
    requires Next(s, a).log != s.log
    ensures Enabled(Next(s, a), Send(b, false, false))
    ensures Next(Next(s, a), Send(b, false, false)).clients[b].phase == Finished(Some(ScriptRefused))
    ensures Next(Next(s, a), Send(b, false, false)).record == Next(s, a).record
  {
    var c := s.clients[a.id];
    SubmissionsLegal(c.req, c.phase.current);
    GraphShape(c.phase.current.to, c.phase.current.to);
  }
}
