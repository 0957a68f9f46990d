/** Failed deliveries: the decision cascade, and how many deliveries an always-failing message
    gets before it is dead-lettered. */
module Retry {

  datatype Cause =
    | Timeout | ConsumeError | Unacknowledged | OfflineConsumer | ShuttingDown | TTLExpired | QueueStopped
    | QueueInvalidState | QueueLocked | MessageNotFound | QueueStateChanged | QueueNotFound | UnexpectedError
    | InvalidHandlerSignature

  datatype Action = DeadLetter | Requeue | Delay

  datatype DeadLetterCause = NoCause | Expired | Periodic | ThresholdExceeded

  /** What the decision looks at. */
  datatype Facts = Facts(expired: bool, periodic: bool, attempts: nat, threshold: nat, retryDelay: nat)

  /** `resolveUnackAction`. */
  function Resolve(m: Facts, cause: Cause): (Action, DeadLetterCause) {
    if cause == TTLExpired || m.expired then (DeadLetter, Expired)
    else if m.periodic then (DeadLetter, Periodic)
    else if m.attempts >= m.threshold then (DeadLetter, ThresholdExceeded)
    else if m.retryDelay > 0 then (Delay, NoCause)
    else (Requeue, NoCause)
  }

  /** What becomes of a failed message, and why: it is dead-lettered if it has expired, is periodic or has
      used up its attempts, the first of these being the cause; otherwise it is retried, after a delay if it
      has one, and there is no cause to record. */
  lemma ResolveMeaning(m: Facts, cause: Cause)
    ensures var (action, dead) := Resolve(m, cause);
      var expired := cause == TTLExpired || m.expired;
      && (action == DeadLetter <==> expired || m.periodic || m.attempts >= m.threshold)
      && (action == Delay <==> !(expired || m.periodic || m.attempts >= m.threshold) && m.retryDelay > 0)
      && (dead == Expired <==> expired)
      && (dead == Periodic <==> !expired && m.periodic)
      && (dead == ThresholdExceeded <==> !expired && !m.periodic && m.attempts >= m.threshold)
      && (dead == NoCause <==> action != DeadLetter)
  {
  }

  // ---------------------------------------------------------------- the life of one message

  /** The message's own limits, and the process-wide defaults of new messages. */
  datatype Limits = Limits(threshold: nat, retryDelay: nat, defaultThreshold: nat, defaultRetryDelay: nat)

  datatype Life = Life(attempts: nat, deliveries: nat, dead: bool)

  /** Each time the message is popped, one of three things happens: it is checked out, which adds
      an attempt, and its delivery fails; its checkout is refused because of the queue's state; or
      its consumer dies before checking it out and the processing list is swept. */
  datatype Step = Deliver(cause: Cause) | Refuse(cause: Cause) | Orphan(cause: Cause)

  function OwnFacts(l: Limits, attempts: nat): Facts { Facts(false, false, attempts, l.threshold, l.retryDelay) }

  /** A refused checkout is judged on a stand-in message built from the defaults, with no attempts. */
  function StandInFacts(l: Limits): Facts { Facts(false, false, 0, l.defaultThreshold, l.defaultRetryDelay) }

  function Next(l: Limits, life: Life, step: Step): Life {
    if life.dead then life
    else
      match step
      case Deliver(cause) =>
        Life(life.attempts + 1, life.deliveries + 1, Resolve(OwnFacts(l, life.attempts + 1), cause).0 == DeadLetter)
      case Refuse(cause) => life.(dead := Resolve(StandInFacts(l), cause).0 == DeadLetter)
      case Orphan(cause) => life.(dead := Resolve(OwnFacts(l, life.attempts), cause).0 == DeadLetter)
  }

  function Run(l: Limits, steps: seq<Step>): Life {
    if steps == [] then Life(0, 0, false) else Next(l, Run(l, steps[..|steps| - 1]), steps[|steps| - 1])
  }

  predicate NeverExpires(steps: seq<Step>) { forall i :: 0 <= i < |steps| ==> steps[i].cause != TTLExpired }

  predicate Refused(steps: seq<Step>) { exists i :: 0 <= i < |steps| && steps[i].Refuse? }

  predicate Orphaned(steps: seq<Step>) { exists i :: 0 <= i < |steps| && steps[i].Orphan? }

  function Bound(l: Limits): nat { if l.threshold < 1 then 1 else l.threshold }

  /** Dead-lettered exactly when the bound on deliveries has been reached, and never beyond it. */
  predicate Exact(l: Limits, life: Life) {
    life.deliveries <= Bound(l) && (life.dead <==> life.deliveries == Bound(l))
  }

  lemma {:induction false} RunExact(l: Limits, steps: seq<Step>)
    requires NeverExpires(steps)
    requires Refused(steps) ==> l.defaultThreshold > 0
    requires Orphaned(steps) ==> l.threshold > 0
    ensures Exact(l, Run(l, steps)) && Run(l, steps).attempts == Run(l, steps).deliveries
  {
    if steps != [] {
      var before := steps[..|steps| - 1];
      assert forall i :: 0 <= i < |before| ==> before[i] == steps[i];
      RunExact(l, before);
    }
  }

  /** Whatever mix of retries, refusals and dead consumers: an always-failing message is
      dead-lettered after exactly max(1, threshold) deliveries in every run, if and only if both
      its own threshold and the default threshold are positive. */
  lemma DeliveriesExactIff(l: Limits)
    ensures (forall steps :: NeverExpires(steps) ==> Exact(l, Run(l, steps)))
        <==> l.threshold > 0 && l.defaultThreshold > 0
  {
    if l.threshold > 0 && l.defaultThreshold > 0 {
      forall steps | NeverExpires(steps) ensures Exact(l, Run(l, steps)) {
        RunExact(l, steps);
      }
    } else if l.threshold == 0 {
      OneStep(l, Orphan(OfflineConsumer));
    } else {
      OneStep(l, Refuse(QueueStopped));
    }
  }

  /** The shortest failing runs: dead-lettered without a single delivery. */
  lemma OneStep(l: Limits, step: Step)
    requires
      || (step == Orphan(OfflineConsumer) && l.threshold == 0)
      || (step == Refuse(QueueStopped) && l.defaultThreshold == 0)
    ensures NeverExpires([step]) && Run(l, [step]) == Life(0, 0, true) && !Exact(l, Run(l, [step]))
  {
    assert [step][..0] == [];
  }

  /** With deliveries alone, no condition is needed. */
  lemma DeliveriesOnly(l: Limits, steps: seq<Step>)
    requires NeverExpires(steps) && forall i :: 0 <= i < |steps| ==> steps[i].Deliver?
    ensures Run(l, steps).dead <==> |steps| >= Bound(l)
    ensures Run(l, steps).deliveries == if |steps| < Bound(l) then |steps| else Bound(l)
  {
    RunExact(l, steps);
    CountDeliveries(l, steps);
  }

  lemma {:induction false} CountDeliveries(l: Limits, steps: seq<Step>)
    requires NeverExpires(steps) && forall i :: 0 <= i < |steps| ==> steps[i].Deliver?
    ensures Run(l, steps).deliveries == if |steps| < Bound(l) then |steps| else Bound(l)
  {
    if steps != [] {
      var before := steps[..|steps| - 1];
      assert forall i :: 0 <= i < |before| ==> before[i] == steps[i];
      CountDeliveries(l, before);
      RunExact(l, before);
    }
  }
}
