/** What every interleaving of exchange transactions guarantees: the routing index, the commits of each
    call, the stored type, and the queues' exchange lists. */
module ExchangeRuns {
  import opened Text
  import opened Keys
  import opened ExchangeIndex
  import opened ExchangeCommit
  import opened ExchangeRace

  // ---------------------------------------------------------------- the routing index

  /** At every point of every interleaving, failed reads and lost replies included, a routing key is
      registered exactly when some queue is bound under it. */
  lemma RoutingIndexExact(states: seq<Sys>, steps: seq<Step>, i: nat)
    requires IsRun(states, steps) && i < |states|
    ensures RegistryExact(states[i].db)
  {
    hide Replays, SightedRegular, Agree, Ops, RegistryExact;
    RunInv(states, steps, i);
    ReplayRegistryExact(Ops(states[i].log));
    AgreeExact(states[i].db, Replay(Ops(states[i].log)));
  }

  /** Every interleaving agrees, on everything but the queues' exchange lists, with the replay of its
      commits one after the other; and if no bind among them was blind, that replay is the serial run
      of the same operations, all of which succeed. */
  lemma InterleavingIsSerial(states: seq<Sys>, steps: seq<Step>, i: nat)
    requires IsRun(states, steps) && i < |states|
    ensures var log := states[i].log;
      && Replays(Ops(log)) && Agree(states[i].db, Replay(Ops(log)))
      && ((forall k :: 0 <= k < |log| ==> !log[k].blind) ==>
           && RunAll(map[], Ops(log)) == Replay(Ops(log))
           && forall k :: 0 <= k < |log| ==> Apply(RunAll(map[], Ops(log)[..k]), Ops(log)[k]).1 == Ok)
  {
    hide Replay, Sound, Agree, Irregular, Apply, RunAll, Inv;
    RunInv(states, steps, i);
    var log := states[i].log;
    if forall k :: 0 <= k < |log| ==> !log[k].blind {
      forall k | 0 <= k < |Ops(log)| ensures !Irregular(Replay(Ops(log)[..k]), Ops(log)[k]) {
        assert Ops(log[..k]) == Ops(log)[..k];
      }
      RegularReplayIsSerial(Ops(log));
    }
  }

  // ---------------------------------------------------------------- calls and commits

  predicate CommitsAt(step: Step, id: nat) { step == ExecOk(id) || step == ExecLost(id) }

  /** What a step of anybody does to the bookkeeping of one client. */
  lemma StepOutcome(s: Sys, step: Step, id: nat)
    requires SysInv(s) && Enabled(s, step)
    ensures var s' := Next(s, step);
      && Commits(s'.log, id) == Commits(s.log, id) + (if CommitsAt(step, id) then 1 else 0)
      && (id in s'.clients && s'.clients[id].phase == Done(Ok) <==>
            (id in s.clients && s.clients[id].phase == Done(Ok)) || step == ExecOk(id))
  {
    hide Commits, Decide, Commit, Apply, Ops, Replays, SightedRegular, Agree, ReaderInv;
    var c := id in s.clients;
    if c {
      assert ClientInv(s, id);
    }
    if step.ExecOk? || step.ExecLost? {
      var call := s.clients[step.id].call;
      CommitsSnoc(s.log, Entry(Some(step.id), OpOf(call), Blind(call, s.clients[step.id].phase.seen)), id);
    } else if step.Environment? {
      CommitsSnoc(s.log, Entry(None, step.op, false), id);
    }
  }

  lemma {:induction false} OutcomeTrace(states: seq<Sys>, steps: seq<Step>, i: nat, id: nat)
    requires IsRun(states, steps) && i < |states|
    ensures Commits(states[i].log, id) > 0 <==> exists k :: 0 <= k < i && CommitsAt(steps[k], id)
    ensures id in states[i].clients && states[i].clients[id].phase == Done(Ok) <==>
      exists k :: 0 <= k < i && steps[k] == ExecOk(id)
  {
    hide SysInv, Next, Enabled;
    if i > 0 {
      OutcomeTrace(states, steps, i - 1, id);
      RunInv(states, steps, i - 1);
      StepOutcome(states[i - 1], steps[i - 1], id);
    }
  }

  /** A call that returned nil committed exactly once, and no call commits twice. One that returned an
      error committed nothing, if and only if its connection was not lost between EXEC and the reply:
      then, and only then, it committed once, and the error is the lost connection. Exhaustion is
      reported after all allowed aborts and no sooner. */
  lemma CallsCommitOnce(states: seq<Sys>, steps: seq<Step>, i: nat, id: nat)
    requires IsRun(states, steps) && i < |states| && id in states[i].clients
    ensures var c := states[i].clients[id];
      && Commits(states[i].log, id) <= 1
      && (c.phase == Done(Ok) ==> Commits(states[i].log, id) == 1)
      && (!c.phase.Done? ==> Commits(states[i].log, id) == 0)
      && (c.phase.Done? && c.phase.outcome != Ok ==>
           (Commits(states[i].log, id) == 0 <==> forall k :: 0 <= k < i ==> steps[k] != ExecLost(id)))
      && (Commits(states[i].log, id) == 1 && c.phase != Done(Ok) ==> c.phase == Done(Err(ConnectionFailed)))
      && (c.phase == Done(Err(RetriesExhausted)) <==> c.aborts == if c.call.CreateCall? then 3 else 5)
      && c.aborts <= 5
  {
    hide Commits, Next, Enabled, Replays, SightedRegular, Agree, ReaderInv;
    RunInv(states, steps, i);
    assert ClientInv(states[i], id);
    OutcomeTrace(states, steps, i, id);
  }

  // ---------------------------------------------------------------- undisturbed calls

  /** Everything the transaction has read is true of one database. */
  predicate AllTrue(db: Db, seen: seq<Read>) {
    forall i :: 0 <= i < |seen| ==> seen[i].ok && seen[i].value == Get(db, seen[i].key)
  }

  lemma BindDecidesSerially(db: Db, call: Call, seen: seq<Read>)
    requires call.BindCall? && CallError(call).None? && Legit(call, seen) && AllTrue(db, seen)
    ensures Decide(call, seen).Refuse? ==> Apply(db, OpOf(call)) == (db, Err(Decide(call, seen).error))
    ensures Decide(call, seen).Exec? ==> Apply(db, OpOf(call)).1 == Ok
  {
    hide BindingError, BindEffect, ArgError;
    if |seen| > 0 {
      LegitAt(call, seen, 0);
    }
    if |seen| > 1 {
      LegitAt(call, seen, 1);
      assert seen[..1][0] == seen[0];
    }
    if |seen| > 2 {
      LegitAt(call, seen, 2);
      assert seen[..2][0] == seen[0] && seen[..2][1] == seen[1];
    }
    EmptyQueueRefused(call.exchange, Get(db, PropsKey(call.exchange)));
  }

  lemma EmptyQueueRefused(ex: Exchange, props: set<Elem>)
    ensures BindingError(ex, {}, props) == Some(QueueNotFound)
  {
  }

  lemma UnbindDecidesSerially(db: Db, call: Call, seen: seq<Read>)
    requires call.UnbindCall? && CallError(call).None? && Legit(call, seen) && AllTrue(db, seen)
    ensures Decide(call, seen).Refuse? ==> Apply(db, OpOf(call)) == (db, Err(Decide(call, seen).error))
    ensures Decide(call, seen).Exec? ==> Apply(db, OpOf(call)).1 == Ok
  {
    hide TypeError, UnbindEffect, ArgError, ScanHit, Unscanned;
    if |seen| > 0 {
      LegitAt(call, seen, 0);
    }
    if |seen| > 1 {
      LegitAt(call, seen, 1);
      assert seen[..1][0] == seen[0];
    }
  }

  /** A transaction whose reads are all true of one database comes to what the serial operation comes to on
      it: the same refusal, or a commit where that succeeds. */
  lemma DecidesSerially(db: Db, call: Call, seen: seq<Read>)
    requires CallError(call).None? && Legit(call, seen) && AllTrue(db, seen)
    ensures Decide(call, seen).Refuse? ==> Apply(db, OpOf(call)) == (db, Err(Decide(call, seen).error))
    ensures Decide(call, seen).Exec? ==> Apply(db, OpOf(call)).1 == Ok
  {
    match call
    case BindCall(_, _, _) => BindDecidesSerially(db, call, seen);
    case UnbindCall(_, _, _) => UnbindDecidesSerially(db, call, seen);
    case CreateCall(_, _) =>
      if |seen| > 0 {
        LegitAt(call, seen, 0);
      }
  }

  /** And it comes to that: a bind or create needs at most three reads, and every read of an unbind's scan
      leaves fewer slots to scan. */
  lemma ReadsComeToAnEnd(call: Call, seen: seq<Read>, r: Read)
    requires Legit(call, seen) && Decide(call, seen).Need? && r.key in Decide(call, seen).keys
    ensures !call.UnbindCall? ==> |seen| < 3
    ensures call.UnbindCall? && |seen| >= 3 ==>
      || Decide(call, seen + [r]).Exec?
      || Unscanned(call.exchange, call.rk, seen + [r]) < Unscanned(call.exchange, call.rk, seen)
  {
    hide BindingError, TypeError, RegisteredWords;
    if call.UnbindCall? && |seen| >= 3 {
      var ex, rk, more := call.exchange, call.rk, seen + [r];
      assert more[..|seen|] == seen && more[0] == seen[0] && more[1] == seen[1] && more[2] == seen[2];
      if r.key != SlotKey(ex, rk) {
        ScanShrinks(ex, rk, seen, r);
      }
    }
  }

  lemma ScanShrinks(ex: Exchange, rk: string, seen: seq<Read>, r: Read)
    requires |seen| >= 3 && r.key in Unscanned(ex, rk, seen)
    ensures Unscanned(ex, rk, seen + [r]) < Unscanned(ex, rk, seen)
  {
    hide RegisteredWords;
    var more := seen + [r];
    assert more[|seen|] == r && more[2] == seen[2];
    forall k | k in Unscanned(ex, rk, more) ensures k in Unscanned(ex, rk, seen) && k != r.key {
      var other :| other in RegisteredWords(more[2].value) && other != rk && k == SlotKey(ex, other)
        && forall i :: 3 <= i < |more| ==> more[i].key != SlotKey(ex, other);
      assert forall i :: 3 <= i < |seen| ==> more[i] == seen[i];
    }
  }

  // ---------------------------------------------------------------- the stored type

  predicate Execs(step: Step) { step.ExecOk? || step.ExecLost? }

  /** The commit of a bind whose read of the properties failed while another type was stored. */
  ghost predicate Overwriting(s: Sys, step: Step)
    requires Enabled(s, step)
  {
    && Execs(step)
    && var c := s.clients[step.id];
       Blind(c.call, c.phase.seen) && OtherTypeStored(s.db, c.call.exchange)
  }

  lemma ExecOverwrites(s: Sys, step: Step)
    requires SysInv(s) && Enabled(s, step) && Execs(step)
    ensures Overwriting(s, step) <==> Overwrites(s.db, OpOf(s.clients[step.id].call))
  {
    hide SysInv, Commit, Effect, Agree, OtherTypeStored, Irregular, Sound, Decide;
    var op := OpOf(s.clients[step.id].call);
    CommitIsEffect(s, step.id);
    if Overwrites(s.db, op) {
      OverwritesIrregular(s.db, op);
    }
  }

  ghost predicate Deletes(step: Step, ns: string, name: string) {
    step.Environment? && step.op.DeleteOp? && Concerns(step.op, ns, name)
  }

  lemma TypeStepIff(s: Sys, step: Step, ns: string, name: string)
    requires SysInv(s) && Enabled(s, step) && TypeIn(s.db, ns, name).Some?
    ensures TypeIn(Next(s, step).db, ns, name) != TypeIn(s.db, ns, name) <==>
      || Deletes(step, ns, name)
      || (Overwriting(s, step) && Concerns(OpOf(s.clients[step.id].call), ns, name))
  {
    hide SysInv, Apply, Commit, Effect, Overwriting, Overwrites, Irregular, Sound, TypeIn, Decide;
    if Execs(step) {
      var c := s.clients[step.id];
      CommitIsEffect(s, step.id);
      ExecOverwrites(s, step);
      EffectTypeIff(s.db, OpOf(c.call), ns, name);
      TypeAgree(Commit(s.db, c.call, c.phase.seen), Effect(s.db, OpOf(c.call)), ns, name);
    } else if step.Environment? {
      EnvironmentIsEffect(s.db, step.op);
      EffectTypeIff(s.db, step.op, ns, name);
      EnvironmentOverwritesNothing(s, step);
    } else {
      QuietStep(s, step);
    }
  }

  lemma TypeAgree(a: Db, b: Db, ns: string, name: string)
    requires Agree(a, b)
    ensures TypeIn(a, ns, name) == TypeIn(b, ns, name)
  {
    hide StoredType, Get;
  }

  lemma EnvironmentOverwritesNothing(s: Sys, step: Step)
    requires Enabled(s, step) && step.Environment?
    ensures !Overwrites(s.db, step.op) && !Overwriting(s, step)
  {
  }

  lemma QuietStep(s: Sys, step: Step)
    requires Enabled(s, step) && !Execs(step) && !step.Environment?
    ensures Next(s, step).db == s.db && !Overwriting(s, step)
  {
    hide Decide;
  }

  /** In any run, the stored type of an existing exchange changes at a step exactly when the exchange is
      deleted or a bind of another type, whose read of the properties failed, commits. */
  lemma TypeChangesIff(states: seq<Sys>, steps: seq<Step>, i: nat, ns: string, name: string)
    requires IsRun(states, steps) && i < |steps| && TypeIn(states[i].db, ns, name).Some?
    ensures TypeIn(states[i + 1].db, ns, name) != TypeIn(states[i].db, ns, name) <==>
      || Deletes(steps[i], ns, name)
      || (Overwriting(states[i], steps[i]) && Concerns(OpOf(states[i].clients[steps[i].id].call), ns, name))
  {
    hide SysInv, Overwriting, TypeIn, Next, Enabled;
    RunInv(states, steps, i);
    TypeStepIff(states[i], steps[i], ns, name);
  }

  /** Once an exchange exists its stored type never changes until it is deleted, even when first binds
      and creates of different types race on a fresh name, as long as no bind of it commits after a
      failed read of its properties. */
  lemma {:induction false} StoredTypeStable(states: seq<Sys>, steps: seq<Step>, i: nat, j: nat,
                                            ns: string, name: string)
    requires IsRun(states, steps) && i <= j < |states|
    requires TypeIn(states[i].db, ns, name).Some?
    requires forall k :: i <= k < j ==> !Deletes(steps[k], ns, name) && !Overwriting(states[k], steps[k])
    ensures TypeIn(states[j].db, ns, name) == TypeIn(states[i].db, ns, name)
  {
    hide SysInv, Next, Enabled, Overwriting, Deletes, TypeIn;
    if i < j {
      StoredTypeStable(states, steps, i, j - 1, ns, name);
      RunInv(states, steps, j - 1);
      TypeStepIff(states[j - 1], steps[j - 1], ns, name);
    }
  }

  /** While the catalogues list exactly the exchanges that exist, they go on doing so after a step
      exactly when it overwrites no type. */
  lemma CatalogueStepIff(s: Sys, step: Step)
    requires SysInv(s) && Enabled(s, step) && CatalogueExact(s.db)
    ensures CatalogueExact(Next(s, step).db) <==> !Overwriting(s, step)
  {
    hide SysInv, Apply, Commit, Effect, Overwriting, Overwrites, Irregular, Sound, CatalogueExact, Agree, Decide;
    if Execs(step) {
      var c := s.clients[step.id];
      CommitIsEffect(s, step.id);
      ExecOverwrites(s, step);
      EffectCatalogueIff(s.db, OpOf(c.call));
      AgreeExact(Commit(s.db, c.call, c.phase.seen), Effect(s.db, OpOf(c.call)));
      AgreeSym(Commit(s.db, c.call, c.phase.seen), Effect(s.db, OpOf(c.call)));
      AgreeExact(Effect(s.db, OpOf(c.call)), Commit(s.db, c.call, c.phase.seen));
    } else if step.Environment? {
      EnvironmentIsEffect(s.db, step.op);
      EffectCatalogueIff(s.db, step.op);
      EnvironmentOverwritesNothing(s, step);
    } else {
      QuietStep(s, step);
    }
  }

  lemma AgreeSym(a: Db, b: Db)
    requires Agree(a, b)
    ensures Agree(b, a)
  {
  }

  lemma TypesStep(s: Sys, step: Step)
    requires SysInv(s) && Enabled(s, step) && RegistryExact(s.db) && TypesExact(s.db) && !Overwriting(s, step)
    ensures TypesExact(Next(s, step).db)
  {
    hide SysInv, Apply, Commit, Effect, Overwriting, Overwrites, Irregular, Sound, RegistryExact, TypesExact;
    hide Agree, Decide;
    if Execs(step) {
      var c := s.clients[step.id];
      CommitIsEffect(s, step.id);
      ExecOverwrites(s, step);
      EffectKeepsTypes(s.db, OpOf(c.call));
      AgreeExact(Commit(s.db, c.call, c.phase.seen), Effect(s.db, OpOf(c.call)));
    } else if step.Environment? {
      EnvironmentIsEffect(s.db, step.op);
      EnvironmentOverwritesNothing(s, step);
      EffectKeepsTypes(s.db, step.op);
    } else {
      QuietStep(s, step);
    }
  }

  /** Until a type is overwritten, bindings exist only under the stored type and the catalogues list
      exactly the exchanges that exist; the catalogues are wrong as soon as one is. */
  lemma {:induction false} TypesExactUntilOverwrite(states: seq<Sys>, steps: seq<Step>, j: nat)
    requires IsRun(states, steps) && j < |states|
    ensures (forall i :: 0 <= i < j ==> !Overwriting(states[i], steps[i])) ==> TypesExact(states[j].db)
    ensures (forall i :: 0 <= i <= j ==> CatalogueExact(states[i].db))
        <==> forall i :: 0 <= i < j ==> !Overwriting(states[i], steps[i])
  {
    hide SysInv, Next, Enabled, Overwriting, TypesExact, CatalogueExact, RegistryExact;
    if j == 0 {
      NothingStored();
    } else {
      TypesExactUntilOverwrite(states, steps, j - 1);
      RunInv(states, steps, j - 1);
      RoutingIndexExact(states, steps, j - 1);
      if forall i :: 0 <= i < j - 1 ==> !Overwriting(states[i], steps[i]) {
        CatalogueStepIff(states[j - 1], steps[j - 1]);
        if !Overwriting(states[j - 1], steps[j - 1]) {
          TypesStep(states[j - 1], steps[j - 1]);
        }
      }
    }
  }

  // ---------------------------------------------------------------- the queues' exchange lists

  /** An unbind that commits on a scan result that is no longer true. */
  ghost predicate Misled(s: Sys, step: Step)
    requires Enabled(s, step)
  {
    && Execs(step)
    && var c := s.clients[step.id];
    && c.call.UnbindCall?
    && ScanHit(c.call.queue, c.call.exchange, c.call.rk, c.phase.seen)
         != StillBound(s.db, c.call.queue, c.call.exchange, c.call.rk)
  }

  /** While the lists are exact, they stay so after a step exactly when it is no misled unbind. */
  lemma BackIndexStepIff(s: Sys, step: Step)
    requires SysInv(s) && Enabled(s, step) && RegistryExact(s.db) && BackIndexExact(s.db)
    ensures BackIndexExact(Next(s, step).db) <==> !Misled(s, step)
  {
    hide Apply, Effect, Sound, Irregular, RegistryExact, BackIndexExact, StillBound, ScanHit, UnbindEffect;
    hide Decide, Agree, Replays, SightedRegular, ReaderInv, Commits;
    if Execs(step) {
      var c := s.clients[step.id];
      assert ClientInv(s, step.id);
      CommitIsEffect(s, step.id);
      if c.call.UnbindCall? {
        UnbindFacts(s.db, c);
        UnbindBackIndexIff(s.db, c.call.queue, c.call.exchange, c.call.rk,
                           ScanHit(c.call.queue, c.call.exchange, c.call.rk, c.phase.seen));
      } else {
        EffectKeepsBackIndex(s.db, OpOf(c.call));
        OtherCommit(s.db, c.call, c.phase.seen);
      }
    } else if step.Environment? {
      EnvironmentIsEffect(s.db, step.op);
      EffectKeepsBackIndex(s.db, step.op);
    } else {
      QuietStep(s, step);
    }
  }

  lemma OtherCommit(db: Db, call: Call, seen: seq<Read>)
    requires |seen| > 0 && !call.UnbindCall?
    ensures Commit(db, call, seen) == Effect(db, OpOf(call))
  {
    hide BindEffect, CreateEffect;
  }

  /** The lists are exact up to some point of a run exactly when no unbind before it was misled. */
  lemma {:induction false} BackIndexRunIff(states: seq<Sys>, steps: seq<Step>, j: nat)
    requires IsRun(states, steps) && j < |states|
    ensures (forall i :: 0 <= i <= j ==> BackIndexExact(states[i].db))
        <==> forall i :: 0 <= i < j ==> !Misled(states[i], steps[i])
  {
    hide SysInv, Next, Enabled, Misled, BackIndexExact, RegistryExact;
    if j == 0 {
      NothingStored();
    } else {
      BackIndexRunIff(states, steps, j - 1);
      RunInv(states, steps, j - 1);
      RoutingIndexExact(states, steps, j - 1);
      if forall i :: 0 <= i <= j - 1 ==> BackIndexExact(states[i].db) {
        BackIndexStepIff(states[j - 1], steps[j - 1]);
        assert states[j] == Next(states[j - 1], steps[j - 1]);
      }
    }
  }

  // ---------------------------------------------------------------- unbinds that nobody disturbs

  /** Somebody else commits a bind or unbind of the same queue and exchange. */
  ghost predicate Rival(s: Sys, step: Step, id: nat)
    requires Enabled(s, step)
  {
    && Execs(step) && step.id != id && id in s.clients
    && var mine, other := s.clients[id].call, s.clients[step.id].call;
       !other.CreateCall? && !mine.CreateCall? && (other.queue, other.exchange) == (mine.queue, mine.exchange)
  }

  /** The slots an unbind has read still show its queue as it is. */
  ghost predicate Accurate(db: Db, call: Call, seen: seq<Read>)
    requires call.UnbindCall?
  {
    forall i, rk :: 0 <= i < |seen| && seen[i].key == SlotKey(call.exchange, rk) ==>
      (QueueRef(call.queue) in seen[i].value <==> Bound(db, call.exchange, rk, call.queue))
  }

  /** Which bindings of a queue to an exchange a commit changes. */
  lemma EffectBindings(db: Db, op: Op, q: Queue, ex: Exchange, rk: string)
    requires Sound(db, op) && RegistryExact(db) && Routable(ex)
    requires (op.BindOp? || op.UnbindOp?) ==> (op.queue, op.exchange) != (q, ex)
    ensures Bound(Effect(db, op), ex, rk, q) <==> Bound(db, ex, rk, q)
  {
    hide BindEffect, UnbindEffect, DeleteEffect, CreateEffect, ArgError, StillBound, RegistryExact;
    hide StoredType, StoredPolicy;
    match op
    case BindOp(q', ex', rk') => BindSlots(db, q', ex', rk', ex, rk);
    case UnbindOp(q', ex', rk') => UnbindSlots(db, q', ex', rk', StillBound(db, q', ex', rk'), ex, rk);
    case DeleteOp(ex') => DeleteKeepsRegistry(db, ex');
    case CreateOp(ex', policy) => CreateAt(db, ex', policy, SlotKey(ex, rk));
    case NewQueueOp(_, _) =>
  }

  lemma AccurateKept(s: Sys, step: Step, id: nat)
    requires SysInv(s) && Enabled(s, step) && RegistryExact(s.db)
    requires id in s.clients && s.clients[id].call.UnbindCall? && s.clients[id].phase.Reading?
    requires Accurate(s.db, s.clients[id].call, s.clients[id].phase.seen) && !Rival(s, step, id)
    ensures var s' := Next(s, step);
      && id in s'.clients && s'.clients[id].call == s.clients[id].call
      && (s'.clients[id].phase.Reading? ==> Accurate(s'.db, s'.clients[id].call, s'.clients[id].phase.seen))
  {
    hide Apply, Effect, Sound, Irregular, RegistryExact, Decide, Agree, Commit, Replays, SightedRegular;
    hide Commits, ReaderInv, Get;
    var s', c := Next(s, step), s.clients[id];
    assert ClientInv(s, id);
    if Execs(step) && step.id != id {
      var rival := s.clients[step.id];
      CommitIsEffect(s, step.id);
      forall rk
        ensures Bound(s'.db, c.call.exchange, rk, c.call.queue) <==> Bound(s.db, c.call.exchange, rk, c.call.queue)
      {
        EffectBindings(s.db, OpOf(rival.call), c.call.queue, c.call.exchange, rk);
        AgreeOn(s'.db, Effect(s.db, OpOf(rival.call)), SlotKey(c.call.exchange, rk));
      }
    } else if step.Environment? {
      EnvironmentIsEffect(s.db, step.op);
      forall rk
        ensures Bound(s'.db, c.call.exchange, rk, c.call.queue) <==> Bound(s.db, c.call.exchange, rk, c.call.queue)
      {
        EffectBindings(s.db, step.op, c.call.queue, c.call.exchange, rk);
      }
    }
  }

  /** From WATCH on, while no rival commits, everything the unbind has read of its queue stays true. */
  lemma {:induction false} AccurateSince(states: seq<Sys>, steps: seq<Step>, w: nat, k: nat, id: nat)
    requires IsRun(states, steps) && w < k < |states| && steps[w] == Watch(id)
    requires id in states[w].clients && states[w].clients[id].call.UnbindCall?
    requires forall m :: w < m < k ==> steps[m] != Watch(id) && !Rival(states[m], steps[m], id)
    ensures id in states[k].clients && states[k].clients[id].call == states[w].clients[id].call
    ensures states[k].clients[id].phase.Reading? ==>
      Accurate(states[k].db, states[k].clients[id].call, states[k].clients[id].phase.seen)
  {
    hide SysInv, Decide, Commit, Apply, Rival, RegistryExact;
    assert states[w + 1] == Next(states[w], steps[w]);
    if k > w + 1 {
      AccurateSince(states, steps, w, k - 1, id);
      RunInv(states, steps, k - 1);
      RoutingIndexExact(states, steps, k - 1);
      assert states[k] == Next(states[k - 1], steps[k - 1]);
      if states[k - 1].clients[id].phase.Reading? {
        AccurateKept(states[k - 1], steps[k - 1], id);
      } else {
        StaysAway(states[k - 1], steps[k - 1], id);
      }
    }
  }

  lemma StaysAway(s: Sys, step: Step, id: nat)
    requires SysInv(s) && Enabled(s, step) && id in s.clients && !s.clients[id].phase.Reading? && step != Watch(id)
    ensures var s' := Next(s, step);
      id in s'.clients && s'.clients[id].call == s.clients[id].call && !s'.clients[id].phase.Reading?
  {
    hide SysInv, Decide, Commit, Apply;
  }

  /** A scan over accurate reads of all registered keys finds another binding exactly when there is one. */
  lemma AccurateScan(db: Db, c: Client)
    requires c.phase.Reading? && c.call.UnbindCall? && ReaderInv(db, c) && !c.phase.dirty && Routable(c.call.exchange)
    requires Decide(c.call, c.phase.seen).Exec? && RegistryExact(db)
    requires Accurate(db, c.call, c.phase.seen)
    ensures ScanHit(c.call.queue, c.call.exchange, c.call.rk, c.phase.seen)
        <==> StillBound(db, c.call.queue, c.call.exchange, c.call.rk)
  {
    var q, ex, rk, seen := c.call.queue, c.call.exchange, c.call.rk, c.phase.seen;
    assert Legit(c.call, seen);
    hide Decide, Legit, ReaderInv, Get, RegistryExact;
    UnbindFacts(db, c);
    ScanComplete(c.call, seen);
    if ScanHit(q, ex, rk, seen) {
      ScanHitBound(db, c.call, seen);
    } else if StillBound(db, q, ex, rk) {
      var other :| Registered(db, ex, other) && other != rk && Bound(db, ex, other, q);
      assert other in RegisteredWords(seen[2].value);
      var i :| 3 <= i < |seen| && seen[i].key == SlotKey(ex, other);
      SlotKeyInjective(ex, other, ex, rk);
      assert false;
    }
  }

  lemma ScannedSlot(call: Call, seen: seq<Read>, i: nat)
    requires call.UnbindCall? && Legit(call, seen) && 3 <= i < |seen| && seen[i].key != SlotKey(call.exchange, call.rk)
    ensures exists other :: other != call.rk && seen[i].key == SlotKey(call.exchange, other)
  {
    hide ScanHit, TypeError, RegisteredWords;
    LegitAt(call, seen, i);
    hide Legit;
    assert seen[i].key in Unscanned(call.exchange, call.rk, seen[..i]);
  }

  /** Everything scanned was the slot of another key, so a hit is a binding. */
  lemma ScanHitBound(db: Db, call: Call, seen: seq<Read>)
    requires call.UnbindCall? && Legit(call, seen) && Routable(call.exchange)
    requires RegistryExact(db) && Accurate(db, call, seen)
    requires ScanHit(call.queue, call.exchange, call.rk, seen)
    ensures StillBound(db, call.queue, call.exchange, call.rk)
  {
    hide Decide, Get, Legit;
    var q, ex, rk := call.queue, call.exchange, call.rk;
    var i :| 3 <= i < |seen| && seen[i].key != SlotKey(ex, rk) && QueueRef(q) in seen[i].value;
    ScannedSlot(call, seen, i);
    var other :| other != rk && seen[i].key == SlotKey(ex, other);
    assert Bound(db, ex, other, q);
    assert Get(db, SlotKey(ex, other)) != {};
    assert Registered(db, ex, other);
  }

  /** An unbind that reached EXEC without a hit has read the slot of every other registered key. */
  lemma ScanComplete(call: Call, seen: seq<Read>)
    requires call.UnbindCall? && Legit(call, seen) && Decide(call, seen).Exec? && Routable(call.exchange)
    ensures |seen| > 3
    ensures !ScanHit(call.queue, call.exchange, call.rk, seen) ==>
      forall other :: other in RegisteredWords(seen[2].value) && other != call.rk ==>
        exists i :: 3 <= i < |seen| && seen[i].key == SlotKey(call.exchange, other)
  {
    var n := |seen| - 1;
    UnbindReads(call, seen);
    if !ScanHit(call.queue, call.exchange, call.rk, seen) {
      LegitAt(call, seen, n);
      var before := seen[..n];
      assert before[2] == seen[2];
      NotYetScanned(call, before);
      forall other | other in RegisteredWords(seen[2].value) && other != call.rk
        ensures exists i :: 3 <= i < |seen| && seen[i].key == SlotKey(call.exchange, other)
      {
        assert SlotKey(call.exchange, other) !in Unscanned(call.exchange, call.rk, before);
        var i :| 3 <= i < |before| && before[i].key == SlotKey(call.exchange, other);
        assert seen[i].key == SlotKey(call.exchange, other);
      }
    }
  }

  lemma NotYetScanned(call: Call, before: seq<Read>)
    requires call.UnbindCall? && Routable(call.exchange) && |before| >= 3
    requires Decide(call, before).Need? && SlotKey(call.exchange, call.rk) in Decide(call, before).keys
    ensures ScanHit(call.queue, call.exchange, call.rk, before) || Unscanned(call.exchange, call.rk, before) == {}
  {
    forall other | other != call.rk ensures SlotKey(call.exchange, other) != SlotKey(call.exchange, call.rk) {
      SlotKeyInjective(call.exchange, other, call.exchange, call.rk);
    }
  }

  /** An unbind is never misled when, between its last WATCH and its EXEC, nobody else commits a bind or
      unbind of the same queue and exchange. */
  lemma UndisturbedNotMisled(states: seq<Sys>, steps: seq<Step>, w: nat, i: nat)
    requires IsRun(states, steps) && w < i < |steps| && Execs(steps[i]) && steps[w] == Watch(steps[i].id)
    requires forall m :: w < m < i ==> steps[m] != Watch(steps[i].id) && !Rival(states[m], steps[m], steps[i].id)
    ensures !Misled(states[i], steps[i])
  {
    hide Commit, Apply, Rival, RegistryExact, Decide, ScanHit, StillBound, Accurate, Replays, SightedRegular;
    hide Agree, Commits, ReaderInv;
    var s, id := states[i], steps[i].id;
    RunInv(states, steps, i);
    RoutingIndexExact(states, steps, i);
    assert ClientInv(s, id);
    SameCall(states, steps, w, i, id);
    if s.clients[id].call.UnbindCall? {
      AccurateSince(states, steps, w, i, id);
      AccurateScan(s.db, s.clients[id]);
    }
  }

  lemma KeepsCall(s: Sys, step: Step, id: nat)
    requires Enabled(s, step) && id in s.clients
    ensures id in Next(s, step).clients && Next(s, step).clients[id].call == s.clients[id].call
  {
    hide Decide, Commit, Apply;
  }

  lemma {:induction false} SameCall(states: seq<Sys>, steps: seq<Step>, w: nat, i: nat, id: nat)
    requires IsRun(states, steps) && w <= i < |states| && id in states[w].clients
    ensures id in states[i].clients && states[i].clients[id].call == states[w].clients[id].call
  {
    hide Enabled, Next;
    if w < i {
      SameCall(states, steps, w, i - 1, id);
      KeepsCall(states[i - 1], steps[i - 1], id);
    }
  }

  /** The step commits, and since the last WATCH of its client no rival has. */
  ghost predicate Undisturbed(states: seq<Sys>, steps: seq<Step>, i: nat)
    requires IsRun(states, steps) && i < |steps| && Execs(steps[i])
  {
    exists w :: 0 <= w < i && UndisturbedSince(states, steps, w, i)
  }

  ghost predicate UndisturbedSince(states: seq<Sys>, steps: seq<Step>, w: nat, i: nat)
    requires IsRun(states, steps) && w < i < |steps| && Execs(steps[i])
  {
    && steps[w] == Watch(steps[i].id)
    && forall m :: w < m < i ==> steps[m] != Watch(steps[i].id) && !Rival(states[m], steps[m], steps[i].id)
  }

  /** The step commits an unbind. */
  ghost predicate Unbinds(s: Sys, step: Step)
    requires Enabled(s, step)
  {
    Execs(step) && s.clients[step.id].call.UnbindCall?
  }

  /** When no committing unbind has been disturbed, the lists are exact throughout. */
  lemma UndisturbedRunsExact(states: seq<Sys>, steps: seq<Step>, j: nat)
    requires IsRun(states, steps) && j < |states|
    requires forall i :: 0 <= i < j && Unbinds(states[i], steps[i]) ==> Undisturbed(states, steps, i)
    ensures BackIndexExact(states[j].db)
  {
    hide Enabled, Next, Misled, BackIndexExact;
    forall i | 0 <= i < j ensures !Misled(states[i], steps[i]) {
      if Unbinds(states[i], steps[i]) {
        var w :| 0 <= w < i && UndisturbedSince(states, steps, w, i);
        UndisturbedNotMisled(states, steps, w, i);
      } else {
        OnlyUnbindsMisled(states[i], steps[i]);
      }
    }
    BackIndexRunIff(states, steps, j);
  }

  lemma OnlyUnbindsMisled(s: Sys, step: Step)
    requires Enabled(s, step) && !Unbinds(s, step)
    ensures !Misled(s, step)
  {
  }
}
