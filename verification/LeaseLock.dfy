/** The distributed worker lock: one Redis key with an expiry, set by SET NX PX, extended and
    deleted by owner-checked scripts, under a clock that may advance between any two commands. */
module LeaseLock {
  type Owner = string

  /** The lock key. An expired key is gone as far as every command is concerned. */
  datatype Key = Absent | Held(owner: Owner, expiry: nat)

  predicate Live(key: Key, now: nat) { key.Held? && now < key.expiry }

  // ---------------------------------------------------------------- the three commands

  function SetNx(key: Key, now: nat, owner: Owner, ttl: nat): (Key, bool) {
    if Live(key, now) then (key, false) else (Held(owner, now + ttl), true)
  }

  function ExtendScript(key: Key, now: nat, owner: Owner, ttl: nat): (Key, bool) {
    if Live(key, now) && key.owner == owner then (Held(owner, now + ttl), true) else (key, false)
  }

  /** Its reply is not looked at. */
  function ReleaseScript(key: Key, now: nat, owner: Owner): Key {
    if Live(key, now) && key.owner == owner then Absent else key
  }

  /** A script run by anyone but the owner of a live lease leaves that lease alone. */
  lemma StaleHolderHarmless(key: Key, now: nat, owner: Owner, ttl: nat)
    requires Live(key, now) && key.owner != owner
    ensures SetNx(key, now, owner, ttl) == (key, false)
    ensures ExtendScript(key, now, owner, ttl) == (key, false)
    ensures ReleaseScript(key, now, owner) == key
  {
  }

  // ---------------------------------------------------------------- many locks

  /** A lock object among others. `lastOk` is when its last SET or extend was confirmed, `lastRun` when the
      last one ran on the server whether or not the reply came back, `timely` that no gap between
      two of them has reached the ttl since the lock was acquired, and `maybeReleased` that a release
      has run on the server without its reply coming back. */
  datatype Lock = Lock(
    owner: Owner, ttl: nat, acquired: bool, maybeReleased: bool, lastOk: nat, lastRun: nat, timely: bool)

  datatype Sys = Sys(now: nat, key: Key, locks: map<nat, Lock>)

  datatype Loss = Delivered | RequestLost | ReplyLost

  datatype Step =
    | Tick(elapsed: nat)
    | TryAcquire(id: nat, loss: Loss)
    | Extend(id: nat, loss: Loss)
    | Release(id: nat, loss: Loss)

  predicate Enabled(s: Sys, step: Step) {
    match step
    case Tick(_) => true
    case TryAcquire(id, _) => id in s.locks && !s.locks[id].acquired
    case Extend(id, _) => id in s.locks && s.locks[id].acquired
    case Release(id, _) => id in s.locks && s.locks[id].acquired
  }

  function NextAcquire(s: Sys, id: nat, loss: Loss): Sys
    requires Enabled(s, TryAcquire(id, loss))
  {
    var l := s.locks[id];
    var (key', ok) := SetNx(s.key, s.now, l.owner, l.ttl);
    if loss == RequestLost then s
    else if loss == ReplyLost || !ok then s.(key := key')
    else
      var held := l.(acquired := true, maybeReleased := false, lastOk := s.now, lastRun := s.now, timely := true);
      s.(key := key', locks := s.locks[id := held])
  }

  function NextExtend(s: Sys, id: nat, loss: Loss): Sys
    requires Enabled(s, Extend(id, loss))
  {
    var l := s.locks[id];
    var (key', ok) := ExtendScript(s.key, s.now, l.owner, l.ttl);
    if loss == RequestLost then s
    else
      var lastOk := if ok && loss == Delivered then s.now else l.lastOk;
      s.(key := key', locks := s.locks[id := l.(lastOk := lastOk, lastRun := s.now)])
  }

  function NextRelease(s: Sys, id: nat, loss: Loss): Sys
    requires Enabled(s, Release(id, loss))
  {
    var l := s.locks[id];
    var key' := ReleaseScript(s.key, s.now, l.owner);
    match loss
    case RequestLost => s
    case ReplyLost => s.(key := key', locks := s.locks[id := l.(maybeReleased := true)])
    case Delivered => s.(key := key', locks := s.locks[id := l.(acquired := false)])
  }

  function Next(s: Sys, step: Step): Sys
    requires Enabled(s, step)
  {
    match step
    case Tick(d) =>
      var now' := s.now + d;
      s.(now := now', locks := map id | id in s.locks ::
        s.locks[id].(timely := s.locks[id].timely && now' < s.locks[id].lastRun + s.locks[id].ttl))
    case TryAcquire(id, loss) => NextAcquire(s, id, loss)
    case Extend(id, loss) => NextExtend(s, id, loss)
    case Release(id, loss) => NextRelease(s, id, loss)
  }

  predicate Initial(s: Sys) {
    && s.key == Absent
    && (forall id :: id in s.locks ==> !s.locks[id].acquired && s.locks[id].lastOk <= s.now && s.locks[id].ttl > 0)
  }

  predicate DistinctOwners(s: Sys) {
    forall i, j :: i in s.locks && j in s.locks && i != j ==> s.locks[i].owner != s.locks[j].owner
  }

  ghost predicate IsRun(states: seq<Sys>, steps: seq<Step>) {
    && |states| == |steps| + 1
    && Initial(states[0]) && DistinctOwners(states[0])
    && forall i :: 0 <= i < |steps| ==> Enabled(states[i], steps[i]) && states[i + 1] == Next(states[i], steps[i])
  }

  // ---------------------------------------------------------------- one lock object

  class Server {
    var now: nat
    var key: Key

    constructor ()
      ensures key == Absent && now == 0
    {
      key := Absent;
      now := 0;
    }
  }

  /** A lock object, with the history the machine keeps of it. Each command may lose its request or its
      reply on the way; then it returns an error. */
  class WorkerLock {
    const owner: Owner
    const ttl: nat
    var acquired: bool
    ghost var maybeReleased: bool
    ghost var lastOk: nat
    ghost var lastRun: nat
    ghost var timely: bool

    constructor (owner: Owner, ttl: nat, server: Server)
      ensures this.owner == owner && this.ttl == ttl && !acquired && lastOk <= server.now
    {
      this.owner := owner;
      this.ttl := ttl;
      acquired := false;
      maybeReleased, lastOk, lastRun, timely := false, 0, 0, false;
    }

    /** The system as far as this lock is concerned. */
    ghost function View(server: Server): Sys
      reads this, server
    {
      Sys(server.now, server.key, map[0 := Lock(owner, ttl, acquired, maybeReleased, lastOk, lastRun, timely)])
    }

    /** One round of `Acquire` on a lock that is not acquired yet. */
    method TryAcquire(server: Server, loss: Loss) returns (ok: bool)
      modifies this, server
      ensures old(acquired) ==> !ok && View(server) == old(View(server))
      ensures !old(acquired) ==> View(server) == NextAcquire(old(View(server)), 0, loss)
      ensures ok <==> !old(acquired) && loss == Delivered && !Live(old(server.key), server.now)
      ensures acquired == (old(acquired) || ok)
      ensures server.key ==
        if !old(acquired) && loss != RequestLost && !Live(old(server.key), server.now)
        then Held(owner, server.now + ttl) else old(server.key)
    {
      if acquired {
        return false;
      }
      if loss == RequestLost {
        return false;
      }
      var reply := SetNx(server.key, server.now, owner, ttl);
      server.key := reply.0;
      if loss == ReplyLost || !reply.1 {
        return false;
      }
      acquired := true;
      maybeReleased, lastOk, lastRun, timely := false, server.now, server.now, true;
      ok := true;
    }

    /** One tick of the refresh loop. The reply is ignored: a lock that lost its lease keeps
        reporting itself as acquired, but cannot touch the new owner's lease. */
    method Refresh(server: Server, loss: Loss)
      modifies this, server
      ensures !old(acquired) ==> View(server) == old(View(server))
      ensures old(acquired) ==> View(server) == NextExtend(old(View(server)), 0, loss)
      ensures acquired == old(acquired)
      ensures server.key ==
        if old(acquired) && loss != RequestLost && Live(old(server.key), server.now) && old(server.key).owner == owner
        then Held(owner, server.now + ttl) else old(server.key)
    {
      if acquired && loss != RequestLost {
        var reply := ExtendScript(server.key, server.now, owner, ttl);
        server.key := reply.0;
        lastRun := server.now;
        if reply.1 && loss == Delivered {
          lastOk := server.now;
        }
      }
    }

    /** Deletes the key if it is still the lock's own; the lock stays acquired when that is not confirmed. */
    method Release(server: Server, loss: Loss) returns (ok: bool)
      modifies this, server
      ensures !old(acquired) ==> ok && View(server) == old(View(server))
      ensures old(acquired) ==> View(server) == NextRelease(old(View(server)), 0, loss)
      ensures ok <==> !acquired
      ensures server.key ==
        if old(acquired) && loss != RequestLost && Live(old(server.key), server.now) && old(server.key).owner == owner
        then Absent else old(server.key)
      ensures ok <==> !old(acquired) || loss == Delivered
    {
      if !acquired {
        return true;
      }
      if loss == RequestLost {
        return false;
      }
      server.key := ReleaseScript(server.key, server.now, owner);
      if loss == ReplyLost {
        maybeReleased := true;
        return false;
      }
      acquired := false;
      ok := true;
    }
  }

  // ---------------------------------------------------------------- the invariant

  /** Acquired, without an unanswered release, and within ttl of the last confirmed SET or extend. */
  predicate Holding(s: Sys, id: nat)
    requires id in s.locks
  {
    var l := s.locks[id];
    l.acquired && !l.maybeReleased && s.now < l.lastOk + l.ttl
  }

  /** Acquired, without an unanswered release, and refreshed in time ever since. */
  predicate Refreshed(s: Sys, id: nat)
    requires id in s.locks
  {
    var l := s.locks[id];
    l.acquired && !l.maybeReleased && l.timely
  }

  predicate LockInv(s: Sys, id: nat)
    requires id in s.locks
  {
    var l := s.locks[id];
    && l.lastOk <= s.now && l.ttl > 0
    && (Holding(s, id) ==> s.key.Held? && s.key.owner == l.owner && l.lastOk + l.ttl <= s.key.expiry)
    && (Refreshed(s, id) ==> s.key == Held(l.owner, l.lastRun + l.ttl) && s.now < l.lastRun + l.ttl)
  }

  predicate Inv(s: Sys) {
    DistinctOwners(s) && forall id :: id in s.locks ==> LockInv(s, id)
  }

  lemma TickKept(s: Sys, d: nat)
    requires Inv(s)
    ensures Inv(Next(s, Tick(d)))
  {
    var s' := Next(s, Tick(d));
    forall id | id in s'.locks ensures LockInv(s', id) {
      assert LockInv(s, id);
    }
  }

  /** A command of one lock is invisible to another that holds or is refreshed. */
  lemma OthersKept(s: Sys, step: Step, id: nat)
    requires Inv(s) && Enabled(s, step) && !step.Tick? && id in s.locks && id != step.id
    ensures LockInv(Next(s, step), id)
  {
    assert LockInv(s, id);
    if Holding(s, id) || Refreshed(s, id) {
      StaleHolderHarmless(s.key, s.now, s.locks[step.id].owner, s.locks[step.id].ttl);
    }
  }

  lemma AcquireKept(s: Sys, id: nat, loss: Loss)
    requires Inv(s) && Enabled(s, TryAcquire(id, loss))
    ensures LockInv(NextAcquire(s, id, loss), id)
  {
    assert LockInv(s, id);
  }

  lemma ExtendKept(s: Sys, id: nat, loss: Loss)
    requires Inv(s) && Enabled(s, Extend(id, loss))
    ensures LockInv(NextExtend(s, id, loss), id)
  {
    assert LockInv(s, id);
  }

  lemma ReleaseKept(s: Sys, id: nat, loss: Loss)
    requires Inv(s) && Enabled(s, Release(id, loss))
    ensures LockInv(NextRelease(s, id, loss), id)
  {
    assert LockInv(s, id);
  }

  lemma CommandKept(s: Sys, step: Step)
    requires Inv(s) && Enabled(s, step) && !step.Tick?
    ensures Inv(Next(s, step))
  {
    var s' := Next(s, step);
    assert forall i :: i in s'.locks ==> i in s.locks && s'.locks[i].owner == s.locks[i].owner;
    forall id | id in s'.locks ensures LockInv(s', id) {
      if id != step.id {
        OthersKept(s, step, id);
      } else {
        match step
        case TryAcquire(_, loss) => AcquireKept(s, id, loss);
        case Extend(_, loss) => ExtendKept(s, id, loss);
        case Release(_, loss) => ReleaseKept(s, id, loss);
      }
    }
  }

  lemma {:induction false} RunInv(states: seq<Sys>, steps: seq<Step>, i: nat)
    requires IsRun(states, steps) && i < |states|
    ensures Inv(states[i])
  {
    if i > 0 {
      RunInv(states, steps, i - 1);
      if steps[i - 1].Tick? {
        TickKept(states[i - 1], steps[i - 1].elapsed);
      } else {
        CommandKept(states[i - 1], steps[i - 1]);
      }
    }
  }

  // ---------------------------------------------------------------- the theorems

  /** At no instant of any timed run do two locks hold at once. */
  lemma MutualExclusion(states: seq<Sys>, steps: seq<Step>, i: nat, a: nat, b: nat)
    requires IsRun(states, steps) && i < |states|
    requires a in states[i].locks && b in states[i].locks
    requires Holding(states[i], a) && Holding(states[i], b)
    ensures a == b
  {
    RunInv(states, steps, i);
    assert LockInv(states[i], a) && LockInv(states[i], b);
  }

  /** An answered attempt acquires exactly when no lease is live, and the lease then is the lock's own. */
  lemma AcquiresIff(states: seq<Sys>, steps: seq<Step>, i: nat, a: nat)
    requires IsRun(states, steps) && i < |steps| && steps[i] == TryAcquire(a, Delivered)
    ensures a in states[i].locks && a in states[i + 1].locks
    ensures states[i + 1].locks[a].acquired <==> !Live(states[i].key, states[i].now)
    ensures states[i + 1].locks[a].acquired ==> Holding(states[i + 1], a) && Refreshed(states[i + 1], a)
  {
    RunInv(states, steps, i);
    assert LockInv(states[i], a);
  }

  /** An extend that runs renews the lease of a lock that owns the live key for a whole ttl, and when it is
      answered the lock knows; one that never arrives changes nothing. */
  lemma ExtendRenews(states: seq<Sys>, steps: seq<Step>, i: nat, a: nat)
    requires IsRun(states, steps) && i < |steps| && steps[i].Extend? && steps[i].id == a
    ensures a in states[i].locks && a in states[i + 1].locks
    ensures steps[i].loss == RequestLost ==> states[i + 1] == states[i]
    ensures var s, l := states[i], states[i].locks[a];
      steps[i].loss != RequestLost && Live(s.key, s.now) && s.key.owner == l.owner ==>
        && states[i + 1].key == Held(l.owner, s.now + l.ttl)
        && (steps[i].loss == Delivered ==> states[i + 1].locks[a].lastOk == s.now)
        && (steps[i].loss == Delivered && !l.maybeReleased ==> Holding(states[i + 1], a))
  {
    RunInv(states, steps, i);
    assert LockInv(states[i], a);
  }

  /** A lock that holds gives the key back: right after its release has been answered no lease is live, so
      any lock that asks next gets it. */
  lemma ReleaseFrees(states: seq<Sys>, steps: seq<Step>, i: nat, a: nat, b: nat)
    requires IsRun(states, steps) && i + 1 < |steps| && steps[i] == Release(a, Delivered) && Holding(states[i], a)
    requires b in states[i].locks && steps[i + 1] == TryAcquire(b, Delivered)
    ensures !states[i + 1].locks[a].acquired && !Live(states[i + 1].key, states[i + 1].now)
    ensures states[i + 2].locks[b].acquired && Holding(states[i + 2], b)
  {
    RunInv(states, steps, i);
    assert LockInv(states[i], a);
    AcquiresIff(states, steps, i + 1, b);
  }

  /** Acquired and within ttl of the last confirmed SET or extend, whatever became of a release. */
  predicate InTerm(s: Sys, id: nat)
    requires id in s.locks
  {
    s.locks[id].acquired && s.now < s.locks[id].lastOk + s.locks[id].ttl
  }

  /** Two acquired locks within ttl: then a release of one of them ran without a reply, and the other
      still owns the key unless its own did too. */
  lemma OverlapNeedsLostReply(states: seq<Sys>, steps: seq<Step>, i: nat, a: nat, b: nat)
    requires IsRun(states, steps) && i < |states| && a != b
    requires a in states[i].locks && b in states[i].locks && InTerm(states[i], a) && InTerm(states[i], b)
    ensures states[i].locks[a].maybeReleased || states[i].locks[b].maybeReleased
    ensures !states[i].locks[b].maybeReleased ==> states[i].key.Held? && states[i].key.owner == states[i].locks[b].owner
  {
    RunInv(states, steps, i);
    assert LockInv(states[i], a) && LockInv(states[i], b);
  }

  /** The flag says just that: it is set exactly when, since the lock was last acquired, a release of it
      ran without a reply. */
  lemma {:induction false} MaybeReleasedIff(states: seq<Sys>, steps: seq<Step>, i: nat, j: nat, a: nat)
    requires IsRun(states, steps) && i <= j < |states| && a in states[i].locks
    requires states[i].locks[a].acquired && !states[i].locks[a].maybeReleased
    requires forall k :: i <= k <= j ==> a in states[k].locks && states[k].locks[a].acquired
    ensures states[j].locks[a].maybeReleased <==> exists k :: i <= k < j && steps[k] == Release(a, ReplyLost)
  {
    if i < j {
      MaybeReleasedIff(states, steps, i, j - 1, a);
      assert states[j] == Next(states[j - 1], steps[j - 1]);
      assert states[j].locks[a].maybeReleased <==>
        states[j - 1].locks[a].maybeReleased || steps[j - 1] == Release(a, ReplyLost);
    }
  }

  /** Such a run: one lock acquires, its release runs but the reply is lost, another acquires, and both are
      acquired and within ttl. */
  lemma LostReleaseOverlaps(s: Sys, a: nat, b: nat)
    requires Initial(s) && DistinctOwners(s) && a in s.locks && b in s.locks && a != b
    ensures exists states, steps ::
      && IsRun(states, steps) && states[0] == s && BothInTerm(states[|steps|], a, b)
  {
    var s1 := Next(s, TryAcquire(a, Delivered));
    var s2 := Next(s1, Release(a, ReplyLost));
    var s3 := Next(s2, TryAcquire(b, Delivered));
    var states, steps := [s, s1, s2, s3], [TryAcquire(a, Delivered), Release(a, ReplyLost), TryAcquire(b, Delivered)];
    assert IsRun(states, steps) && states[0] == s && BothInTerm(states[|steps|], a, b);
  }

  predicate BothInTerm(s: Sys, a: nat, b: nat) { a in s.locks && b in s.locks && InTerm(s, a) && InTerm(s, b) }

  /** While a lock holds, no command of any other lock, stale holders included, changes the key. */
  lemma HolderUndisturbed(states: seq<Sys>, steps: seq<Step>, i: nat, a: nat)
    requires IsRun(states, steps) && i < |steps| && a in states[i].locks && Holding(states[i], a)
    requires !steps[i].Tick? && steps[i].id != a
    ensures states[i + 1].key == states[i].key && a in states[i + 1].locks && Holding(states[i + 1], a)
  {
    RunInv(states, steps, i);
    var s, step := states[i], steps[i];
    assert LockInv(s, a);
    StaleHolderHarmless(s.key, s.now, s.locks[step.id].owner, s.locks[step.id].ttl);
  }

  /** A holder whose refreshes have all come in time still owns a live key, and nobody else holds:
      it is not displaced before it releases. */
  lemma TimelyHolderKeepsKey(states: seq<Sys>, steps: seq<Step>, i: nat, a: nat)
    requires IsRun(states, steps) && i < |states| && a in states[i].locks && Refreshed(states[i], a)
    ensures Live(states[i].key, states[i].now) && states[i].key.owner == states[i].locks[a].owner
    ensures ExtendScript(states[i].key, states[i].now, states[i].locks[a].owner, states[i].locks[a].ttl).1
    ensures forall b :: b in states[i].locks && b != a ==> !Holding(states[i], b)
    ensures forall b, loss :: b in states[i].locks && b != a && !states[i].locks[b].acquired ==>
      !NextAcquire(states[i], b, loss).locks[b].acquired
  {
    RunInv(states, steps, i);
    assert LockInv(states[i], a);
    forall b | b in states[i].locks && b != a ensures !Holding(states[i], b) {
      assert LockInv(states[i], b);
    }
  }

  /** A refresh interval below the ttl is enough: as long as the clock never passes
      `lastRun + interval`, the holder counts as refreshed in time. */
  lemma {:induction false} IntervalBelowTtl(states: seq<Sys>, steps: seq<Step>, i: nat, j: nat, a: nat, interval: nat)
    requires IsRun(states, steps) && i <= j < |states|
    requires a in states[i].locks && Refreshed(states[i], a) && interval < states[i].locks[a].ttl
    requires forall k :: i <= k <= j ==>
      a in states[k].locks && states[k].locks[a].acquired && !states[k].locks[a].maybeReleased
    requires forall k :: i <= k <= j ==> states[k].now <= states[k].locks[a].lastRun + interval
    ensures Refreshed(states[j], a) && states[j].locks[a].ttl == states[i].locks[a].ttl
  {
    if i < j {
      IntervalBelowTtl(states, steps, i, j - 1, a, interval);
      assert states[j] == Next(states[j - 1], steps[j - 1]);
    }
  }

  /** The `acquired` flag alone is no lease: in a run of three steps, one lock acquires, its ttl passes, and
      another acquires while the first still reports itself as acquired. */
  lemma LapsedHolderOverlaps(s: Sys, a: nat, b: nat)
    requires Initial(s) && DistinctOwners(s) && a in s.locks && b in s.locks && a != b
    ensures exists states, steps ::
      && IsRun(states, steps) && states[0] == s && Overlap(states[|steps|], a, b)
  {
    var s1 := Next(s, TryAcquire(a, Delivered));
    var s2 := Next(s1, Tick(s.locks[a].ttl));
    var s3 := Next(s2, TryAcquire(b, Delivered));
    var states, steps := [s, s1, s2, s3], [TryAcquire(a, Delivered), Tick(s.locks[a].ttl), TryAcquire(b, Delivered)];
    assert IsRun(states, steps) && states[0] == s && Overlap(states[|steps|], a, b);
  }

  /** Both report themselves as acquired, but only the second still holds. */
  predicate Overlap(s: Sys, a: nat, b: nat) {
    && a in s.locks && b in s.locks && s.locks[a].acquired && s.locks[b].acquired
    && !Holding(s, a) && Holding(s, b)
  }
}
