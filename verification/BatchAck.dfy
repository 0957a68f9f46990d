/** The batch acknowledger: ids are buffered and handed over in batches, when a batch is full,
    when the timer fires, on Flush and on Shutdown. Each of these is one atomic step here. */
module BatchAck {

  datatype Config = Config(enabled: bool, batchSize: int)

  /** `completed` counts the dispatched batches whose acknowledgement has returned. */
  datatype Batcher = Batcher(buffer: seq<string>, armed: bool, dispatched: seq<seq<string>>, completed: nat)

  datatype Step = Ack(id: string) | TimerFires | Flush | Shutdown | BatchReturns

  function Drain(b: Batcher): Batcher {
    if b.buffer == [] then b
    else b.(buffer := [], armed := false, dispatched := b.dispatched + [b.buffer])
  }

  function AckStep(cfg: Config, b: Batcher, id: string): Batcher {
    if !cfg.enabled then b.(dispatched := b.dispatched + [[id]], completed := b.completed + 1)
    else
      var b' := b.(buffer := b.buffer + [id], armed := true);
      if |b'.buffer| >= cfg.batchSize then Drain(b') else b'
  }

  function Next(cfg: Config, b: Batcher, step: Step): Batcher {
    match step
    case Ack(id) => AckStep(cfg, b, id)
    case TimerFires => if b.armed then Drain(b) else b
    case Flush => Drain(b)
    case Shutdown =>
      var b' := Drain(b.(armed := false));
      b'.(completed := |b'.dispatched|)
    case BatchReturns => if b.completed < |b.dispatched| then b.(completed := b.completed + 1) else b
  }

  const EMPTY: Batcher := Batcher([], false, [], 0)

  function Run(cfg: Config, steps: seq<Step>): Batcher {
    if steps == [] then EMPTY else Next(cfg, Run(cfg, steps[..|steps| - 1]), steps[|steps| - 1])
  }

  // ---------------------------------------------------------------- the acker

  class BatchAcker {
    const cfg: Config
    var buffer: seq<string>
    var armed: bool
    var dispatched: seq<seq<string>>
    var completed: nat

    function View(): Batcher
      reads this
    {
      Batcher(buffer, armed, dispatched, completed)
    }

    constructor (cfg: Config)
      ensures this.cfg == cfg && View() == EMPTY
    {
      this.cfg := cfg;
      buffer, armed, dispatched, completed := [], false, [], 0;
    }

    method FlushLocked()
      modifies this
      ensures View() == Drain(old(View()))
    {
      if |buffer| == 0 {
        return;
      }
      var ids := buffer;
      buffer := [];
      if armed {
        armed := false;
      }
      dispatched := dispatched + [ids];
    }

    method Ack(id: string)
      modifies this
      ensures View() == Next(cfg, old(View()), Step.Ack(id))
    {
      if !cfg.enabled {
        dispatched := dispatched + [[id]];
        completed := completed + 1;
        return;
      }
      buffer := buffer + [id];
      if !armed {
        armed := true;
      }
      if |buffer| >= cfg.batchSize {
        if armed {
          armed := false;
        }
        FlushLocked();
      }
    }

    method Shutdown()
      modifies this
      ensures View() == Next(cfg, old(View()), Step.Shutdown)
    {
      if armed {
        armed := false;
      }
      FlushLocked();
      completed := |dispatched|;
    }
  }

  // ---------------------------------------------------------------- conservation

  /** The ids acknowledged in a run, in order. */
  function AckedIds(steps: seq<Step>): seq<string> {
    if steps == [] then []
    else AckedIds(steps[..|steps| - 1]) + match steps[|steps| - 1] case Ack(id) => [id] case _ => []
  }

  function Flatten(batches: seq<seq<string>>): seq<string> {
    if batches == [] then [] else Flatten(batches[..|batches| - 1]) + batches[|batches| - 1]
  }

  function MaxBatch(cfg: Config): int { if cfg.batchSize < 1 then 1 else cfg.batchSize }

  ghost predicate Inv(cfg: Config, b: Batcher) {
    && b.completed <= |b.dispatched|
    && |b.buffer| < MaxBatch(cfg)
    && (b.armed <==> b.buffer != [])
    && forall i :: 0 <= i < |b.dispatched| ==> 1 <= |b.dispatched[i]| <= MaxBatch(cfg)
  }

  lemma DrainConserves(b: Batcher)
    ensures Flatten(Drain(b).dispatched) + Drain(b).buffer == Flatten(b.dispatched) + b.buffer
  {
    if b.buffer != [] {
      FlattenSnoc(b.dispatched, b.buffer);
    }
  }

  lemma NextKeepsInv(cfg: Config, b: Batcher, step: Step)
    requires Inv(cfg, b) && (!cfg.enabled ==> b.buffer == [])
    ensures Inv(cfg, Next(cfg, b, step)) && (!cfg.enabled ==> Next(cfg, b, step).buffer == [])
  {
  }

  lemma FlattenSnoc(batches: seq<seq<string>>, batch: seq<string>)
    ensures Flatten(batches + [batch]) == Flatten(batches) + batch
  {
    assert (batches + [batch])[..|batches|] == batches;
  }

  lemma AckConserves(cfg: Config, b: Batcher, id: string)
    requires !cfg.enabled ==> b.buffer == []
    ensures var b' := AckStep(cfg, b, id);
      Flatten(b'.dispatched) + b'.buffer == Flatten(b.dispatched) + b.buffer + [id]
  {
    hide Flatten, Drain;
    if cfg.enabled {
      DrainConserves(b.(buffer := b.buffer + [id], armed := true));
      assert Flatten(b.dispatched) + (b.buffer + [id]) == Flatten(b.dispatched) + b.buffer + [id];
    } else {
      FlattenSnoc(b.dispatched, [id]);
    }
  }

  lemma NextConserves(cfg: Config, b: Batcher, step: Step)
    requires !cfg.enabled ==> b.buffer == []
    ensures var b' := Next(cfg, b, step);
      Flatten(b'.dispatched) + b'.buffer
      == Flatten(b.dispatched) + b.buffer + match step case Ack(id) => [id] case _ => []
  {
    hide Flatten, Drain, AckStep;
    match step
    case Ack(id) => AckConserves(cfg, b, id);
    case TimerFires => DrainConserves(b);
    case Flush => DrainConserves(b);
    case Shutdown => DrainConserves(b.(armed := false));
    case BatchReturns =>
  }

  /** In every run the batches sent, followed by the buffer, are exactly the acknowledged ids in
      order; a batch has between one id and the batch size; a timer is armed exactly while
      something is buffered. A batch size below one works like one. */
  lemma {:induction false} BatchesConserve(cfg: Config, steps: seq<Step>)
    ensures var b := Run(cfg, steps);
      && Flatten(b.dispatched) + b.buffer == AckedIds(steps)
      && Inv(cfg, b)
      && (!cfg.enabled ==> b.buffer == [])
  {
    if steps != [] {
      var before := steps[..|steps| - 1];
      BatchesConserve(cfg, before);
      NextKeepsInv(cfg, Run(cfg, before), steps[|steps| - 1]);
      NextConserves(cfg, Run(cfg, before), steps[|steps| - 1]);
    }
  }

  /** When batches leave: an Ack sends the buffer exactly when the new id fills it to the batch size, and then
      all of it as one batch; the timer and a Flush send whatever is there; nothing else sends anything. */
  lemma BatchLeavesIff(cfg: Config, steps: seq<Step>, step: Step)
    requires cfg.enabled
    ensures var b, b' := Run(cfg, steps), Next(cfg, Run(cfg, steps), step);
      match step
      case Ack(id) =>
        if |b.buffer| + 1 >= cfg.batchSize then b'.dispatched == b.dispatched + [b.buffer + [id]] && b'.buffer == []
        else b'.dispatched == b.dispatched && b'.buffer == b.buffer + [id]
      case BatchReturns =>
        && b'.dispatched == b.dispatched && b'.buffer == b.buffer && b'.armed == b.armed
        && b'.completed == if b.completed == |b.dispatched| then b.completed else b.completed + 1
      case _ =>
        && b'.buffer == []
        && b'.dispatched == b.dispatched + if b.buffer == [] then [] else [b.buffer]
  {
    BatchesConserve(cfg, steps);
    var b := Run(cfg, steps);
    assert b.dispatched + [] == b.dispatched;
  }

  /** Without batching every id goes out at once, on its own. */
  lemma UnbatchedAtOnce(cfg: Config, steps: seq<Step>, id: string)
    requires !cfg.enabled
    ensures var b, b' := Run(cfg, steps), Next(cfg, Run(cfg, steps), Ack(id));
      b'.dispatched == b.dispatched + [[id]] && b'.completed == b.completed + 1 && b'.buffer == []
  {
    BatchesConserve(cfg, steps);
  }

  /** After Shutdown nothing is buffered, nothing is in flight, and every id has gone out. */
  lemma ShutdownComplete(cfg: Config, steps: seq<Step>)
    ensures var b := Run(cfg, steps + [Shutdown]);
      && b.buffer == [] && !b.armed && b.completed == |b.dispatched|
      && Flatten(b.dispatched) == AckedIds(steps)
  {
    var all := steps + [Shutdown];
    assert all[..|all| - 1] == steps;
    BatchesConserve(cfg, all);
    assert AckedIds(all) == AckedIds(steps);
  }
}
