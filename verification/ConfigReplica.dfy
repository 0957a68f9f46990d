/** The shared configuration record and the managers that replicate it: version-checked saves,
    update events, epochs and reloads. Configurations are values here. */
module ConfigReplica {
  import opened Text

  type Config = string
  type Epoch = string

  const NO_EPOCH: Epoch := ""

  datatype Versioned = Versioned(version: nat, config: Config)

  /** The stored hash; version 0 stands for an absent record. */
  datatype Store = Store(version: nat, config: Config, epoch: Epoch)

  datatype Event = Event(value: Versioned, epoch: Epoch)

  /** The save script: store the data under `expected + 1` if the stored version is `expected`. */
  function SaveScript(store: Store, expected: nat, config: Config): (r: (Store, Option<nat>))
    ensures r.1.None? ==> r.0 == store && store.version != expected
    ensures r.1.Some? ==> r.1.value == r.0.version == store.version + 1 && r.0.config == config
  {
    if store.version == expected then (Store(expected + 1, config, store.epoch), Some(expected + 1))
    else (store, None)
  }

  // ---------------------------------------------------------------- many managers

  /** What a manager holding its mutex is in the middle of. */
  datatype Work =
    | Free
    | Saving(config: Config)                      // about to run the script on its own version
    | Creating                                    // about to run the script on version 0
    | Stamping(value: Versioned, announce: bool)  // saved, about to write the epoch
    | Announcing(value: Versioned)                // about to publish the event
    | Loading                                     // about to read the record
    | Adopting(value: Versioned)                  // read a record without epoch, about to write one

  datatype Replica = Replica(instance: Option<Versioned>, epoch: Epoch, work: Work)

  /** Events stay available for ever, so they may arrive late, in any order, and more than once.
      `history` lists the configuration stored under each version. */
  datatype Sys = Sys(
    store: Store,
    replicas: map<nat, Replica>,
    events: set<Event>,
    history: seq<Config>,
    defaults: Config)

  datatype Step =
    | StartInit(id: nat)
    | StartReload(id: nat)
    | StartSave(id: nat, config: Config, uuid: Epoch)
    | Close(id: nat)
    | RunScript(id: nat, replyLost: bool)
    | Stamp(id: nat)
    | Announce(id: nat)
    | Load(id: nat, uuid: Epoch, failed: bool)
    | Adopt(id: nat)
    | Fail(id: nat)
    | Deliver(id: nat, event: Event)

  predicate Enabled(s: Sys, step: Step) {
    && step.id in s.replicas
    && var m := s.replicas[step.id];
       match step
       case StartInit(_) => m.work.Free? && m.instance.None?
       case StartReload(_) => m.work.Free? && m.instance.Some?
       case StartSave(_, _, _) => m.work.Free? && m.instance.Some?
       case Close(_) => m.work.Free?
       case RunScript(_, _) => (m.work.Saving? && m.instance.Some?) || m.work.Creating?
       case Stamp(_) => m.work.Stamping?
       case Announce(_) => m.work.Announcing?
       case Load(_, _, _) => m.work.Loading?
       case Adopt(_) => m.work.Adopting?
       case Fail(_) => !m.work.Free?
       case Deliver(_, e) => m.work.Free? && e in s.events
  }

  function Put(s: Sys, id: nat, m: Replica): Sys { s.(replicas := s.replicas[id := m]) }

  function NextScript(s: Sys, id: nat, replyLost: bool): Sys
    requires Enabled(s, RunScript(id, replyLost))
  {
    var m := s.replicas[id];
    var expected := if m.work.Saving? then m.instance.value.version else 0;
    var config := if m.work.Saving? then m.work.config else s.defaults;
    var (store', version) := SaveScript(s.store, expected, config);
    if version.None? then Put(s, id, m.(work := Free))
    else
      var work := if replyLost then Free else Stamping(Versioned(version.value, config), m.work.Saving?);
      Put(s.(store := store', history := s.history + [config]), id, m.(work := work))
  }

  function NextLoad(s: Sys, id: nat, uuid: Epoch, failed: bool): Sys
    requires Enabled(s, Load(id, uuid, failed))
  {
    var m := s.replicas[id];
    if failed || s.store.version == 0 then Put(s, id, m.(epoch := uuid, work := Creating))
    else
      var value := Versioned(s.store.version, s.store.config);
      if s.store.epoch == NO_EPOCH then Put(s, id, m.(epoch := uuid, work := Adopting(value)))
      else Put(s, id, Replica(Some(value), s.store.epoch, Free))
  }

  function Next(s: Sys, step: Step): Sys
    requires Enabled(s, step)
  {
    var m := s.replicas[step.id];
    match step
    case StartInit(id) => Put(s, id, m.(work := Loading))
    case StartReload(id) => Put(s, id, m.(work := Loading))
    case StartSave(id, config, uuid) =>
      Put(s, id, m.(work := Saving(config), epoch := if m.epoch == NO_EPOCH then uuid else m.epoch))
    case Close(id) => Put(s, id, m.(instance := None))
    case RunScript(id, replyLost) => NextScript(s, id, replyLost)
    case Stamp(id) =>
      Put(s.(store := s.store.(epoch := m.epoch)), id,
          m.(instance := Some(m.work.value), work := if m.work.announce then Announcing(m.work.value) else Free))
    case Announce(id) => Put(s.(events := s.events + {Event(m.work.value, m.epoch)}), id, m.(work := Free))
    case Load(id, uuid, failed) => NextLoad(s, id, uuid, failed)
    case Adopt(id) =>
      Put(s.(store := s.store.(epoch := m.epoch)), id, m.(instance := Some(m.work.value), work := Free))
    case Fail(id) => Put(s, id, m.(work := Free))
    case Deliver(id, e) =>
      if m.instance.Some? && e.epoch == m.epoch && e.value.version > m.instance.value.version
      then Put(s, id, m.(instance := Some(e.value)))
      else s
  }

  // ---------------------------------------------------------------- one manager at work

  /** The steps lead from one state to the other. */
  ghost predicate Leads(s: Sys, steps: seq<Step>, t: Sys)
    decreases |steps|
  {
    if steps == [] then s == t else Enabled(s, steps[0]) && Leads(Next(s, steps[0]), steps[1..], t)
  }

  lemma LeadsOne(s: Sys, a: Step)
    requires Enabled(s, a)
    ensures Leads(s, [a], Next(s, a))
  {
  }

  lemma {:induction false} LeadsThen(s: Sys, steps: seq<Step>, t: Sys, a: Step)
    requires Leads(s, steps, t) && Enabled(t, a)
    ensures Leads(s, steps + [a], Next(t, a))
    decreases |steps|
  {
    hide Enabled, Next;
    if steps == [] {
      LeadsOne(s, a);
      assert steps + [a] == [a];
    } else {
      LeadsThen(Next(s, steps[0]), steps[1..], t, a);
      assert (steps + [a])[1..] == steps[1..] + [a];
    }
  }

  lemma LeadsAfter(s: Sys, a: Step, steps: seq<Step>, t: Sys)
    requires Enabled(s, a) && Leads(Next(s, a), steps, t)
    ensures Leads(s, [a] + steps, t)
  {
    hide Enabled, Next;
    assert ([a] + steps)[1..] == steps;
  }

  datatype Result = Saved(version: nat) | Loaded | VersionMismatch | NotInitialized | Failed

  /** What can go wrong between a manager and the record. */
  datatype Fault = NoFault | ReplyLost | EpochNotWritten

  class Record {
    var store: Store
    ghost var events: set<Event>
    ghost var history: seq<Config>

    constructor ()
      ensures store == Store(0, "", NO_EPOCH) && events == {} && history == []
    {
      store := Store(0, "", NO_EPOCH);
      events, history := {}, [];
    }
  }

  /** The steps of a save, by whether the script accepts it and what goes wrong. */
  function SaveSteps(config: Config, uuid: Epoch, accepted: bool, fault: Fault): seq<Step> {
    var head := [StartSave(0, config, uuid), RunScript(0, fault == ReplyLost)];
    if !accepted || fault == ReplyLost then head
    else if fault == EpochNotWritten then head + [Fail(0)]
    else head + [Stamp(0)] + [Announce(0)]
  }

  /** Where those steps lead, for a manager on its own. */
  ghost function AfterSave(s: Sys, config: Config, uuid: Epoch, fault: Fault): Sys
    requires 0 in s.replicas && s.replicas[0].instance.Some?
  {
    var m := s.replicas[0].(epoch := if s.replicas[0].epoch == NO_EPOCH then uuid else s.replicas[0].epoch);
    var value := Versioned(s.store.version + 1, config);
    if m.instance.value.version != s.store.version then Put(s, 0, m)
    else if fault != NoFault then
      Put(s.(store := Store(value.version, config, s.store.epoch), history := s.history + [config]), 0, m)
    else
      var announced := s.events + {Event(value, m.epoch)};
      Put(s.(store := Store(value.version, config, m.epoch), history := s.history + [config], events := announced),
          0, m.(instance := Some(value)))
  }

  /** The state in which the script has run. */
  lemma SaveScripted(s: Sys, config: Config, uuid: Epoch, lost: bool) returns (m: Replica, t: Sys)
    requires 0 in s.replicas && s.replicas[0].work.Free? && s.replicas[0].instance.Some?
    ensures m == s.replicas[0].(epoch := if s.replicas[0].epoch == NO_EPOCH then uuid else s.replicas[0].epoch)
    ensures Leads(s, [StartSave(0, config, uuid), RunScript(0, lost)], t)
    ensures var value := Versioned(s.store.version + 1, config);
      t == if m.instance.value.version != s.store.version then Put(s, 0, m)
           else Put(s.(store := Store(value.version, config, s.store.epoch), history := s.history + [config]), 0,
                    if lost then m else m.(work := Stamping(value, true)))
  {
    var start, script := StartSave(0, config, uuid), RunScript(0, lost);
    m := s.replicas[0].(epoch := if s.replicas[0].epoch == NO_EPOCH then uuid else s.replicas[0].epoch);
    var s1 := Next(s, start);
    LeadsOne(s, start);
    t := Next(s1, script);
    LeadsThen(s, [start], s1, script);
    assert [start] + [script] == [start, script];
    hide Leads;
    assert s1 == Put(s, 0, m.(work := Saving(config)));
  }

  lemma StampThenAnnounce(base: Sys, m: Replica, value: Versioned)
    requires m.work.Free?
    ensures var t := Put(base, 0, m.(work := Stamping(value, true)));
      && Enabled(t, Stamp(0)) && Enabled(Next(t, Stamp(0)), Announce(0))
      && Next(Next(t, Stamp(0)), Announce(0))
         == Put(base.(store := base.store.(epoch := m.epoch), events := base.events + {Event(value, m.epoch)}), 0,
                m.(instance := Some(value)))
  {
    hide NextScript, NextLoad;
  }

  lemma StampFails(base: Sys, m: Replica, value: Versioned)
    requires m.work.Free?
    ensures var t := Put(base, 0, m.(work := Stamping(value, true)));
      Enabled(t, Fail(0)) && Next(t, Fail(0)) == Put(base, 0, m)
  {
    hide NextScript, NextLoad;
  }

  /** A manager that may save, at the record's version. */
  predicate MaySave(s: Sys) {
    && 0 in s.replicas && s.replicas[0].work.Free? && s.replicas[0].instance.Some?
    && s.replicas[0].instance.value.version == s.store.version
  }

  lemma SaveCompletes(s: Sys, config: Config, uuid: Epoch)
    requires MaySave(s)
    ensures Leads(s, SaveSteps(config, uuid, true, NoFault), AfterSave(s, config, uuid, NoFault))
  {
    hide Leads, Next, Enabled;
    var m, t := SaveScripted(s, config, uuid, false);
    var value := Versioned(s.store.version + 1, config);
    var base := s.(store := Store(value.version, config, s.store.epoch), history := s.history + [config]);
    StampThenAnnounce(base, m, value);
    LeadsThen(s, [StartSave(0, config, uuid), RunScript(0, false)], t, Stamp(0));
    LeadsThen(s, [StartSave(0, config, uuid), RunScript(0, false)] + [Stamp(0)], Next(t, Stamp(0)), Announce(0));
  }

  lemma SaveHalts(s: Sys, config: Config, uuid: Epoch)
    requires MaySave(s)
    ensures Leads(s, SaveSteps(config, uuid, true, EpochNotWritten), AfterSave(s, config, uuid, EpochNotWritten))
  {
    hide Leads, Next, Enabled;
    var m, t := SaveScripted(s, config, uuid, false);
    var value := Versioned(s.store.version + 1, config);
    var base := s.(store := Store(value.version, config, s.store.epoch), history := s.history + [config]);
    StampFails(base, m, value);
    LeadsThen(s, [StartSave(0, config, uuid), RunScript(0, false)], t, Fail(0));
  }

  lemma SaveLeads(s: Sys, config: Config, uuid: Epoch, fault: Fault)
    requires 0 in s.replicas && s.replicas[0].work.Free? && s.replicas[0].instance.Some?
    ensures var accepted := s.replicas[0].instance.value.version == s.store.version;
      Leads(s, SaveSteps(config, uuid, accepted, fault), AfterSave(s, config, uuid, fault))
  {
    hide Leads, Next, Enabled;
    if MaySave(s) && fault == NoFault {
      SaveCompletes(s, config, uuid);
    } else if MaySave(s) && fault == EpochNotWritten {
      SaveHalts(s, config, uuid);
    } else {
      var m, t := SaveScripted(s, config, uuid, fault == ReplyLost);
    }
  }

  /** The steps after a load that found no usable record. */
  function CreateSteps(accepted: bool, fault: Fault): seq<Step> {
    var head := [RunScript(0, fault == ReplyLost)];
    if !accepted || fault == ReplyLost then head
    else if fault == EpochNotWritten then head + [Fail(0)]
    else head + [Stamp(0)]
  }

  class Manager {
    var instance: Option<Versioned>
    var epoch: Epoch
    const defaults: Config

    constructor (defaults: Config)
      ensures instance == None && epoch == NO_EPOCH && this.defaults == defaults
    {
      this.defaults := defaults;
      instance := None;
      epoch := NO_EPOCH;
    }

    /** The system as far as this manager is concerned, in the middle of `work`. */
    ghost function View(r: Record, work: Work): Sys
      reads this, r
    {
      Sys(r.store, map[0 := Replica(instance, epoch, work)], r.events, r.history, defaults)
    }

    /** Runs the save script and writes the epoch. */
    method PersistLocked(r: Record, config: Config, expected: nat, uuid: Epoch, fault: Fault)
        returns (version: Option<nat>, failed: bool)
      modifies this, r
      ensures epoch == (if old(epoch) == NO_EPOCH then uuid else old(epoch)) && instance == old(instance)
      ensures r.events == old(r.events)
      ensures var (store', accepted) := SaveScript(old(r.store), expected, config);
        && r.history == (if accepted.Some? then old(r.history) + [config] else old(r.history))
        && r.store == (if accepted.Some? && fault == NoFault then store'.(epoch := epoch) else store')
        && (version.Some? <==> accepted.Some? && fault == NoFault)
        && (version.Some? ==> version == accepted)
        && (failed <==> fault == ReplyLost || (accepted.Some? && fault != NoFault))
    {
      if epoch == NO_EPOCH {
        epoch := uuid;
      }
      var saved := SaveScript(r.store, expected, config);
      r.store := saved.0;
      if saved.1.Some? {
        r.history := r.history + [config];
      }
      if fault == ReplyLost {
        return None, true;
      }
      if saved.1.None? {
        return None, false;
      }
      if fault == EpochNotWritten {
        return None, true;
      }
      r.store := r.store.(epoch := epoch);
      return saved.1, false;
    }

    /** A save takes the machine through its own steps. It goes through exactly when the manager's version
        is the stored one and nothing fails, and then moves both to the next version; when it does not, the
        manager's copy stays as it was. */
    method Save(r: Record, config: Config, uuid: Epoch, fault: Fault) returns (result: Result)
      modifies this, r
      ensures old(instance).None? ==> result == NotInitialized && View(r, Free) == old(View(r, Free))
      ensures old(instance).Some? ==>
        var accepted := old(instance).value.version == old(r.store).version;
        Leads(old(View(r, Free)), SaveSteps(config, uuid, accepted, fault), View(r, Free))
      ensures result.Saved? <==>
        old(instance).Some? && old(instance).value.version == old(r.store).version && fault == NoFault
      ensures result.Saved? ==>
        && result.version == r.store.version == old(r.store).version + 1
        && instance == Some(Versioned(r.store.version, config))
        && r.store.config == config && r.store.epoch == epoch
      ensures !result.Saved? ==> instance == old(instance)
      ensures r.events == old(r.events) + if result.Saved? then {Event(instance.value, epoch)} else {}
      ensures result == VersionMismatch ==> r.store == old(r.store)
    {
      hide Leads, SaveSteps;
      ghost var s0 := View(r, Free);
      if instance.None? {
        return NotInitialized;
      }
      SaveLeads(s0, config, uuid, fault);
      var version, failed := PersistLocked(r, config, instance.value.version, uuid, fault);
      if version.None? {
        assert View(r, Free) == AfterSave(s0, config, uuid, fault);
        return if failed then Failed else VersionMismatch;
      }
      instance := Some(Versioned(version.value, config));
      r.events := r.events + {Event(instance.value, epoch)};
      assert View(r, Free) == AfterSave(s0, config, uuid, fault);
      result := Saved(version.value);
    }

    /** What follows a load that found no usable record. */
    method CreateDefaultsLocked(r: Record, fault: Fault) returns (result: Result)
      requires epoch != NO_EPOCH
      modifies this, r
      ensures Leads(old(View(r, Creating)), CreateSteps(old(r.store).version == 0, fault), View(r, Free))
      ensures result == Loaded <==> old(r.store).version == 0 && fault == NoFault
      ensures result == Loaded ==>
        instance == Some(Versioned(1, defaults)) && r.store == Store(1, defaults, epoch) && epoch == old(epoch)
      ensures result != Loaded ==> instance == old(instance)
    {
      ghost var s0 := View(r, Creating);
      ghost var s1 := Next(s0, RunScript(0, fault == ReplyLost));
      LeadsOne(s0, RunScript(0, fault == ReplyLost));
      var version, failed := PersistLocked(r, defaults, 0, epoch, fault);
      if version.None? {
        if fault == EpochNotWritten && failed {
          LeadsThen(s0, [RunScript(0, false)], s1, Fail(0));
        }
        return if failed then Failed else VersionMismatch;
      }
      instance := Some(Versioned(version.value, defaults));
      LeadsThen(s0, [RunScript(0, false)], s1, Stamp(0));
      result := Loaded;
    }

    /** Loading adopts the stored record, or creates version 1 from the defaults when there is none. A load
        that fails on an existing record ends in a version mismatch and leaves it alone. Every outcome is a
        path of the machine from the load on. */
    method LoadOrCreateLocked(r: Record, uuid: Epoch, unreadable: bool, fault: Fault)
        returns (result: Result, ghost steps: seq<Step>)
      requires uuid != NO_EPOCH
      modifies this, r
      ensures steps != [] && steps[0] == Load(0, uuid, unreadable) && Leads(old(View(r, Loading)), steps, View(r, Free))
      ensures result == Loaded ==>
        instance == Some(Versioned(r.store.version, r.store.config)) && r.store.epoch == epoch != NO_EPOCH
      ensures result != Loaded ==> instance == old(instance)
      ensures old(r.store).version > 0 ==>
        r.store.version == old(r.store).version && r.store.config == old(r.store).config
      ensures old(r.store).version > 0 && !unreadable && fault == NoFault ==> result == Loaded
      ensures old(r.store).version == 0 && fault == NoFault ==>
        result == Loaded && r.store.version == 1 && r.store.config == defaults
    {
      ghost var s0 := View(r, Loading);
      ghost var load := Load(0, uuid, unreadable);
      ghost var s1 := Next(s0, load);
      LeadsOne(s0, load);
      if !unreadable && r.store.version > 0 {
        var value := Versioned(r.store.version, r.store.config);
        if r.store.epoch == NO_EPOCH {
          epoch := uuid;
          if fault != NoFault {
            LeadsThen(s0, [load], s1, Fail(0));
            assert [load] + [Fail(0)] == [load, Fail(0)];
            return Failed, [load, Fail(0)];
          }
          r.store := r.store.(epoch := epoch);
          instance := Some(value);
          LeadsThen(s0, [load], s1, Adopt(0));
          assert [load] + [Adopt(0)] == [load, Adopt(0)];
          return Loaded, [load, Adopt(0)];
        }
        epoch := r.store.epoch;
        instance := Some(value);
        return Loaded, [load];
      }
      epoch := uuid;
      assert s1 == View(r, Creating);
      result := CreateDefaultsLocked(r, fault);
      steps := [load] + CreateSteps(old(r.store).version == 0, fault);
      LeadsAfter(s0, load, CreateSteps(old(r.store).version == 0, fault), View(r, Free));
    }

    /** An update event is one delivery of the machine: taken only for the manager's own epoch, and only
        forwards. */
    method OnUpdated(r: Record, e: Event) returns (reload: bool)
      requires e in r.events
      modifies this
      ensures Leads(old(View(r, Free)), [Deliver(0, e)], View(r, Free))
      ensures reload <==> old(instance).Some? && e.epoch != epoch
      ensures epoch == old(epoch)
      ensures instance == if old(instance).Some? && e.epoch == epoch && e.value.version > old(instance).value.version
                          then Some(e.value) else old(instance)
    {
      LeadsOne(View(r, Free), Deliver(0, e));
      if instance.None? {
        return false;
      }
      if e.epoch != epoch {
        return true;
      }
      if e.value.version > instance.value.version {
        instance := Some(e.value);
      }
      reload := false;
    }
  }

  predicate Initial(s: Sys) {
    && s.store == Store(0, "", NO_EPOCH)
    && s.events == {} && s.history == []
    && forall id :: id in s.replicas ==> s.replicas[id] == Replica(None, NO_EPOCH, Free)
  }

  ghost predicate IsRun(states: seq<Sys>, steps: seq<Step>) {
    && |states| == |steps| + 1
    && Initial(states[0])
    && forall i :: 0 <= i < |steps| ==> Enabled(states[i], steps[i]) && states[i + 1] == Next(states[i], steps[i])
  }

  // ---------------------------------------------------------------- the invariant

  /** The pair is a version that was really stored, with the configuration stored under it. */
  predicate Known(history: seq<Config>, v: Versioned) {
    1 <= v.version <= |history| && history[v.version - 1] == v.config
  }

  predicate ReplicaInv(history: seq<Config>, m: Replica) {
    && (m.instance.Some? ==> Known(history, m.instance.value))
    && (m.work.Saving? ==> m.instance.Some?)
    && (m.work.Stamping? || m.work.Announcing? || m.work.Adopting? ==>
          && Known(history, m.work.value)
          && (m.instance.Some? ==> m.instance.value.version <= m.work.value.version))
  }

  ghost predicate Inv(s: Sys) {
    && s.store.version == |s.history|
    && (s.store.version > 0 ==> s.store.config == s.history[s.store.version - 1])
    && (forall e :: e in s.events ==> Known(s.history, e.value))
    && (forall id :: id in s.replicas ==> ReplicaInv(s.history, s.replicas[id]))
  }

  lemma KnownGrows(history: seq<Config>, config: Config, m: Replica)
    requires ReplicaInv(history, m)
    ensures ReplicaInv(history + [config], m)
  {
  }

  /** What one step leaves alone. */
  lemma NextFrame(s: Sys, step: Step)
    requires Enabled(s, step)
    ensures var s', m := Next(s, step), s.replicas[step.id];
      && s'.replicas.Keys == s.replicas.Keys
      && (forall id :: id in s.replicas && id != step.id ==> s'.replicas[id] == s.replicas[id])
      && (s'.history == s.history
          || (|s'.history| == |s.history| + 1 && s'.history == s.history + [s'.history[|s.history|]]))
      && (s'.events == s.events || (step.Announce? && s'.events == s.events + {Event(m.work.value, m.epoch)}))
  {
  }

  /** The record and the manager that acts. */
  lemma NextActor(s: Sys, step: Step)
    requires Inv(s) && Enabled(s, step)
    ensures var s' := Next(s, step);
      var m, m' := s.replicas[step.id], s'.replicas[step.id];
      && s'.store.version == |s'.history|
      && (s'.store.version > 0 ==> s'.store.config == s'.history[s'.store.version - 1])
      && ReplicaInv(s'.history, m')
      && (m.instance.Some? && m'.instance.Some? ==> m.instance.value.version <= m'.instance.value.version)
  {
    assert ReplicaInv(s.history, s.replicas[step.id]);
  }

  lemma NextKeepsInv(s: Sys, step: Step)
    requires Inv(s) && Enabled(s, step)
    ensures Inv(Next(s, step))
    ensures s.history <= Next(s, step).history
    ensures s.replicas[step.id].instance.Some? && Next(s, step).replicas[step.id].instance.Some? ==>
      s.replicas[step.id].instance.value.version <= Next(s, step).replicas[step.id].instance.value.version
    ensures forall id :: id in s.replicas && id != step.id ==> Next(s, step).replicas[id] == s.replicas[id]
    ensures Next(s, step).replicas.Keys == s.replicas.Keys
  {
    hide Next;
    var s' := Next(s, step);
    NextFrame(s, step);
    NextActor(s, step);
    assert ReplicaInv(s.history, s.replicas[step.id]);
    forall id | id in s'.replicas && id != step.id ensures ReplicaInv(s'.history, s'.replicas[id]) {
      assert ReplicaInv(s.history, s.replicas[id]);
      if s'.history != s.history {
        KnownGrows(s.history, s'.history[|s.history|], s.replicas[id]);
      }
    }
  }

  lemma {:induction false} RunInv(states: seq<Sys>, steps: seq<Step>, i: nat)
    requires IsRun(states, steps) && i < |states|
    ensures Inv(states[i])
  {
    hide Enabled, Next;
    if i > 0 {
      RunInv(states, steps, i - 1);
      NextKeepsInv(states[i - 1], steps[i - 1]);
    }
  }

  lemma {:induction false} HistoryGrows(states: seq<Sys>, steps: seq<Step>, i: nat, j: nat)
    requires IsRun(states, steps) && i <= j < |states|
    ensures states[i].history <= states[j].history
  {
    hide Enabled, Next, Inv;
    if i < j {
      HistoryGrows(states, steps, i, j - 1);
      RunInv(states, steps, j - 1);
      NextKeepsInv(states[j - 1], steps[j - 1]);
    }
  }

  // ---------------------------------------------------------------- the theorems

  /** Somebody can see this version of the configuration: the record, a manager, or an event. */
  ghost predicate Visible(s: Sys, v: Versioned) {
    || (s.store.version > 0 && v == Versioned(s.store.version, s.store.config))
    || (exists id :: id in s.replicas && s.replicas[id].instance == Some(v))
    || (exists e :: e in s.events && e.value == v)
  }

  /** Equal versions are equal configurations, wherever and whenever in a run they are seen. */
  lemma VersionsAgree(states: seq<Sys>, steps: seq<Step>, i: nat, j: nat, v: Versioned, w: Versioned)
    requires IsRun(states, steps) && i <= j < |states|
    requires Visible(states[i], v) && Visible(states[j], w) && v.version == w.version
    ensures v == w
  {
    RunInv(states, steps, i);
    RunInv(states, steps, j);
    HistoryGrows(states, steps, i, j);
    VisibleKnown(states[i], v);
    VisibleKnown(states[j], w);
  }

  lemma VisibleKnown(s: Sys, v: Versioned)
    requires Inv(s) && Visible(s, v)
    ensures Known(s.history, v)
  {
    if exists id :: id in s.replicas && s.replicas[id].instance == Some(v) {
      var id :| id in s.replicas && s.replicas[id].instance == Some(v);
      assert ReplicaInv(s.history, s.replicas[id]);
    }
  }

  /** No manager is ever ahead of the record. */
  lemma NeverAhead(states: seq<Sys>, steps: seq<Step>, i: nat, id: nat)
    requires IsRun(states, steps) && i < |states|
    requires id in states[i].replicas && states[i].replicas[id].instance.Some?
    ensures 1 <= states[i].replicas[id].instance.value.version <= states[i].store.version
  {
    RunInv(states, steps, i);
    assert ReplicaInv(states[i].history, states[i].replicas[id]);
  }

  /** Between Init and Close a manager's version never goes back, whatever is delivered late,
      twice, out of order or for another epoch, and whatever fails on the way. */
  lemma {:induction false} NeverBackwards(states: seq<Sys>, steps: seq<Step>, i: nat, j: nat, id: nat)
    requires IsRun(states, steps) && i <= j < |states|
    requires forall k :: i <= k <= j ==> id in states[k].replicas && states[k].replicas[id].instance.Some?
    ensures states[i].replicas[id].instance.value.version <= states[j].replicas[id].instance.value.version
  {
    hide Enabled, Next, Inv;
    if i < j {
      NeverBackwards(states, steps, i, j - 1, id);
      RunInv(states, steps, j - 1);
      NextKeepsInv(states[j - 1], steps[j - 1]);
      assert states[j - 1].replicas[id].instance.Some?;
    }
  }

  /** No update is lost: a save that goes through replaces exactly the configuration the saving
      manager was holding, and becomes the next version. */
  lemma SaveReplacesWhatItSaw(states: seq<Sys>, steps: seq<Step>, i: nat)
    requires IsRun(states, steps) && i < |steps| && steps[i].RunScript?
    requires states[i].replicas[steps[i].id].work.Saving?
    requires states[i + 1].history != states[i].history
    ensures var s := states[i];
      var m := s.replicas[steps[i].id];
      && m.instance == Some(Versioned(s.store.version, s.store.config))
      && states[i + 1].history == s.history + [m.work.config]
      && states[i + 1].store.version == s.store.version + 1 && states[i + 1].store.config == m.work.config
  {
    RunInv(states, steps, i);
    assert ReplicaInv(states[i].history, states[i].replicas[steps[i].id]);
  }

  /** An event delivered to a manager is taken exactly when the manager is initialised, of the event's epoch
      and behind it; an event of another epoch leaves it as it is, and its epoch never changes by one. */
  lemma DeliveryTakenIff(states: seq<Sys>, steps: seq<Step>, i: nat)
    requires IsRun(states, steps) && i < |steps| && steps[i].Deliver?
    ensures steps[i].id in states[i].replicas && steps[i].id in states[i + 1].replicas
    ensures var m, m', e := states[i].replicas[steps[i].id], states[i + 1].replicas[steps[i].id], steps[i].event;
      && m'.epoch == m.epoch && states[i + 1].store == states[i].store
      && (m'.instance != m.instance <==>
            m.instance.Some? && e.epoch == m.epoch && m.instance.value.version < e.value.version)
      && (m'.instance != m.instance ==> m'.instance == Some(e.value))
  {
  }

  // ---------------------------------------------------------------- convergence

  ghost predicate InitialisedFrom(states: seq<Sys>, k: nat, i: nat, id: nat)
    requires k <= i < |states|
  {
    forall m :: k <= m <= i ==> id in states[m].replicas && states[m].replicas[id].instance.Some?
  }

  /** The event reached the manager under the event's own epoch, and it has been initialised since. */
  ghost predicate Received(states: seq<Sys>, steps: seq<Step>, i: nat, id: nat, e: Event)
    requires IsRun(states, steps) && i < |states|
  {
    exists k :: 0 <= k < i && steps[k] == Deliver(id, e)
             && InitialisedFrom(states, k, i, id) && states[k].replicas[id].epoch == e.epoch
  }

  /** The last save was announced, under the epoch the record now has. */
  ghost predicate Announced(s: Sys) {
    exists e :: e in s.events && e.value.version == s.store.version && e.epoch == s.store.epoch
  }

  /** Once the last save has been announced under the record's epoch, a manager that has received all
      events of that epoch holds exactly what the record holds. */
  lemma Converges(states: seq<Sys>, steps: seq<Step>, i: nat, id: nat)
    requires IsRun(states, steps) && i < |states| && Announced(states[i])
    requires forall e :: e in states[i].events && e.epoch == states[i].store.epoch ==> Received(states, steps, i, id, e)
    ensures id in states[i].replicas
    ensures states[i].replicas[id].instance == Some(Versioned(states[i].store.version, states[i].store.config))
  {
    hide Enabled, Next, Inv;
    var e :| e in states[i].events && e.value.version == states[i].store.version && e.epoch == states[i].store.epoch;
    assert Received(states, steps, i, id, e);
    var k :| 0 <= k < i && steps[k] == Deliver(id, e)
          && InitialisedFrom(states, k, i, id) && states[k].replicas[id].epoch == e.epoch;
    TakesEvent(states[k], id, e);
    assert states[k + 1].replicas[id].instance.Some?;
    NeverBackwards(states, steps, k + 1, i, id);
    NeverAhead(states, steps, i, id);
    var v, w := states[i].replicas[id].instance.value, Versioned(states[i].store.version, states[i].store.config);
    assert v.version == w.version;
    assert Visible(states[i], v) && Visible(states[i], w);
    VersionsAgree(states, steps, i, i, v, w);
  }

  lemma TakesEvent(s: Sys, id: nat, e: Event)
    requires Enabled(s, Deliver(id, e)) && s.replicas[id].instance.Some? && s.replicas[id].epoch == e.epoch
    ensures Next(s, Deliver(id, e)).replicas[id].instance.Some?
    ensures Next(s, Deliver(id, e)).replicas[id].instance.value.version >= e.value.version
  {
  }

  /** A manager of the record's epoch, with no event left to receive, that is behind the record. */
  ghost predicate LeftBehind(s: Sys, id: nat) {
    && id in s.replicas && s.replicas[id].instance.Some? && s.replicas[id].epoch == s.store.epoch
    && s.events == {} && s.replicas[id].instance.value.version < s.store.version
  }

  lemma LeadsRun(s: Sys, steps: seq<Step>, t: Sys)
    requires Initial(s) && Leads(s, steps, t)
    ensures exists states :: IsRun(states, steps) && states[0] == s && states[|steps|] == t
  {
    var states := PathOf(s, steps, t);
    assert IsRun(states, steps) && states[0] == s && states[|steps|] == t;
  }

  lemma {:induction false} PathOf(s: Sys, steps: seq<Step>, t: Sys) returns (states: seq<Sys>)
    requires Leads(s, steps, t)
    ensures |states| == |steps| + 1 && states[0] == s && states[|steps|] == t
    ensures forall i :: 0 <= i < |steps| ==> Enabled(states[i], steps[i]) && states[i + 1] == Next(states[i], steps[i])
    decreases |steps|
  {
    hide Enabled, Next;
    if steps == [] {
      states := [s];
    } else {
      var rest := PathOf(Next(s, steps[0]), steps[1..], t);
      states := [s] + rest;
    }
  }

  /** Announcing is needed: one manager creates the record, another loads it, and the reply to the first
      one's save is lost. The record moves on, and nothing will ever tell the second manager. */
  lemma LostReplyLeavesBehind(s: Sys, a: nat, b: nat, config: Config, uuid: Epoch)
    requires Initial(s) && a in s.replicas && b in s.replicas && a != b && uuid != NO_EPOCH
    ensures exists states, steps :: IsRun(states, steps) && states[0] == s && LeftBehind(states[|steps|], b)
  {
    var first := [StartInit(a), Load(a, uuid, false), RunScript(a, false), Stamp(a)];
    var t := CreatedBy(s, a, uuid);
    var second := [StartInit(b), Load(b, uuid, false)];
    var u := LoadedBy(t, b, uuid);
    var third := [StartSave(a, config, uuid), RunScript(a, true)];
    var v := SaveLost(u, a, config, uuid);
    LeadsConcat(s, first, t, second, u);
    LeadsConcat(s, first + second, u, third, v);
    LeadsRun(s, first + second + third, v);
    assert LeftBehind(v, b);
  }

  lemma {:induction false} LeadsConcat(s: Sys, first: seq<Step>, t: Sys, second: seq<Step>, u: Sys)
    requires Leads(s, first, t) && Leads(t, second, u)
    ensures Leads(s, first + second, u)
    decreases |first|
  {
    hide Enabled, Next;
    if first == [] {
      assert first + second == second;
    } else {
      LeadsConcat(Next(s, first[0]), first[1..], t, second, u);
      assert (first + second)[1..] == first[1..] + second;
    }
  }

  lemma CreatedBy(s: Sys, a: nat, uuid: Epoch) returns (t: Sys)
    requires Initial(s) && a in s.replicas
    ensures Leads(s, [StartInit(a), Load(a, uuid, false), RunScript(a, false), Stamp(a)], t)
    ensures t.store == Store(1, s.defaults, uuid) && t.events == {} && t.replicas.Keys == s.replicas.Keys
    ensures t.replicas[a] == Replica(Some(Versioned(1, s.defaults)), uuid, Free)
    ensures forall id :: id in s.replicas && id != a ==> t.replicas[id] == s.replicas[id]
  {
    var s1 := Next(s, StartInit(a));
    LeadsOne(s, StartInit(a));
    var s2 := Next(s1, Load(a, uuid, false));
    LeadsThen(s, [StartInit(a)], s1, Load(a, uuid, false));
    var s3 := Next(s2, RunScript(a, false));
    LeadsThen(s, [StartInit(a)] + [Load(a, uuid, false)], s2, RunScript(a, false));
    t := Next(s3, Stamp(a));
    LeadsThen(s, [StartInit(a)] + [Load(a, uuid, false)] + [RunScript(a, false)], s3, Stamp(a));
    hide Leads;
    assert [StartInit(a)] + [Load(a, uuid, false)] + [RunScript(a, false)] + [Stamp(a)]
        == [StartInit(a), Load(a, uuid, false), RunScript(a, false), Stamp(a)];
  }

  lemma LoadedBy(s: Sys, b: nat, uuid: Epoch) returns (t: Sys)
    requires b in s.replicas && s.replicas[b].work.Free? && s.replicas[b].instance.None?
    requires s.store.version > 0 && s.store.epoch != NO_EPOCH
    ensures Leads(s, [StartInit(b), Load(b, uuid, false)], t)
    ensures t == Put(s, b, Replica(Some(Versioned(s.store.version, s.store.config)), s.store.epoch, Free))
  {
    var s1 := Next(s, StartInit(b));
    LeadsOne(s, StartInit(b));
    t := Next(s1, Load(b, uuid, false));
    LeadsThen(s, [StartInit(b)], s1, Load(b, uuid, false));
    hide Leads;
    assert [StartInit(b)] + [Load(b, uuid, false)] == [StartInit(b), Load(b, uuid, false)];
  }

  lemma SaveLost(s: Sys, a: nat, config: Config, uuid: Epoch) returns (t: Sys)
    requires a in s.replicas && s.replicas[a].work.Free? && s.replicas[a].instance.Some?
    requires s.replicas[a].instance.value.version == s.store.version
    ensures Leads(s, [StartSave(a, config, uuid), RunScript(a, true)], t)
    ensures t.store == Store(s.store.version + 1, config, s.store.epoch) && t.events == s.events
    ensures t.replicas.Keys == s.replicas.Keys
    ensures forall id :: id in s.replicas && id != a ==> t.replicas[id] == s.replicas[id]
  {
    var s1 := Next(s, StartSave(a, config, uuid));
    LeadsOne(s, StartSave(a, config, uuid));
    t := Next(s1, RunScript(a, true));
    LeadsThen(s, [StartSave(a, config, uuid)], s1, RunScript(a, true));
    hide Leads;
    assert [StartSave(a, config, uuid)] + [RunScript(a, true)] == [StartSave(a, config, uuid), RunScript(a, true)];
  }
}
