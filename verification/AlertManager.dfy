/** alerts.go in its own form: an object whose methods update alert states in place and write files.
    Every method is proved equal to a run of the step machine, so the theorems about runs hold of it. */
module AlertManagers {
  import opened Options
  import opened Alerts

  /** Runs the file operations an evaluation still has to do, with the given outcomes. */
  function Finish(cfg: Config, w: World, io: seq<bool>): World
    decreases |io|
  {
    if w.pc.Publishing? && io != [] then Finish(cfg, DoFileOp(cfg, w, io[0]), io[1..]) else w
  }

  function FileOps(io: seq<bool>): seq<Step> {
    seq(|io|, i requires 0 <= i < |io| => FileOp(io[i]))
  }

  lemma {:induction false} FinishIsRun(cfg: Config, w: World, io: seq<bool>)
    ensures Finish(cfg, w, io) == Exec(cfg, w, FileOps(io))
    decreases |io|
  {
    if io != [] {
      assert FileOps(io)[1..] == FileOps(io[1..]);
      FinishIsRun(cfg, Do(cfg, w, FileOp(io[0])), io[1..]);
      if !w.pc.Publishing? {
        assert Finish(cfg, w, io[1..]) == w;
      }
    }
  }

  /** Saving, enqueueing and saving again; each failure ends the publication where it stands. */
  function Published(w: World, n: string, io: seq<bool>): World
    requires |io| >= 3
  {
    var saved := w.(disk := w.mem, pc := Idle);
    var sent := Emit(saved, n);
    if !io[0] then w.(pc := Idle) else if !io[1] then saved else if !io[2] then sent else sent.(disk := sent.mem)
  }

  lemma PublicationOutcomes(cfg: Config, w: World, io: seq<bool>)
    requires w.pc.Publishing? && w.pc.stage.SaveFirst? && |io| >= 3
    ensures var published := Published(w, w.pc.name, io); var rest := w.pc.rest;
      Finish(cfg, w, io) ==
        if io[0] && io[1] && io[2] && rest.Some?
        then Finish(cfg, Breach(cfg, published, rest.value.obs, rest.value.now, rest.value.idOk), io[3..])
        else published
  {
    var w1 := DoFileOp(cfg, w, io[0]);
    assert Finish(cfg, w, io) == Finish(cfg, w1, io[1..]);
    if io[0] {
      var w2 := DoFileOp(cfg, w1, io[1]);
      assert Finish(cfg, w1, io[1..]) == Finish(cfg, w2, io[1..][1..]);
      assert io[1..][1..] == io[2..] && io[2..][1..] == io[3..];
      if io[1] {
        assert Finish(cfg, w2, io[2..]) == Finish(cfg, DoFileOp(cfg, w2, io[2]), io[3..]);
      }
    }
  }

  /** Upserting the oldest file and removing it once it is applied. */
  function FileTried(cfg: Config, w: World, result: UpsertResult, removed: bool): World {
    var sent := Do(cfg, w, Upsert(result));
    if result.Applied? then Do(cfg, sent, Remove(removed)) else sent
  }

  /** One pass of the outbox worker over the `files` oldest files. */
  function Round(cfg: Config, w: World, files: nat, results: seq<UpsertResult>, removals: seq<bool>): World
    requires |results| >= files && |removals| >= files
    decreases files
  {
    if files == 0 then w
    else
      var next := FileTried(cfg, w, results[0], removals[0]);
      if results[0].Applied? && removals[0] then Round(cfg, next, files - 1, results[1..], removals[1..]) else next
  }

  function AfterReconcile(s: AlertState, written: bool): AlertState {
    if written then s.(dirty := false) else s
  }

  lemma OneMoreCounted(m: States, names: set<string>, n: string)
    requires n in names && n in m
    ensures |Actives(m) - (names - {n})| == |Actives(m) - names| + if m[n].active then 1 else 0
  {
    assert Actives(m) - (names - {n}) == if m[n].active then (Actives(m) - names) + {n} else Actives(m) - names;
  }

  method CountActives(m: States) returns (active: int)
    ensures active == ActiveCount(m)
  {
    active := 0;
    var names := m.Keys;
    assert Actives(m) - names == {};
    while names != {}
      invariant names <= m.Keys
      invariant active == |Actives(m) - names|
      decreases names
    {
      var n :| n in names;
      OneMoreCounted(m, names, n);
      if m[n].active {
        active := active + 1;
      }
      names := names - {n};
    }
    assert Actives(m) - names == Actives(m);
  }

  class AlertManager {
    const config: Config

    var states: States
    var active: int
    var openings: nat
    var clearings: nat

    // The files.
    var disk: States
    var outbox: seq<Record>

    // The histories of `World`.
    ghost var log: seq<Record>
    ghost var delivered: nat
    ghost var sink: seq<nat>
    ghost var owner: seq<string>
    ghost var overwritten: set<nat>

    // The number the next identifier takes; it stands for a fresh UUID.
    var nextId: nat

    ghost function View(pc: Pc): World
      reads this
    {
      World(states, disk, outbox, pc, false, active, openings, clearings, log, delivered, sink, owner, overwritten)
    }

    ghost predicate Valid()
      reads this
    {
      nextId == |owner|
    }

    constructor (config: Config)
      ensures Valid() && this.config == config && View(Starting) == Init
    {
      this.config := config;
      states, active, openings, clearings := map[], 0, 0, 0;
      disk, outbox := map[], [];
      log, delivered, sink, owner, overwritten := [], 0, [], [""], {};
      nextId := 1;
    }

    method PersistStates(ok: bool) returns (err: bool)
      modifies this`disk
      ensures err == !ok && disk == if ok then states else old(disk)
    {
      if ok {
        disk := states;
      }
      err := !ok;
    }

    method EmitRecord(record: Record, ok: bool) returns (err: bool)
      modifies this`outbox, this`log
      ensures err == !ok
      ensures outbox == if ok then old(outbox) + [record] else old(outbox)
      ensures log == if ok then old(log) + [record] else old(log)
    {
      if ok {
        outbox := outbox + [record];
        log := log + [record];
      }
      err := !ok;
    }

    /** The sequence every announcement goes through: save, enqueue, mark clean, save. */
    method Publish(n: string, io: seq<bool>) returns (err: bool)
      requires |io| >= 3
      modifies this`states, this`disk, this`outbox, this`log
      ensures err == !(io[0] && io[1] && io[2])
      ensures View(Idle) == Published(old(View(Idle)), n, io)
    {
      err := PersistStates(io[0]);
      if err { return; }
      var state := Get(states, n);
      err := EmitRecord(state.record, io[1]);
      if err { return; }
      states := states[n := state.(dirty := false)];
      err := PersistStates(io[2]);
    }

    /** One evaluation of one alert; `io` gives the outcome of each file operation in turn and `idOk`
        says whether an identifier could be drawn. The error is only logged by the caller. */
    method ApplyObservation(obs: Observation, now: int, idOk: bool, io: seq<bool>)
      requires Valid() && |io| >= 6
      modifies this
      ensures Valid()
      ensures View(Idle) == Finish(config, Begin(config, old(View(Idle)), obs, now, idOk), io)
    {
      var state := Get(states, obs.name);
      if state.active {
        SustainIncident(obs, now, io);
      } else if state.dirty && now - state.lastEmitted >= config.activeUpdate {
        PublicationOutcomes(config, Begin(config, View(Idle), obs, now, idOk), io);
        states := states[obs.name := state.(lastEmitted := now)];
        var err := Publish(obs.name, io);
        if err { return; }
        var opens := CountBreach(obs, now, idOk);
        if opens {
          Announce(obs.name, io[3..]);
        }
      } else {
        var opens := CountBreach(obs, now, idOk);
        if opens {
          Announce(obs.name, io);
        }
      }
    }

    /** Publishes the state of `n` when nothing follows. */
    method Announce(n: string, io: seq<bool>)
      requires Valid() && |io| >= 3
      modifies this`states, this`disk, this`outbox, this`log
      ensures View(Idle) == Finish(config, old(View(Publishing(n, SaveFirst, None))), io)
    {
      PublicationOutcomes(config, View(Publishing(n, SaveFirst, None)), io);
      var _ := Publish(n, io);
    }

    /** The breach count of an inactive alert; `opens` tells that an incident was opened in memory. */
    method CountBreach(obs: Observation, now: int, idOk: bool) returns (opens: bool)
      requires Valid()
      modifies this`states, this`nextId, this`active, this`openings, this`owner, this`overwritten
      ensures Valid()
      ensures View(if opens then Publishing(obs.name, SaveFirst, None) else Idle)
           == Breach(config, old(View(Idle)), obs, now, idOk)
    {
      opens := false;
      var state := Get(states, obs.name);
      if obs.indicator < obs.threshold {
        states := states[obs.name := state.(clear := 0, breach := 0)];
      } else if state.breach + 1 < config.triggerWindows || !idOk {
        states := states[obs.name := state.(clear := 0, breach := state.breach + 1)];
      } else {
        OpenIncident(obs, now);
        opens := true;
      }
    }

    method OpenIncident(obs: Observation, now: int)
      requires Valid()
      modifies this`states, this`nextId, this`active, this`openings, this`owner, this`overwritten
      ensures Valid()
      ensures var record := Record(|old(owner)|, config.hostname, config.ip, now, None, obs.name, obs.threshold,
                                   obs.indicator, Active);
        states == old(states)[obs.name := AlertState(record, true, 0, 0, now, true)]
      ensures active == old(active) + 1 && openings == old(openings) + 1 && owner == old(owner) + [obs.name]
      ensures var replaced := Get(old(states), obs.name);
        overwritten == if replaced.dirty then old(overwritten) + {replaced.record.id} else old(overwritten)
    {
      var replaced := Get(states, obs.name);
      if replaced.dirty {
        overwritten := overwritten + {replaced.record.id};
      }
      var record := Record(nextId, config.hostname, config.ip, now, None, obs.name, obs.threshold, obs.indicator, Active);
      states := states[obs.name := AlertState(record, true, 0, 0, now, true)];
      nextId, owner := nextId + 1, owner + [obs.name];
      active, openings := active + 1, openings + 1;
    }

    method SustainIncident(obs: Observation, now: int, io: seq<bool>)
      requires Valid() && |io| >= 3 && Get(states, obs.name).active
      modifies this
      ensures Valid()
      ensures View(Idle) == Finish(config, Begin(config, old(View(Idle)), obs, now, true), io)
    {
      var state := Get(states, obs.name).(breach := 0);
      if obs.indicator > state.record.indicator {
        state := state.(record := state.record.(indicator := obs.indicator), dirty := true);
      }
      state := state.(clear := if obs.indicator < obs.clearThreshold then state.clear + 1 else 0);
      if state.clear >= config.clearWindows {
        state := state.(active := false, clear := 0, lastEmitted := now, dirty := true,
                        record := state.record.(phase := Cleared, end := Some(now)));
        active, clearings := active - 1, clearings + 1;
      } else if state.dirty && now - state.lastEmitted >= config.activeUpdate {
        state := state.(lastEmitted := now);
      } else {
        states := states[obs.name := state];
        return;
      }
      states := states[obs.name := state];
      Announce(obs.name, io);
    }

    /** A restart: memory is what the state file holds. */
    method LoadStates()
      modifies this`states, this`active, this`openings, this`clearings
      ensures View(Starting) == Do(config, old(View(Idle)), Crash)
    {
      states, openings, clearings := disk, 0, 0;
      active := CountActives(disk);
    }

    /** Re-sends every undelivered record after a restart; the names in `writable` are those whose
        outbox file can be written. The order of the names is the map's own. */
    method ReconcileDirtyStates(writable: set<string>) returns (changed: bool, ghost steps: seq<Step>)
      modifies this`states, this`outbox, this`log
      ensures changed <==> exists n :: n in old(states) && old(states)[n].dirty
      ensures states.Keys == old(states).Keys
      ensures forall n :: n in states ==>
        states[n] == AfterReconcile(old(states)[n], n in writable)
      ensures forall s :: s in steps ==> s.Reconcile?
      ensures View(Starting) == Exec(config, old(View(Starting)), steps)
    {
      changed, steps := false, [];
      var names := states.Keys;
      while names != {}
        invariant names <= states.Keys == old(states).Keys
        invariant forall n :: n in states ==> states[n] == AfterReconcile(old(states)[n], n !in names && n in writable)
        invariant changed <==> exists n :: n in old(states) && n !in names && old(states)[n].dirty
        invariant forall s :: s in steps ==> s.Reconcile?
        invariant View(Starting) == Exec(config, old(View(Starting)), steps)
        decreases names
      {
        var n :| n in names;
        names := names - {n};
        var did, step := ReconcileOne(n, n in writable);
        if did {
          ExecSnoc(config, old(View(Starting)), steps, step);
          steps := steps + [step];
          changed := true;
        }
      }
    }

    method ReconcileOne(n: string, ok: bool) returns (did: bool, ghost step: Step)
      requires n in states
      modifies this`states, this`outbox, this`log
      ensures did == old(states)[n].dirty && step == Reconcile(n, ok)
      ensures states == old(states)[n := AfterReconcile(old(states)[n], ok)]
      ensures View(Starting) == Do(config, old(View(Starting)), step)
    {
      var state := states[n];
      did, step := state.dirty, Reconcile(n, ok);
      if did {
        var err := EmitRecord(state.record, ok);
        if !err {
          states := states[n := state.(dirty := false)];
        }
      }
    }

    /** Sends the oldest outbox file; true when it was delivered and removed. */
    method DeliverFile(result: UpsertResult, removed: bool) returns (done: bool)
      requires outbox != []
      modifies this`outbox, this`delivered, this`sink
      ensures View(Idle) == FileTried(config, old(View(Idle)), result, removed)
      ensures done == (result.Applied? && removed)
      ensures outbox == if done then old(outbox)[1..] else old(outbox)
    {
      if !result.Refused? {
        sink := sink + [delivered];
      }
      done := result.Applied? && removed;
      if done {
        outbox, delivered := outbox[1..], delivered + 1;
      }
    }

    /** One pass over the outbox files present at its start. */
    method DeliverOutbox(results: seq<UpsertResult>, removals: seq<bool>) returns (some: bool, failed: bool)
      requires |results| >= |outbox| && |removals| >= |outbox|
      modifies this`outbox, this`delivered, this`sink
      ensures View(Idle) == Round(config, old(View(Idle)), |old(outbox)|, results, removals)
      ensures failed <==> outbox != []
      ensures some <==> |outbox| < |old(outbox)|
    {
      some, failed := false, false;
      var files := outbox;
      var i := 0;
      while i < |files|
        invariant 0 <= i <= |files| && outbox == files[i..]
        invariant some <==> i > 0
        invariant Round(config, old(View(Idle)), |files|, results, removals)
               == Round(config, View(Idle), |files| - i, results[i..], removals[i..])
      {
        assert results[i..][1..] == results[i + 1..] && removals[i..][1..] == removals[i + 1..];
        var done := DeliverFile(results[i], removals[i]);
        if !done {
          return some, true;
        }
        some := true;
        i := i + 1;
      }
    }
  }

  // ---- The methods are runs ----

  /** An evaluation and its file operations are steps of the machine. */
  lemma EvaluationIsRun(cfg: Config, w: World, obs: Observation, now: int, idOk: bool, io: seq<bool>)
    requires w.pc.Idle?
    ensures Finish(cfg, Begin(cfg, w, obs, now, idOk), io) == Exec(cfg, w, [Observe(obs, now, idOk)] + FileOps(io))
  {
    FinishIsRun(cfg, Begin(cfg, w, obs, now, idOk), io);
    assert ([Observe(obs, now, idOk)] + FileOps(io))[1..] == FileOps(io);
  }

  /** A pass over the outbox is a run of delivery steps. */
  lemma {:induction false} RoundIsRun(cfg: Config, w: World, files: nat, results: seq<UpsertResult>, removals: seq<bool>)
    returns (steps: seq<Step>)
    requires |results| >= files && |removals| >= files
    ensures Round(cfg, w, files, results, removals) == Exec(cfg, w, steps)
    ensures forall s :: s in steps ==> s.Upsert? || s.Remove?
    decreases files
  {
    steps := [];
    if files != 0 {
      var upsert := Upsert(results[0]);
      ExecSnoc(cfg, w, [], upsert);
      steps := [] + [upsert];
      if results[0].Applied? {
        ExecSnoc(cfg, w, steps, Remove(removals[0]));
        steps := steps + [Remove(removals[0])];
        if removals[0] {
          var more := RoundIsRun(cfg, Exec(cfg, w, steps), files - 1, results[1..], removals[1..]);
          ExecConcat(cfg, w, steps, more);
          steps := steps + more;
        }
      }
    }
  }
}
