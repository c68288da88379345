/** The replayer's alert manager in its own form: a map of counters that is updated and pruned, a map of states, and
    the files it writes (reprocesador/reprocess_alerts.go). Every method is proved to be steps of the machine. */
module ReplayAlertManagers {
  import opened Options
  import opened ReplayAlerts
  import opened ReplayCounters

  lemma IsPruned(m: BySecond, all: BySecond, limit: int)
    requires forall k :: k in m <==> k in all && k >= limit
    requires forall k :: k in m ==> m[k] == all[k]
    ensures m == Pruned(all, limit)
  {
    forall k ensures k in m <==> k in Pruned(all, limit) {
    }
    forall k | k in m ensures m[k] == Pruned(all, limit)[k] {
    }
  }

  lemma HasMember(s: set<int>)
    requires s != {}
    ensures exists k :: k in s
  {
    if forall k :: k !in s {
      assert false;
    }
  }

  // ---- The manager ----

  class ReplayAlertManager {
    const cfg: Config
    var counters: BySecond
    var states: States
    var nextId: nat

    /** The state file. */
    var disk: States

    /** Every record put in the outbox, and the alert of every identifier drawn. */
    ghost var log: seq<Record>
    ghost var owner: seq<Alert>

    ghost function View(): World
      reads this
    {
      World(states, disk, counters, log, owner)
    }

    ghost predicate Valid()
      reads this`nextId, this`owner
    {
      nextId == |owner| + 1
    }

    constructor (cfg: Config)
      ensures Valid() && this.cfg == cfg && View() == Init
    {
      this.cfg := cfg;
      counters, states, disk, nextId := map[], map[], map[], 1;
      log, owner := [], [];
    }

    /** Adds a cycle to its second and forgets the seconds well before the window. */
    method RecordCycle(second: int, result: Counters)
      modifies this`counters
      ensures counters == Recorded(old(counters), Cycle(second, result), cfg.window)
      ensures View() == Do(cfg, old(View()), Count(Cycle(second, result)))
    {
      var counter := if second in counters then counters[second] else NoCounts;
      counters := counters[second := Plus(counter, result)];
      Prune(second - cfg.window - 120);
    }

    method Prune(limit: int)
      modifies this`counters
      ensures counters == Pruned(old(counters), limit)
    {
      ghost var all := counters;
      var keys := counters.Keys;
      while keys != {}
        invariant keys <= all.Keys
        invariant forall k :: k in counters <==> k in all && (k in keys || k >= limit)
        invariant forall k :: k in counters ==> counters[k] == all[k]
      {
        HasMember(keys);
        var key :| key in keys;
        if key < limit {
          counters := counters - {key};
        }
        keys := keys - {key};
      }
      IsPruned(counters, all, limit);
    }

    /** Adds up the counters of a window. */
    method CounterSnapshot(start: int, end: int) returns (r: Counters)
      ensures r == Window(counters, start, end)
    {
      r := NoCounts;
      var keys := counters.Keys;
      ghost var seen: BySecond := map[];
      EmptyIsZero(start, end);
      while keys != {}
        invariant keys <= counters.Keys
        invariant seen == map k | k in counters && k !in keys :: counters[k]
        invariant r == Window(seen, start, end)
      {
        HasMember(keys);
        var key :| key in keys;
        WindowGrows(seen, key, counters[key], start, end);
        seen := seen[key := counters[key]];
        if start <= key <= end {
          r := Plus(r, counters[key]);
        }
        keys := keys - {key};
      }
      assert seen == counters;
    }

    method PersistStates(ok: bool) returns (err: bool)
      modifies this`disk
      ensures err == !ok && disk == if ok then states else old(disk)
    {
      if ok {
        disk := states;
      }
      err := !ok;
    }

    /** Saves the states, puts the alert's record in the outbox, marks it delivered and saves again. */
    method Publish(alert: Alert, io: Io) returns (ok: bool)
      modifies this`states, this`disk, this`log
      ensures View() == Announce(old(View()), alert, io)
      ensures ok <==> io.saved && io.enqueued && io.savedAgain
    {
      var err := PersistStates(io.saved);
      if err {
        return false;
      }
      if !io.enqueued {
        return false;
      }
      var state := Get(states, alert);
      log := log + [state.record];
      states := states[alert := state.(deliveryNeeded := false)];
      err := PersistStates(io.savedAgain);
      ok := !err;
    }

    /** The new state of an alert, and whether it is to be announced. */
    method Observe(before: State, limits: Limits, indicator: real, now: int, id: Option<nat>) returns (turn: Turn)
      ensures turn == Next(cfg, limits, before, indicator, now, id)
    {
      var state := before;
      if !state.active {
        state := state.(clear := 0);
        if indicator < limits.threshold {
          return Turn(state.(breach := 0), false);
        }
        state := state.(breach := state.breach + 1);
        if state.breach < cfg.triggerWindows || id.None? {
          return Turn(state, false);
        }
        var record := Record(id.value, now, None, limits.threshold, indicator, Active);
        return Turn(State(record, true, 0, 0, now, true), true);
      }
      state := state.(breach := 0);
      if indicator > state.record.indicator {
        state := state.(record := state.record.(indicator := indicator), deliveryNeeded := true);
      }
      state := state.(clear := if indicator < limits.clear then state.clear + 1 else 0);
      if state.clear >= cfg.clearWindows {
        state := state.(active := false, clear := 0, lastEmitted := now, deliveryNeeded := true,
                        record := state.record.(phase := Cleared, end := Some(now)));
        return Turn(state, true);
      }
      if state.deliveryNeeded && now - state.lastEmitted >= cfg.activeUpdate {
        return Turn(state.(lastEmitted := now), true);
      }
      turn := Turn(state, false);
    }

    /** One observation of one alert, with its file operations in the order of the source. */
    method ApplyObservation(alert: Alert, sample: Sample, now: int, io: Io)
      requires Valid()
      modifies this`states, this`disk, this`log, this`owner, this`nextId
      ensures Valid() && View() == Apply(cfg, old(View()), alert, sample, now, io)
    {
      var before := Get(states, alert);
      var id := if io.idOk then Some(nextId) else None;
      var turn := Observe(before, LimitsOf(cfg, alert), Percentage(sample), now, id);
      assert turn == TurnOf(cfg, View(), alert, sample, now, io.idOk);
      states := states[alert := turn.state];
      if !before.active && turn.state.active {
        nextId, owner := nextId + 1, owner + [alert];
      }
      if turn.announces {
        var _ := Publish(alert, io);
      }
    }

    /** One evaluation of one alert from what was observed for it. */
    method EvaluateAlert(alert: Alert, sample: Sample, now: int, io: Io, ghost backlog: Sample)
      requires Valid() && sample == Observed(cfg, counters, alert, backlog, now)
      modifies this`states, this`disk, this`log, this`owner, this`nextId
      ensures Valid() && View() == Do(cfg, old(View()), Evaluate(alert, backlog, now, io))
    {
      if sample.denominator >= cfg.minimumBatches || Get(states, alert).active {
        ApplyObservation(alert, sample, now, io);
      }
    }

    /** One evaluation of the three alerts, which are three steps; `ios` gives the outcomes of each. */
    method EvaluateAll(now: int, backlog: Sample, ios: seq<Io>) returns (ghost first: World, ghost second: World)
      requires Valid() && |ios| == 3
      modifies this`states, this`disk, this`log, this`owner, this`nextId
      ensures Valid()
      ensures first == Do(cfg, old(View()), Evaluate(Backlog, backlog, now, ios[0]))
      ensures second == Do(cfg, first, Evaluate(FailureRate, backlog, now, ios[1]))
      ensures View() == Do(cfg, second, Evaluate(QuarantineRate, backlog, now, ios[2]))
    {
      var counts := CounterSnapshot(now - cfg.window + 1, now);
      EvaluateAlert(Backlog, SampleOf(Backlog, backlog, counts), now, ios[0], backlog);
      first := View();
      EvaluateAlert(FailureRate, SampleOf(FailureRate, backlog, counts), now, ios[1], backlog);
      second := View();
      EvaluateAlert(QuarantineRate, SampleOf(QuarantineRate, backlog, counts), now, ios[2], backlog);
    }

    /** A restart: counters are gone and the states are those of the file. */
    method LoadStates()
      modifies this`counters, this`states
      ensures View() == Do(cfg, old(View()), Restart)
    {
      counters, states := map[], disk;
    }
  }
}
