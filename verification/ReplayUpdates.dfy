/** What the replayer enqueues, and when, in runs without failures or restarts (reprocesador/reprocess_alerts.go): stated on
    the log of enqueued records and the times they were enqueued, against the observations alone. */
module ReplayUpdates {
  import opened Options
  import opened ReplayAlerts
  import opened ReplayCounters
  import opened ReplayHysteresis
  import H = Hysteresis

  predicate AllGood(io: Io) {
    io == Io(true, true, true, true)
  }

  predicate NoFailure(steps: seq<Step>) {
    forall i :: 0 <= i < |steps| ==> StepIsGood(steps[i])
  }

  predicate StepIsGood(step: Step) {
    !step.Restart? && (step.Evaluate? ==> AllGood(step.io))
  }

  /** The time of each record in the log: the clock of the evaluation that enqueued it. */
  ghost function Times(cfg: Config, steps: seq<Step>): seq<int> {
    if steps == [] then []
    else
      var init, step := steps[..|steps| - 1], steps[|steps| - 1];
      if step.Evaluate? then Stamped(Times(cfg, init), |Run(cfg, Init, steps).log|, step.now) else Times(cfg, init)
  }

  function Stamped(times: seq<int>, length: nat, now: int): seq<int> {
    if length <= |times| then times else times + seq(length - |times|, _ => now)
  }

  predicate IsOf(r: Record, owner: seq<Alert>, alert: Alert) {
    0 < r.id <= |owner| && owner[r.id - 1] == alert
  }

  /** The last record enqueued for an alert, and its position. */
  function LastAt(log: seq<Record>, owner: seq<Alert>, alert: Alert): (i: Option<nat>)
    ensures i.Some? ==> i.value < |log| && IsOf(log[i.value], owner, alert)
  {
    if log == [] then None
    else if IsOf(log[|log| - 1], owner, alert) then Some(|log| - 1)
    else LastAt(log[..|log| - 1], owner, alert)
  }

  lemma {:induction false} LastAtFrame(log: seq<Record>, owner: seq<Alert>, more: seq<Alert>, alert: Alert)
    requires forall i :: 0 <= i < |log| ==> 0 < log[i].id <= |owner|
    ensures LastAt(log, owner + more, alert) == LastAt(log, owner, alert)
  {
    if log != [] {
      LastAtFrame(log[..|log| - 1], owner, more, alert);
    }
  }

  lemma LastAtSnoc(log: seq<Record>, r: Record, owner: seq<Alert>, alert: Alert)
    ensures LastAt(log + [r], owner, alert) == if IsOf(r, owner, alert) then Some(|log|) else LastAt(log, owner, alert)
  {
    assert (log + [r])[..|log|] == log;
  }

  // ---- What memory and the log agree on ----

  function LastSent(w: World, times: seq<int>, alert: Alert): Option<(Record, int)>
    requires |times| == |w.log|
  {
    var at := LastAt(w.log, w.owner, alert);
    if at.None? then None else Some((w.log[at.value], times[at.value]))
  }

  /** A state is its last enqueued record, but for a peak that rose since. */
  predicate StateTold(s: State, last: Option<(Record, int)>) {
    if last.None? then s.record.id == 0 && !s.active && !s.deliveryNeeded
    else
      var (r, time) := last.value;
      && s.lastEmitted == time
      && s.record == r.(indicator := s.record.indicator) && s.record.indicator >= r.indicator
      && (s.deliveryNeeded <==> s.record.indicator > r.indicator) && (s.deliveryNeeded ==> s.active)
  }

  predicate Told(w: World, times: seq<int>, alert: Alert)
    requires |times| == |w.log|
  {
    StateTold(Get(w.mem, alert), LastSent(w, times, alert))
  }

  ghost predicate AllTold(w: World, times: seq<int>) {
    && |times| == |w.log| && (forall alert :: Told(w, times, alert))
    && forall i :: 0 <= i < |w.log| ==> 0 < w.log[i].id <= |w.owner|
  }

  /** What an evaluation without failures enqueues, from the alert's last enqueued record and the control its
      observations have brought it to. */
  function Sent(cfg: Config, alert: Alert, before: H.Control, after: H.Control, last: Option<(Record, int)>,
                x: real, now: int, id: nat): seq<Record> {
    if !before.active && after.active then [Record(id, now, None, LimitsOf(cfg, alert).threshold, x, Active)]
    else if last.None? then []
    else if before.active && !after.active then [last.value.0.(indicator := after.peak, phase := Cleared, end := Some(now))]
    else if before.active && after.peak > last.value.0.indicator && now - last.value.1 >= cfg.activeUpdate
      then [last.value.0.(indicator := after.peak)]
    else []
  }

  lemma NextSends(cfg: Config, alert: Alert, s: State, x: real, now: int, id: nat, last: Option<(Record, int)>)
    requires StateTold(s, last)
    ensures var t := Next(cfg, LimitsOf(cfg, alert), s, x, now, Some(id));
      && Sent(cfg, alert, ControlOf(s), ControlOf(t.state), last, x, now, id)
         == (if t.announces then [t.state.record] else [])
      && (t.announces ==> t.state.lastEmitted == now)
      && t.state.record.id == (if Opens(s, t.state) then id else s.record.id)
      && (!t.announces ==> StateTold(t.state, last) && !Opens(s, t.state))
      && (last.Some? && !t.announces && t.state.record != last.value.0 ==> now - last.value.1 < cfg.activeUpdate)
  {
  }

  /** An alert's record was put in the outbox and its state left clean. */
  lemma SendingTells(w: World, w': World, times: seq<int>, alert: Alert, now: int)
    requires AllTold(w, times) && (w'.owner == w.owner || w'.owner == w.owner + [alert])
    requires var s := Get(w'.mem, alert);
      && w'.mem == w.mem[alert := s] && w'.log == w.log + [s.record]
      && IsOf(s.record, w'.owner, alert) && s.lastEmitted == now && !s.deliveryNeeded
    ensures AllTold(w', times + [now])
  {
    var r, more := Get(w'.mem, alert).record, w'.owner[|w.owner|..];
    assert w'.owner == w.owner + more;
    forall a ensures Told(w', times + [now], a) {
      assert Told(w, times, a);
      LastAtFrame(w.log, w.owner, more, a);
      LastAtSnoc(w.log, r, w'.owner, a);
    }
  }

  lemma QuietTells(w: World, w': World, times: seq<int>, alert: Alert)
    requires AllTold(w, times) && w'.log == w.log && w'.owner == w.owner
    requires w'.mem == w.mem[alert := Get(w'.mem, alert)]
    requires StateTold(Get(w'.mem, alert), LastSent(w, times, alert))
    ensures AllTold(w', times)
  {
    forall a ensures Told(w', times, a) {
      assert Told(w, times, a);
    }
  }

  /** With nothing failing, an evaluation puts the record it announces in the outbox. */
  lemma ApplyAnnounces(cfg: Config, w: World, alert: Alert, sample: Sample, now: int, io: Io)
    requires AllGood(io)
    ensures var s, t, w' := Get(w.mem, alert), TurnOf(cfg, w, alert, sample, now, true), Apply(cfg, w, alert, sample, now, io);
      && w'.owner == (if Opens(s, t.state) then w.owner + [alert] else w.owner)
      && w'.mem == w.mem[alert := if t.announces then t.state.(deliveryNeeded := false) else t.state]
      && w'.log == w.log + (if t.announces then [t.state.record] else [])
  {
    var t := TurnOf(cfg, w, alert, sample, now, true);
    assert w.mem[alert := t.state][alert := t.state.(deliveryNeeded := false)] == w.mem[alert := t.state.(deliveryNeeded := false)];
  }

  lemma ApplyTells(cfg: Config, w: World, times: seq<int>, alert: Alert, sample: Sample, now: int, io: Io)
    requires AllTold(w, times) && AllGood(io)
    ensures var w', x := Apply(cfg, w, alert, sample, now, io), Percentage(sample);
      var c := ControlOf(Get(w.mem, alert));
      var c' := H.AdvanceIf(Windows(cfg), c, ObsOf(cfg, alert, x), true);
      && w'.log == w.log + Sent(cfg, alert, c, c', LastSent(w, times, alert), x, now, |w.owner| + 1)
      && AllTold(w', Stamped(times, |w'.log|, now))
  {
    var s, t, w' := Get(w.mem, alert), TurnOf(cfg, w, alert, sample, now, true), Apply(cfg, w, alert, sample, now, io);
    assert Told(w, times, alert);
    NextAdvances(cfg, alert, s, Percentage(sample), now, Some(|w.owner| + 1));
    NextSends(cfg, alert, s, Percentage(sample), now, |w.owner| + 1, LastSent(w, times, alert));
    ApplyAnnounces(cfg, w, alert, sample, now, io);
    if t.announces {
      assert Stamped(times, |w'.log|, now) == times + [now];
      RecordIsOwn(w, times, alert, t.state, w'.owner);
      SendingTells(w, w', times, alert, now);
    } else {
      QuietTells(w, w', times, alert);
    }
  }

  lemma RecordIsOwn(w: World, times: seq<int>, alert: Alert, s: State, owner: seq<Alert>)
    requires AllTold(w, times)
    requires if Opens(Get(w.mem, alert), s) then s.record.id == |w.owner| + 1 && owner == w.owner + [alert]
             else s.record.id == Get(w.mem, alert).record.id && owner == w.owner && LastSent(w, times, alert).Some?
    ensures IsOf(s.record, owner, alert)
  {
    assert Told(w, times, alert);
  }

  lemma CountTells(cfg: Config, w: World, times: seq<int>, cycle: Cycle)
    requires AllTold(w, times)
    ensures AllTold(Do(cfg, w, Count(cycle)), times)
  {
    forall a ensures Told(Do(cfg, w, Count(cycle)), times, a) {
      assert Told(w, times, a);
    }
  }

  lemma {:induction false} HistoryTells(cfg: Config, steps: seq<Step>)
    requires NoFailure(steps)
    ensures AllTold(Run(cfg, Init, steps), Times(cfg, steps))
  {
    if steps != [] {
      var init, step := steps[..|steps| - 1], steps[|steps| - 1];
      HistoryTells(cfg, init);
      var w := Run(cfg, Init, init);
      assert StepIsGood(step);
      match step
      case Count(cycle) => CountTells(cfg, w, Times(cfg, init), cycle);
      case Evaluate(alert, backlog, now, io) =>
        ApplyTells(cfg, w, Times(cfg, init), alert, Observed(cfg, w.counters, alert, backlog, now), now, io);
    }
  }

  // ---- The laws ----

  /** The whole log of a run without failures or restarts, step by step: an opening, a closing, and in between a record
      whenever the peak lies above the last enqueued one and `activeUpdate` seconds have passed since it was
      enqueued; nothing else, and nothing of another alert. */
  lemma LogFollowsObservations(cfg: Config, past: seq<Step>, step: Step)
    requires NoFailure(past + [step])
    ensures var w, w', times := Run(cfg, Init, past), Run(cfg, Init, past + [step]), Times(cfg, past);
      && |times| == |w.log|
      && (!step.Evaluate? ==> w'.log == w.log)
      && (step.Evaluate? ==>
            var c := PlayIf(cfg, ControlOf(Fresh), Seen(cfg, Init, past, step.alert));
            var c' := PlayIf(cfg, ControlOf(Fresh), Seen(cfg, Init, past + [step], step.alert));
            var x := Percentage(Observed(cfg, w.counters, step.alert, step.backlog, step.now));
            w'.log == w.log + Sent(cfg, step.alert, c, c', LastSent(w, times, step.alert), x, step.now, |w.owner| + 1))
  {
    var all := past + [step];
    assert all[..|past|] == past && forall i :: 0 <= i < |past| ==> past[i] == all[i];
    assert StepIsGood(all[|past|]);
    HistoryTells(cfg, past);
    if step.Evaluate? {
      EvaluationTells(cfg, past, step);
    }
  }

  lemma EvaluationTells(cfg: Config, past: seq<Step>, step: Step)
    requires NoFailure(past) && StepIsGood(step) && step.Evaluate?
    requires AllTold(Run(cfg, Init, past), Times(cfg, past))
    ensures var w, w', times := Run(cfg, Init, past), Run(cfg, Init, past + [step]), Times(cfg, past);
      var c := PlayIf(cfg, ControlOf(Fresh), Seen(cfg, Init, past, step.alert));
      var c' := PlayIf(cfg, ControlOf(Fresh), Seen(cfg, Init, past + [step], step.alert));
      var x := Percentage(Observed(cfg, w.counters, step.alert, step.backlog, step.now));
      w'.log == w.log + Sent(cfg, step.alert, c, c', LastSent(w, times, step.alert), x, step.now, |w.owner| + 1)
  {
    var w, all, alert := Run(cfg, Init, past), past + [step], step.alert;
    assert all[..|past|] == past;
    RunPlaysEachAlert(cfg, Init, past, alert);
    SeenSnoc(cfg, Init, past, step, alert);
    var sample := Observed(cfg, w.counters, alert, step.backlog, step.now);
    var seen, more := Seen(cfg, Init, past, alert), SeenAt(cfg, Init, all, alert);
    if more == [] {
      assert seen + [] == seen && w.log + [] == w.log;
    } else {
      PlayIfSnoc(cfg, ControlOf(Fresh), seen, more[0]);
      ApplyTells(cfg, w, Times(cfg, past), alert, sample, step.now, step.io);
    }
  }

  /** After every evaluation of an alert that was looked at, either its last enqueued record is its record in memory, or
      a record of the same incident was enqueued less than `activeUpdate` seconds ago. */
  lemma UpdatesAreTimely(cfg: Config, past: seq<Step>, step: Step)
    requires NoFailure(past + [step]) && step.Evaluate? && SeenAt(cfg, Init, past + [step], step.alert) != []
    ensures var w', times := Run(cfg, Init, past + [step]), Times(cfg, past + [step]);
      && |times| == |w'.log|
      && var r, last := Get(w'.mem, step.alert).record, LastSent(w', times, step.alert);
         if last.None? then r.id == 0
         else r.id == last.value.0.id && (r == last.value.0 || step.now - last.value.1 < cfg.activeUpdate)
  {
    var all, alert := past + [step], step.alert;
    assert all[..|past|] == past && StepIsGood(all[|past|]) && forall i :: 0 <= i < |past| ==> past[i] == all[i];
    HistoryTells(cfg, past);
    HistoryTells(cfg, all);
    RunPlaysEachAlert(cfg, Init, past, alert);
    var w, w', times := Run(cfg, Init, past), Run(cfg, Init, all), Times(cfg, past);
    var sample := Observed(cfg, w.counters, alert, step.backlog, step.now);
    assert Told(w, times, alert) && Told(w', Times(cfg, all), alert);
    NextSends(cfg, alert, Get(w.mem, alert), Percentage(sample), step.now, |w.owner| + 1, LastSent(w, times, alert));
    ApplyAnnounces(cfg, w, alert, sample, step.now, step.io);
    var t := TurnOf(cfg, w, alert, sample, step.now, true);
    if t.announces {
      RecordIsOwn(w, times, alert, t.state, w'.owner);
      LastAtSnoc(w.log, t.state.record, w'.owner, alert);
    } else {
      assert w.log + [] == w.log;
    }
  }
}
