/** When the closing record of one of the replayer's incidents is sent, and when it is lost for good. */
module ReplayLosses {
  import opened ReplayAlerts
  import opened ReplayCounters

  // ---- Incidents ----

  /** Identifier `id` was drawn for an incident of `alert`. */
  predicate Drawn(w: World, alert: Alert, id: nat) {
    0 < id <= |w.owner| && w.owner[id - 1] == alert
  }

  /** The incident is the alert's and still open. */
  predicate Held(m: States, alert: Alert, id: nat) {
    Get(m, alert).active && Get(m, alert).record.id == id
  }

  ghost predicate Closed(log: seq<Record>, id: nat) {
    exists i :: 0 <= i < |log| && log[i].id == id && log[i].phase.Cleared?
  }

  predicate StateOk(s: State, alert: Alert, owner: seq<Alert>) {
    && s.record.id <= |owner|
    && (s.record.id > 0 ==> owner[s.record.id - 1] == alert)
    && (s.active ==> s.record.id > 0 && s.record.phase.Active?)
  }

  ghost predicate StatesOk(m: States, owner: seq<Alert>) {
    forall alert :: StateOk(Get(m, alert), alert, owner)
  }

  predicate RecordOk(r: Record, owner: seq<Alert>) {
    0 < r.id <= |owner|
  }

  /** A closed incident is open neither in memory nor on disk. */
  predicate ClosedOut(w: World, r: Record) {
    RecordOk(r, w.owner) && r.phase.Cleared? ==>
      !Held(w.mem, w.owner[r.id - 1], r.id) && !Held(w.disk, w.owner[r.id - 1], r.id)
  }

  ghost predicate LogOk(w: World) {
    && (forall i :: 0 <= i < |w.log| ==> RecordOk(w.log[i], w.owner) && ClosedOut(w, w.log[i]))
    && (forall i, j :: 0 <= i < j < |w.log| && w.log[i].id == w.log[j].id ==> !w.log[i].phase.Cleared?)
  }

  ghost predicate Inv(w: World) {
    StatesOk(w.mem, w.owner) && StatesOk(w.disk, w.owner) && LogOk(w)
  }

  // ---- What an observation can do ----

  predicate TurnOk(s: State, t: Turn, alert: Alert, owner: seq<Alert>) {
    var owner' := if Opens(s, t.state) then owner + [alert] else owner;
    && StateOk(t.state, alert, owner')
    && t.state.record.id == (if Opens(s, t.state) then |owner| + 1 else s.record.id)
    && (t.announces ==> t.state.record.id > 0 && (t.state.active || (s.active && t.state.record.phase.Cleared?)))
    && (s.active && !t.state.active ==> t.announces)
  }

  lemma TurnsAreOk(cfg: Config, w: World, alert: Alert, sample: Sample, now: int, idOk: bool)
    requires StateOk(Get(w.mem, alert), alert, w.owner)
    ensures TurnOk(Get(w.mem, alert), TurnOf(cfg, w, alert, sample, now, idOk), alert, w.owner)
  {
  }

  /** Memory after an observation, before any file operation. */
  function Turned(w: World, alert: Alert, t: Turn): World {
    w.(mem := w.mem[alert := t.state],
       owner := if Opens(Get(w.mem, alert), t.state) then w.owner + [alert] else w.owner)
  }

  lemma TurnKeepsStates(w: World, alert: Alert, t: Turn)
    requires Inv(w) && TurnOk(Get(w.mem, alert), t, alert, w.owner)
    ensures StatesOk(Turned(w, alert, t).mem, Turned(w, alert, t).owner)
    ensures StatesOk(Turned(w, alert, t).disk, Turned(w, alert, t).owner)
  {
    var w' := Turned(w, alert, t);
    forall other ensures StateOk(Get(w'.mem, other), other, w'.owner) && StateOk(Get(w'.disk, other), other, w'.owner) {
      assert StateOk(Get(w.mem, other), other, w.owner) && StateOk(Get(w.disk, other), other, w.owner);
    }
  }

  lemma TurnKeepsInv(w: World, alert: Alert, t: Turn)
    requires Inv(w) && TurnOk(Get(w.mem, alert), t, alert, w.owner)
    ensures Inv(Turned(w, alert, t))
  {
    TurnKeepsStates(w, alert, t);
    var w' := Turned(w, alert, t);
    forall i | 0 <= i < |w'.log| ensures RecordOk(w'.log[i], w'.owner) && ClosedOut(w', w'.log[i]) {
      assert RecordOk(w.log[i], w.owner) && ClosedOut(w, w.log[i]);
    }
  }

  lemma SaveKeepsInv(w: World)
    requires Inv(w)
    ensures Inv(w.(disk := w.mem))
  {
    var w' := w.(disk := w.mem);
    forall i | 0 <= i < |w'.log| ensures ClosedOut(w', w'.log[i]) {
      assert ClosedOut(w, w.log[i]);
    }
  }

  /** A record is put in the outbox when the disk holds the state it belongs to; a closing record only then, and
      for the first time. */
  lemma SendKeepsInv(w: World, alert: Alert)
    requires Inv(w) && w.disk == w.mem && Get(w.mem, alert).record.id > 0
    requires Get(w.mem, alert).active || !Closed(w.log, Get(w.mem, alert).record.id)
    ensures var s := Get(w.mem, alert);
      Inv(w.(mem := w.mem[alert := s.(deliveryNeeded := false)], log := w.log + [s.record]))
  {
    var s := Get(w.mem, alert);
    var w' := w.(mem := w.mem[alert := s.(deliveryNeeded := false)], log := w.log + [s.record]);
    assert StateOk(s, alert, w.owner);
    forall other ensures StateOk(Get(w'.mem, other), other, w'.owner) {
      assert StateOk(Get(w.mem, other), other, w.owner);
    }
    forall i | 0 <= i < |w'.log| ensures RecordOk(w'.log[i], w'.owner) && ClosedOut(w', w'.log[i]) {
      if i < |w.log| {
        assert RecordOk(w.log[i], w.owner) && ClosedOut(w, w.log[i]);
      }
    }
    forall i, j | 0 <= i < j < |w'.log| && w'.log[i].id == w'.log[j].id ensures !w'.log[i].phase.Cleared? {
      if j == |w.log| && s.active {
        assert ClosedOut(w, w.log[i]);
      }
    }
  }

  lemma AnnounceKeepsInv(w: World, alert: Alert, io: Io)
    requires Inv(w) && Get(w.mem, alert).record.id > 0
    requires Get(w.mem, alert).active || !Closed(w.log, Get(w.mem, alert).record.id)
    ensures Inv(Announce(w, alert, io))
  {
    if io.saved {
      SaveKeepsInv(w);
      var saved := w.(disk := w.mem);
      if io.enqueued {
        SendKeepsInv(saved, alert);
        var s := Get(w.mem, alert);
        SaveKeepsInv(saved.(mem := w.mem[alert := s.(deliveryNeeded := false)], log := w.log + [s.record]));
      }
    }
  }

  lemma HeldIsNotClosed(w: World, alert: Alert, id: nat)
    requires Inv(w) && (Held(w.mem, alert, id) || Held(w.disk, alert, id))
    ensures !Closed(w.log, id)
  {
    assert StateOk(Get(w.mem, alert), alert, w.owner) && StateOk(Get(w.disk, alert), alert, w.owner);
    forall i | 0 <= i < |w.log| ensures !(w.log[i].id == id && w.log[i].phase.Cleared?) {
      assert RecordOk(w.log[i], w.owner) && ClosedOut(w, w.log[i]);
    }
  }

  lemma ApplyKeepsInv(cfg: Config, w: World, alert: Alert, sample: Sample, now: int, io: Io)
    requires Inv(w)
    ensures Inv(Apply(cfg, w, alert, sample, now, io))
  {
    var s, t := Get(w.mem, alert), TurnOf(cfg, w, alert, sample, now, io.idOk);
    assert StateOk(s, alert, w.owner);
    TurnsAreOk(cfg, w, alert, sample, now, io.idOk);
    TurnKeepsInv(w, alert, t);
    if t.announces {
      if s.active {
        HeldIsNotClosed(w, alert, s.record.id);
      }
      AnnounceKeepsInv(Turned(w, alert, t), alert, io);
    }
  }

  lemma RestartKeepsInv(cfg: Config, w: World)
    requires Inv(w)
    ensures Inv(Do(cfg, w, Restart))
  {
    var w' := Do(cfg, w, Restart);
    forall i | 0 <= i < |w'.log| ensures ClosedOut(w', w'.log[i]) {
      assert ClosedOut(w, w.log[i]);
    }
  }

  lemma StepKeepsInv(cfg: Config, w: World, step: Step)
    requires Inv(w)
    ensures Inv(Do(cfg, w, step))
  {
    match step
    case Count(cycle) =>
      var w' := Do(cfg, w, step);
      forall i | 0 <= i < |w'.log| ensures ClosedOut(w', w'.log[i]) {
        assert ClosedOut(w, w.log[i]);
      }
    case Evaluate(alert, backlog, now, io) =>
      ApplyKeepsInv(cfg, w, alert, Observed(cfg, w.counters, alert, backlog, now), now, io);
    case Restart => RestartKeepsInv(cfg, w);
  }

  lemma {:induction false} RunKeepsInv(cfg: Config, w: World, steps: seq<Step>)
    requires Inv(w)
    ensures Inv(Run(cfg, w, steps))
    decreases |steps|
  {
    if steps != [] {
      RunKeepsInv(cfg, w, steps[..|steps| - 1]);
      StepKeepsInv(cfg, Run(cfg, w, steps[..|steps| - 1]), steps[|steps| - 1]);
    }
  }

  ghost function Reached(cfg: Config, past: seq<Step>): World {
    Run(cfg, Init, past)
  }

  /** In every run an incident's closing record is put in the outbox at most once, and nothing of the incident after
      it. */
  lemma ClosingIsSentOnce(cfg: Config, past: seq<Step>, i: nat, j: nat)
    requires i < j < |Reached(cfg, past).log| && Reached(cfg, past).log[i].id == Reached(cfg, past).log[j].id
    ensures !Reached(cfg, past).log[i].phase.Cleared?
  {
    RunKeepsInv(cfg, Init, past);
  }

  // ---- What can no longer be closed ----

  /** Open neither in memory nor on disk, and not closed. */
  ghost predicate Lost(w: World, alert: Alert, id: nat) {
    !Held(w.mem, alert, id) && !Held(w.disk, alert, id) && !Closed(w.log, id)
  }

  lemma LogGrows(log: seq<Record>, r: Record, id: nat)
    ensures Closed(log + [r], id) <==> Closed(log, id) || (r.id == id && r.phase.Cleared?)
  {
    var log' := log + [r];
    if Closed(log, id) {
      var i :| 0 <= i < |log| && log[i].id == id && log[i].phase.Cleared?;
      assert log'[i] == log[i];
    }
    if r.id == id && r.phase.Cleared? {
      assert log'[|log|] == r;
    }
  }

  /** What an announcement does to one incident. */
  lemma AnnounceEffect(w: World, alert: Alert, io: Io, a: Alert, id: nat)
    ensures var w', r := Announce(w, alert, io), Get(w.mem, alert).record;
      && (Held(w'.mem, a, id) <==> Held(w.mem, a, id))
      && (Held(w'.disk, a, id) <==> if io.saved then Held(w.mem, a, id) else Held(w.disk, a, id))
      && (Closed(w'.log, id) <==> Closed(w.log, id) || (io.saved && io.enqueued && r.id == id && r.phase.Cleared?))
  {
    if io.saved && io.enqueued {
      LogGrows(w.log, Get(w.mem, alert).record, id);
    }
  }

  /** What an evaluation does to one drawn incident: only its own alert can close it, and only while it is open. */
  lemma ApplyEffect(cfg: Config, w: World, alert: Alert, sample: Sample, now: int, io: Io, a: Alert, id: nat)
    requires Inv(w) && Drawn(w, a, id)
    ensures var t, w' := TurnOf(cfg, w, alert, sample, now, io.idOk), Apply(cfg, w, alert, sample, now, io);
      var closes := alert == a && Held(w.mem, a, id) && !t.state.active;
      && Drawn(w', a, id)
      && (Held(w'.mem, a, id) <==> Held(w.mem, a, id) && !closes)
      && (Held(w'.disk, a, id) <==> if t.announces && io.saved then Held(w'.mem, a, id) else Held(w.disk, a, id))
      && (Closed(w'.log, id) <==> Closed(w.log, id) || (closes && io.saved && io.enqueued))
  {
    var s, t := Get(w.mem, alert), TurnOf(cfg, w, alert, sample, now, io.idOk);
    assert StateOk(s, alert, w.owner);
    TurnsAreOk(cfg, w, alert, sample, now, io.idOk);
    var turned := Turned(w, alert, t);
    if t.announces {
      AnnounceEffect(turned, alert, io, a, id);
    }
  }

  lemma StepKeepsLost(cfg: Config, w: World, step: Step, alert: Alert, id: nat)
    requires Inv(w) && Drawn(w, alert, id) && Lost(w, alert, id)
    ensures Drawn(Do(cfg, w, step), alert, id) && Lost(Do(cfg, w, step), alert, id)
  {
    if step.Evaluate? {
      var sample := Observed(cfg, w.counters, step.alert, step.backlog, step.now);
      ApplyEffect(cfg, w, step.alert, sample, step.now, step.io, alert, id);
    }
  }

  lemma {:induction false} LostForever(cfg: Config, w: World, steps: seq<Step>, alert: Alert, id: nat)
    requires Inv(w) && Drawn(w, alert, id) && Lost(w, alert, id)
    ensures Drawn(Run(cfg, w, steps), alert, id) && Lost(Run(cfg, w, steps), alert, id)
    decreases |steps|
  {
    if steps != [] {
      var init := steps[..|steps| - 1];
      LostForever(cfg, w, init, alert, id);
      RunKeepsInv(cfg, w, init);
      StepKeepsLost(cfg, Run(cfg, w, init), steps[|steps| - 1], alert, id);
    }
  }

  /** With a clear percentage of zero no observation is below it, and nothing is ever closed. */
  lemma {:induction false} ZeroNeverCloses(cfg: Config, w: World, steps: seq<Step>, alert: Alert, id: nat)
    requires Validated(cfg) && LimitsOf(cfg, alert).clear == 0.0
    requires Inv(w) && Drawn(w, alert, id) && !Closed(w.log, id)
    ensures Drawn(Run(cfg, w, steps), alert, id) && !Closed(Run(cfg, w, steps).log, id)
    decreases |steps|
  {
    if steps != [] {
      var init, last := steps[..|steps| - 1], steps[|steps| - 1];
      ZeroNeverCloses(cfg, w, init, alert, id);
      RunKeepsInv(cfg, w, init);
      if last.Evaluate? {
        var before := Run(cfg, w, init);
        var sample := Observed(cfg, before.counters, last.alert, last.backlog, last.now);
        ApplyEffect(cfg, before, last.alert, sample, last.now, last.io, alert, id);
      }
    }
  }

  // ---- What can still be closed ----

  /** Some run from here on puts the closing record in the outbox, or it was put there already. */
  ghost predicate CanClose(cfg: Config, w: World, id: nat) {
    exists steps :: Closed(Run(cfg, w, steps).log, id)
  }

  const AllWell: Io := Io(true, true, true, true)

  /** An evaluation with nothing to report. */
  function CalmStep(alert: Alert, now: int): Step {
    Evaluate(alert, Sample(0, 0), now, AllWell)
  }

  predicate AllBefore(counters: BySecond, second: int) {
    forall k :: k in counters ==> k < second
  }

  lemma EmptyWindow(counters: BySecond, start: int, end: int)
    requires AllBefore(counters, start)
    ensures Window(counters, start, end) == NoCounts
  {
    assert Restrict(counters, start, end) == map[];
  }

  lemma CalmStepCounts(cfg: Config, w: World, alert: Alert, now: int)
    requires AllBefore(w.counters, now - cfg.window + 1) && Inv(w)
    requires Get(w.mem, alert).active && LimitsOf(cfg, alert).clear > 0.0
    ensures var s, w' := Get(w.mem, alert), Do(cfg, w, CalmStep(alert, now));
      && w'.counters == w.counters
      && (s.clear + 1 >= cfg.clearWindows ==> Closed(w'.log, s.record.id))
      && (s.clear + 1 < cfg.clearWindows ==> Held(w'.mem, alert, s.record.id) && Get(w'.mem, alert).clear == s.clear + 1)
  {
    var s := Get(w.mem, alert);
    assert StateOk(s, alert, w.owner);
    EmptyWindow(w.counters, now - cfg.window + 1, now);
    var sample := Observed(cfg, w.counters, alert, Sample(0, 0), now);
    assert Percentage(sample) == 0.0;
    ApplyEffect(cfg, w, alert, sample, now, AllWell, alert, s.record.id);
  }

  lemma {:induction false} OpenCanClose(cfg: Config, w: World, alert: Alert, now: int) returns (steps: seq<Step>)
    requires Inv(w) && AllBefore(w.counters, now - cfg.window + 1)
    requires Get(w.mem, alert).active && LimitsOf(cfg, alert).clear > 0.0
    ensures Closed(Run(cfg, w, steps).log, Get(w.mem, alert).record.id)
    decreases cfg.clearWindows - Get(w.mem, alert).clear
  {
    CalmStepCounts(cfg, w, alert, now);
    steps := [CalmStep(alert, now)];
    var w' := Do(cfg, w, CalmStep(alert, now));
    assert Run(cfg, w, steps) == w' by { assert steps[..0] == []; }
    if Get(w.mem, alert).clear + 1 < cfg.clearWindows {
      StepKeepsInv(cfg, w, CalmStep(alert, now));
      var more := OpenCanClose(cfg, w', alert, now);
      RunConcat(cfg, w, steps, more);
      steps := steps + more;
    }
  }

  /** There is a time later than every counted second. */
  lemma {:induction false} LaterThanAll(counters: BySecond) returns (second: int)
    ensures AllBefore(counters, second)
    decreases |counters.Keys|
  {
    second := 0;
    if k :| k in counters {
      second := LaterThanAll(counters - {k});
      assert forall j :: j in counters && j != k ==> j in counters - {k};
      if second <= k {
        second := k + 1;
      }
    }
  }

  lemma HeldCanClose(cfg: Config, w: World, alert: Alert, id: nat) returns (steps: seq<Step>)
    requires Inv(w) && LimitsOf(cfg, alert).clear > 0.0
    requires Held(w.mem, alert, id) || Held(w.disk, alert, id)
    ensures Closed(Run(cfg, w, steps).log, id)
  {
    if Held(w.mem, alert, id) {
      var later := LaterThanAll(w.counters);
      steps := OpenCanClose(cfg, w, alert, later + cfg.window);
    } else {
      var again := Do(cfg, w, Restart);
      RestartKeepsInv(cfg, w);
      var more := OpenCanClose(cfg, again, alert, 0);
      assert Run(cfg, w, [Restart]) == again by { assert [Restart][..0] == []; }
      RunConcat(cfg, w, [Restart], more);
      steps := [Restart] + more;
    }
  }

  /** The loss condition: an incident's closing record is in the outbox or some continuation of the run puts it
      there, if and only if it is there or its clear percentage is positive and the incident is still open in
      memory or on disk. */
  lemma LossIsExact(cfg: Config, past: seq<Step>, alert: Alert, id: nat)
    requires Validated(cfg) && Drawn(Reached(cfg, past), alert, id)
    ensures var w := Reached(cfg, past);
      CanClose(cfg, w, id) <==>
        || Closed(w.log, id)
        || (LimitsOf(cfg, alert).clear > 0.0 && (Held(w.mem, alert, id) || Held(w.disk, alert, id)))
  {
    var w := Reached(cfg, past);
    RunKeepsInv(cfg, Init, past);
    if Closed(w.log, id) {
      assert Run(cfg, w, []) == w;
    } else if Lost(w, alert, id) {
      forall steps ensures !Closed(Run(cfg, w, steps).log, id) {
        LostForever(cfg, w, steps, alert, id);
      }
    } else if LimitsOf(cfg, alert).clear == 0.0 {
      forall steps ensures !Closed(Run(cfg, w, steps).log, id) {
        ZeroNeverCloses(cfg, w, steps, alert, id);
      }
    } else {
      var steps := HeldCanClose(cfg, w, alert, id);
      assert CanClose(cfg, w, id);
    }
  }

  // ---- The evaluation that closes, and the save that loses ----

  /** What becomes of a closing: its record is sent now or can still be sent later if and only if the closing
      evaluation saved and enqueued it, or did not even save while the disk still holds the incident open - a
      restart then brings the incident back. Once the closed state is on disk without its record in the outbox,
      the record is lost. */
  lemma ClosingIsExact(cfg: Config, past: seq<Step>, step: Step, alert: Alert, id: nat)
    requires Validated(cfg) && step.Evaluate? && step.alert == alert
    requires Held(Reached(cfg, past).mem, alert, id) && !Held(Do(cfg, Reached(cfg, past), step).mem, alert, id)
    ensures CanClose(cfg, Do(cfg, Reached(cfg, past), step), id)
      <==> if step.io.saved then step.io.enqueued else Held(Reached(cfg, past).disk, alert, id)
  {
    var w := Reached(cfg, past);
    RunKeepsInv(cfg, Init, past);
    HeldIsNotClosed(w, alert, id);
    assert StateOk(Get(w.mem, alert), alert, w.owner);
    var sample := Observed(cfg, w.counters, alert, step.backlog, step.now);
    ApplyEffect(cfg, w, alert, sample, step.now, step.io, alert, id);
    assert (past + [step])[..|past|] == past;
    LossIsExact(cfg, past + [step], alert, id);
    ClosingNeedsPositiveClear(cfg, w, alert, sample, step.now, step.io.idOk);
  }

  lemma ClosingNeedsPositiveClear(cfg: Config, w: World, alert: Alert, sample: Sample, now: int, idOk: bool)
    requires Validated(cfg) && Get(w.mem, alert).active && !TurnOf(cfg, w, alert, sample, now, idOk).state.active
    ensures LimitsOf(cfg, alert).clear > 0.0 && TurnOf(cfg, w, alert, sample, now, idOk).announces
  {
  }

  /** The step saves the states, whatever alert it evaluates. */
  ghost predicate Saves(cfg: Config, w: World, step: Step) {
    && step.Evaluate? && step.io.saved
    && var sample := Observed(cfg, w.counters, step.alert, step.backlog, step.now);
       && ShouldEvaluate(cfg, Get(w.mem, step.alert), sample.denominator)
       && TurnOf(cfg, w, step.alert, sample, step.now, step.io.idOk).announces
  }

  /** An incident that only the disk still holds open is lost by exactly the next save, of any alert. */
  lemma SavingLoses(cfg: Config, past: seq<Step>, step: Step, alert: Alert, id: nat)
    requires var w := Reached(cfg, past); Held(w.disk, alert, id) && !Held(w.mem, alert, id)
    ensures Lost(Do(cfg, Reached(cfg, past), step), alert, id) <==> Saves(cfg, Reached(cfg, past), step)
  {
    var w := Reached(cfg, past);
    RunKeepsInv(cfg, Init, past);
    HeldIsNotClosed(w, alert, id);
    assert StateOk(Get(w.disk, alert), alert, w.owner);
    if step.Evaluate? {
      var sample := Observed(cfg, w.counters, step.alert, step.backlog, step.now);
      ApplyEffect(cfg, w, step.alert, sample, step.now, step.io, alert, id);
    }
  }
}
