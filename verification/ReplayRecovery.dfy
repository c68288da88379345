/** The replayer's alerts recover in bounded time, even when no batch arrives any more. */
module ReplayRecovery {
  import opened ReplayAlerts
  import opened ReplayCounters
  import opened Sums

  /** What the counters hold against an alert; the backlog alert does not look at them. */
  function Against(alert: Alert, counts: Counters): nat {
    match alert
    case Backlog => 0
    case FailureRate => counts.failed
    case QuarantineRate => counts.quarantined
  }

  /** No second after `s` counts against the alert. */
  predicate CalmSince(counters: BySecond, alert: Alert, s: int) {
    forall k :: k in counters && k > s ==> Against(alert, counters[k]) == 0
  }

  /** The steps count nothing against the alert after second `s`, and evaluate it only a window later; the backlog
      alert is evaluated with nothing overdue. */
  predicate Later(steps: seq<Step>, alert: Alert, s: int, window: nat) {
    forall i :: 0 <= i < |steps| ==> StepIsLater(steps[i], alert, s, window)
  }

  predicate StepIsLater(step: Step, alert: Alert, s: int, window: nat) {
    match step
    case Count(cycle) => cycle.second > s ==> Against(alert, cycle.counts) == 0
    case Evaluate(a, backlog, now, _) => a == alert ==> now >= s + window && (alert.Backlog? ==> backlog.numerator == 0)
    case Restart => true
  }

  predicate Uninterrupted(steps: seq<Step>) {
    forall i :: 0 <= i < |steps| ==> !steps[i].Restart?
  }

  function Evaluations(steps: seq<Step>, alert: Alert): nat {
    if steps == [] then 0
    else
      var last := steps[|steps| - 1];
      Evaluations(steps[..|steps| - 1], alert) + if last.Evaluate? && last.alert == alert then 1 else 0
  }

  predicate IsActive(m: States, alert: Alert) {
    Get(m, alert).active
  }

  lemma CalmWindow(cfg: Config, counters: BySecond, alert: Alert, backlog: Sample, now: int, s: int)
    requires CalmSince(counters, alert, s) && now >= s + cfg.window && (alert.Backlog? ==> backlog.numerator == 0)
    ensures Percentage(Observed(cfg, counters, alert, backlog, now)) == 0.0
  {
    var inside := Restrict(counters, now - cfg.window + 1, now);
    match alert
    case Backlog =>
    case FailureRate => TotalMapZero(inside, Counting(Failed));
    case QuarantineRate => TotalMapZero(inside, Counting(Quarantined));
  }

  /** An announcement changes no count and no activity. */
  predicate SameControl(a: State, b: State) {
    b.active == a.active && b.clear == a.clear
  }

  lemma AnnouncingKeepsControl(w: World, alert: Alert, io: Io, other: Alert)
    ensures SameControl(Get(w.mem, other), Get(Announce(w, alert, io).mem, other))
  {
  }

  /** One evaluation of a window with nothing against the alert. */
  lemma CalmEvaluation(cfg: Config, w: World, alert: Alert, backlog: Sample, now: int, io: Io, s: int)
    requires Validated(cfg) && CalmSince(w.counters, alert, s) && StepIsLater(Evaluate(alert, backlog, now, io), alert, s, cfg.window)
    ensures var was, is_ := Get(w.mem, alert), Get(Do(cfg, w, Evaluate(alert, backlog, now, io)).mem, alert);
      var clear := LimitsOf(cfg, alert).clear;
      && (is_.active ==> was.active)
      && (is_.active ==> is_.clear == (if clear > 0.0 then was.clear + 1 else 0) && is_.clear < cfg.clearWindows)
      && (clear == 0.0 && was.active ==> is_.active)
  {
    CalmWindow(cfg, w.counters, alert, backlog, now, s);
    var sample := Observed(cfg, w.counters, alert, backlog, now);
    var turn := TurnOf(cfg, w, alert, sample, now, io.idOk);
    AnnouncingKeepsControl(w.(mem := w.mem[alert := turn.state]), alert, io, alert);
  }

  lemma OtherStepsKeepControl(cfg: Config, w: World, step: Step, alert: Alert)
    requires !step.Restart? && !(step.Evaluate? && step.alert == alert)
    ensures SameControl(Get(w.mem, alert), Get(Do(cfg, w, step).mem, alert))
  {
  }

  lemma StepKeepsCalm(cfg: Config, w: World, step: Step, alert: Alert, s: int)
    requires CalmSince(w.counters, alert, s) && StepIsLater(step, alert, s, cfg.window)
    ensures CalmSince(Do(cfg, w, step).counters, alert, s)
  {
  }

  lemma {:induction false} CalmIsCounted(cfg: Config, w: World, steps: seq<Step>, alert: Alert, s: int)
    requires Validated(cfg) && CalmSince(w.counters, alert, s) && Later(steps, alert, s, cfg.window) && Uninterrupted(steps)
    ensures var was, now, clear := Get(w.mem, alert), Get(Run(cfg, w, steps).mem, alert), LimitsOf(cfg, alert).clear;
      && CalmSince(Run(cfg, w, steps).counters, alert, s)
      && (now.active ==> was.active)
      && (clear > 0.0 && now.active ==> Evaluations(steps, alert) <= now.clear)
      && (now.active && Evaluations(steps, alert) > 0 ==> now.clear < cfg.clearWindows)
      && (clear == 0.0 && was.active ==> now.active)
    decreases |steps|
  {
    if steps != [] {
      var init, last := steps[..|steps| - 1], steps[|steps| - 1];
      CalmIsCounted(cfg, w, init, alert, s);
      var before := Run(cfg, w, init);
      assert StepIsLater(last, alert, s, cfg.window) && !last.Restart?;
      StepKeepsCalm(cfg, before, last, alert, s);
      if last.Evaluate? && last.alert == alert {
        CalmEvaluation(cfg, before, alert, last.backlog, last.now, last.io, s);
      } else {
        OtherStepsKeepControl(cfg, before, last, alert);
      }
    }
  }

  /** Bounded recovery with its exact condition. From any point where an alert is active, also right after a restart:
      once `clearWindows` evaluations without another restart lie a window after the last count against it,
      it is inactive if and only if its clear percentage is positive. `validate` accepts zero. */
  lemma RecoveryIsBounded(cfg: Config, w: World, steps: seq<Step>, alert: Alert, s: int)
    requires Validated(cfg) && CalmSince(w.counters, alert, s) && Later(steps, alert, s, cfg.window) && Uninterrupted(steps)
    requires IsActive(w.mem, alert) && Evaluations(steps, alert) >= cfg.clearWindows
    ensures !IsActive(Run(cfg, w, steps).mem, alert) <==> LimitsOf(cfg, alert).clear > 0.0
  {
    CalmIsCounted(cfg, w, steps, alert, s);
    assert LimitsOf(cfg, alert).clear >= 0.0;
  }

  lemma SavingKeepsInactive(w: World, announced: Alert, io: Io, alert: Alert)
    requires !IsActive(w.mem, alert) && !IsActive(w.disk, alert)
    ensures !IsActive(Announce(w, announced, io).mem, alert) && !IsActive(Announce(w, announced, io).disk, alert)
  {
  }

  lemma StepKeepsInactive(cfg: Config, w: World, step: Step, alert: Alert, s: int)
    requires Validated(cfg) && CalmSince(w.counters, alert, s) && StepIsLater(step, alert, s, cfg.window)
    requires !IsActive(w.mem, alert) && !IsActive(w.disk, alert)
    ensures !IsActive(Do(cfg, w, step).mem, alert) && !IsActive(Do(cfg, w, step).disk, alert)
  {
    if step.Evaluate? {
      var sample := Observed(cfg, w.counters, step.alert, step.backlog, step.now);
      var turn := TurnOf(cfg, w, step.alert, sample, step.now, step.io.idOk);
      if step.alert == alert {
        CalmWindow(cfg, w.counters, alert, step.backlog, step.now, s);
        assert LimitsOf(cfg, alert).threshold > 0.0 && !turn.state.active;
      }
      var w' := w.(mem := w.mem[step.alert := turn.state],
                   owner := if Opens(Get(w.mem, step.alert), turn.state) then w.owner + [step.alert] else w.owner);
      SavingKeepsInactive(w', step.alert, step.io, alert);
    }
  }

  /** Once what counts against it has left the window, an alert that is inactive in memory and on disk stays inactive,
      through restarts too. */
  lemma {:induction false} InactiveStaysInactive(cfg: Config, w: World, steps: seq<Step>, alert: Alert, s: int)
    requires Validated(cfg) && CalmSince(w.counters, alert, s) && Later(steps, alert, s, cfg.window)
    requires !IsActive(w.mem, alert) && !IsActive(w.disk, alert)
    ensures var w' := Run(cfg, w, steps);
      CalmSince(w'.counters, alert, s) && !IsActive(w'.mem, alert) && !IsActive(w'.disk, alert)
    decreases |steps|
  {
    if steps != [] {
      var init, last := steps[..|steps| - 1], steps[|steps| - 1];
      InactiveStaysInactive(cfg, w, init, alert, s);
      assert StepIsLater(last, alert, s, cfg.window);
      StepKeepsCalm(cfg, Run(cfg, w, init), last, alert, s);
      StepKeepsInactive(cfg, Run(cfg, w, init), last, alert, s);
    }
  }
}
