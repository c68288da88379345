/** The replayer's own alerts (reprocesador/reprocess_alerts.go) as a step machine: cycles are counted, alerts are
    evaluated on windows of the counters, states are saved to a file and records put in an outbox, and the
    process may stop at any time and start again from the file.

    An evaluation of one alert is one step. Stopping in the middle of one is the same as its remaining file operations failing
    and the process stopping right after it. */
module ReplayAlerts {
  import opened Options
  import opened ReplayCounters

  datatype Alert = Backlog | FailureRate | QuarantineRate

  datatype Limits = Limits(threshold: real, clear: real)

  datatype Config = Config(window: nat, minimumBatches: nat, triggerWindows: nat, clearWindows: nat, activeUpdate: int,
                           backlog: Limits, failure: Limits, quarantine: Limits)

  function LimitsOf(cfg: Config, alert: Alert): Limits {
    match alert
    case Backlog => cfg.backlog
    case FailureRate => cfg.failure
    case QuarantineRate => cfg.quarantine
  }

  /** What `validate` accepts. */
  ghost predicate Validated(cfg: Config) {
    && cfg.window > 0 && cfg.minimumBatches > 0 && cfg.triggerWindows > 0 && cfg.clearWindows > 0
    && cfg.activeUpdate > 0
    && forall alert :: var l := LimitsOf(cfg, alert); 0.0 < l.threshold <= 100.0 && 0.0 <= l.clear < l.threshold
  }

  // ---- Hysteresis ----

  datatype Phase = Unset | Active | Cleared

  /** `id` 0 stands for the empty identifier; a fresh identifier is the next unused number. */
  datatype Record = Record(id: nat, start: int, end: Option<int>, threshold: real, indicator: real, phase: Phase)

  datatype State = State(record: Record, active: bool, breach: nat, clear: nat, lastEmitted: int, deliveryNeeded: bool)

  const Fresh: State := State(Record(0, 0, None, 0.0, 0.0, Unset), false, 0, 0, 0, false)

  type States = map<Alert, State>

  function Get(m: States, alert: Alert): State {
    if alert in m then m[alert] else Fresh
  }

  function Raise(s: State, x: real): State {
    if x > s.record.indicator then s.(breach := 0, record := s.record.(indicator := x), deliveryNeeded := true)
    else s.(breach := 0)
  }

  /** The state after an observation of indicator `x`, and whether it is then announced. */
  datatype Turn = Turn(state: State, announces: bool)

  function Next(cfg: Config, l: Limits, s: State, x: real, now: int, id: Option<nat>): Turn {
    if !s.active then
      if x < l.threshold then Turn(s.(clear := 0, breach := 0), false)
      else if s.breach + 1 < cfg.triggerWindows || id.None? then Turn(s.(clear := 0, breach := s.breach + 1), false)
      else Turn(State(Record(id.value, now, None, l.threshold, x, Active), true, 0, 0, now, true), true)
    else
      var raised := Raise(s, x);
      var calm := if x < l.clear then s.clear + 1 else 0;
      if calm >= cfg.clearWindows then
        Turn(raised.(active := false, clear := 0, lastEmitted := now, deliveryNeeded := true,
                     record := raised.record.(phase := Cleared, end := Some(now))), true)
      else if raised.deliveryNeeded && now - s.lastEmitted >= cfg.activeUpdate then
        Turn(raised.(clear := calm, lastEmitted := now), true)
      else Turn(raised.(clear := calm), false)
  }

  datatype Sample = Sample(numerator: nat, denominator: nat)

  function Percentage(s: Sample): (p: real)
    ensures p >= 0.0 && (s.numerator == 0 ==> p == 0.0)
  {
    if s.denominator == 0 then 0.0 else s.numerator as real * 100.0 / s.denominator as real
  }

  // ---- The machine ----

  /** Memory and the counters die with the process; `disk` is the state file. `log` holds every record ever put in
      the outbox, and identifier `k` was drawn for an incident of alert `owner[k - 1]`. */
  datatype World = World(mem: States, disk: States, counters: BySecond, log: seq<Record>, owner: seq<Alert>)

  const Init: World := World(map[], map[], map[], [], [])

  /** Whether an identifier can be drawn, and the outcomes of the three file operations of an announcement. */
  datatype Io = Io(idOk: bool, saved: bool, enqueued: bool, savedAgain: bool)

  datatype Step = Count(cycle: Cycle) | Evaluate(alert: Alert, backlog: Sample, now: int, io: Io) | Restart

  /** What an evaluation observes: the backlog is read from the directory, the rest from the counters. */
  ghost function Observed(cfg: Config, counters: BySecond, alert: Alert, backlog: Sample, now: int): Sample {
    SampleOf(alert, backlog, Window(counters, now - cfg.window + 1, now))
  }

  function SampleOf(alert: Alert, backlog: Sample, counts: Counters): Sample {
    match alert
    case Backlog => backlog
    case FailureRate => Sample(counts.failed, counts.attempted)
    case QuarantineRate => Sample(counts.quarantined, counts.attempted + counts.quarantined)
  }

  /** An inactive alert needs enough data; an active one is always evaluated. */
  predicate ShouldEvaluate(cfg: Config, s: State, denominator: nat) {
    denominator >= cfg.minimumBatches || s.active
  }

  /** Save, enqueue, mark delivered and save again, stopping at the first failure. */
  function Announce(w: World, alert: Alert, io: Io): World {
    if !io.saved then w
    else
      var saved := w.(disk := w.mem);
      if !io.enqueued then saved
      else
        var s := Get(w.mem, alert);
        var sent := saved.(mem := w.mem[alert := s.(deliveryNeeded := false)], log := w.log + [s.record]);
        if io.savedAgain then sent.(disk := sent.mem) else sent
  }

  function TurnOf(cfg: Config, w: World, alert: Alert, sample: Sample, now: int, idOk: bool): Turn {
    Next(cfg, LimitsOf(cfg, alert), Get(w.mem, alert), Percentage(sample), now, if idOk then Some(|w.owner| + 1) else None)
  }

  /** An identifier is drawn when an incident opens. */
  predicate Opens(before: State, after: State) {
    !before.active && after.active
  }

  function Apply(cfg: Config, w: World, alert: Alert, sample: Sample, now: int, io: Io): World {
    var s, turn := Get(w.mem, alert), TurnOf(cfg, w, alert, sample, now, io.idOk);
    var w' := w.(mem := w.mem[alert := turn.state],
                 owner := if Opens(s, turn.state) then w.owner + [alert] else w.owner);
    if turn.announces then Announce(w', alert, io) else w'
  }

  ghost function Do(cfg: Config, w: World, step: Step): World {
    match step
    case Count(cycle) => w.(counters := Recorded(w.counters, cycle, cfg.window))
    case Evaluate(alert, backlog, now, io) =>
      var sample := Observed(cfg, w.counters, alert, backlog, now);
      if ShouldEvaluate(cfg, Get(w.mem, alert), sample.denominator) then Apply(cfg, w, alert, sample, now, io) else w
    case Restart => w.(mem := w.disk, counters := map[])
  }

  ghost function Run(cfg: Config, w: World, steps: seq<Step>): World {
    if steps == [] then w else Do(cfg, Run(cfg, w, steps[..|steps| - 1]), steps[|steps| - 1])
  }

  lemma {:induction false} RunConcat(cfg: Config, w: World, a: seq<Step>, b: seq<Step>)
    ensures Run(cfg, w, a + b) == Run(cfg, Run(cfg, w, a), b)
    decreases |b|
  {
    if b == [] {
      assert a + b == a;
    } else {
      assert (a + b)[..|a + b| - 1] == a + b[..|b| - 1];
      RunConcat(cfg, w, a, b[..|b| - 1]);
    }
  }
}
