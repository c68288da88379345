/** The collector's crash-safe alert protocol (alerts.go) as a step machine.

    One evaluation runs in memory up to its next file operation; every file operation, every
    delivery operation and every crash is a step of its own, so a run of this machine is an
    arbitrary interleaving of the evaluator, the outbox worker, failures and restarts. */
module Alerts {
  import opened Options

  datatype Phase = Unset | Active | Cleared

  /** `id` 0 stands for the empty identifier; a fresh identifier is the next unused number. */
  datatype Record = Record(id: nat, hostname: string, ip: string, start: int, end: Option<int>,
                           name: string, threshold: real, indicator: real, phase: Phase)

  datatype AlertState = AlertState(record: Record, active: bool, breach: nat, clear: nat,
                                   lastEmitted: int, dirty: bool)

  type States = map<string, AlertState>

  datatype Config = Config(triggerWindows: nat, clearWindows: nat, activeUpdate: int,
                           hostname: string, ip: string)

  datatype Observation = Observation(name: string, threshold: real, clearThreshold: real, indicator: real)

  /** What an inactive evaluation still has to do once it has re-sent an undelivered record. */
  datatype Rest = Rest(obs: Observation, now: int, idOk: bool)

  datatype Stage = SaveFirst | Enqueue | SaveAgain

  datatype Pc = Starting | Idle | Publishing(name: string, stage: Stage, rest: Option<Rest>)

  /** `mem` and the counters die with the process; `disk` (state.json) and `outbox` survive it.
      The remaining fields are histories: `log` holds every record ever enqueued, `delivered` how many
      of them have left the outbox, `sink` the log position of every upsert the sink applied, `owner`
      the alert name of every identifier ever drawn, and `overwritten` the incidents whose undelivered
      record a new incident replaced in memory. */
  datatype World = World(mem: States, disk: States, outbox: seq<Record>, pc: Pc, delivering: bool,
                         active: int, openings: nat, clearings: nat,
                         log: seq<Record>, delivered: nat, sink: seq<nat>,
                         owner: seq<string>, overwritten: set<nat>)

  datatype UpsertResult = Applied | Refused | Ambiguous

  datatype Step =
    | Observe(obs: Observation, now: int, idOk: bool)
    | FileOp(ok: bool)
    | Reconcile(name: string, ok: bool)
    | FinishStart(ok: bool)
    | Upsert(result: UpsertResult)
    | Remove(ok: bool)
    | Crash

  const ZERO_TIME: int := -62135596800

  const NoRecord: Record := Record(0, "", "", 0, None, "", 0.0, 0.0, Unset)

  const Fresh: AlertState := AlertState(NoRecord, false, 0, 0, ZERO_TIME, false)

  const Init: World :=
    World(map[], map[], [], Starting, false, 0, 0, 0, [], 0, [], [""], {})

  function Get(m: States, n: string): AlertState {
    if n in m then m[n] else Fresh
  }

  function Actives(m: States): set<string> {
    set n | n in m && m[n].active
  }

  function ActiveCount(m: States): nat {
    |Actives(m)|
  }

  /** The part of an inactive evaluation that counts breaches and opens incidents. */
  function Breach(cfg: Config, w: World, obs: Observation, now: int, idOk: bool): World {
    var s := Get(w.mem, obs.name);
    if obs.indicator < obs.threshold then
      w.(mem := w.mem[obs.name := s.(clear := 0, breach := 0)], pc := Idle)
    else if s.breach + 1 < cfg.triggerWindows || !idOk then
      w.(mem := w.mem[obs.name := s.(clear := 0, breach := s.breach + 1)], pc := Idle)
    else
      var record := Record(|w.owner|, cfg.hostname, cfg.ip, now, None, obs.name, obs.threshold, obs.indicator, Active);
      w.(mem := w.mem[obs.name := AlertState(record, true, 0, 0, now, true)],
         pc := Publishing(obs.name, SaveFirst, None),
         active := w.active + 1, openings := w.openings + 1,
         owner := w.owner + [obs.name],
         overwritten := if s.dirty then w.overwritten + {s.record.id} else w.overwritten)
  }

  /** What an active evaluation leaves in the alert's state, before any file operation. */
  function Sustain(cfg: Config, s: AlertState, obs: Observation, now: int): AlertState {
    var peaked := if obs.indicator > s.record.indicator
                  then s.(record := s.record.(indicator := obs.indicator), dirty := true) else s;
    var calm := if obs.indicator < obs.clearThreshold then s.clear + 1 else 0;
    if calm >= cfg.clearWindows then
      peaked.(active := false, breach := 0, clear := 0, lastEmitted := now, dirty := true,
              record := peaked.record.(phase := Cleared, end := Some(now)))
    else if peaked.dirty && now - s.lastEmitted >= cfg.activeUpdate then
      peaked.(breach := 0, clear := calm, lastEmitted := now)
    else
      peaked.(breach := 0, clear := calm)
  }

  /** An evaluation up to its first file operation. */
  function Begin(cfg: Config, w: World, obs: Observation, now: int, idOk: bool): World {
    var s := Get(w.mem, obs.name);
    if s.active then
      var s' := Sustain(cfg, s, obs, now);
      var closing := !s'.active;
      w.(mem := w.mem[obs.name := s'],
         pc := if closing || (s'.dirty && now - s.lastEmitted >= cfg.activeUpdate)
               then Publishing(obs.name, SaveFirst, None) else Idle,
         active := if closing then w.active - 1 else w.active,
         clearings := if closing then w.clearings + 1 else w.clearings)
    else if s.dirty && now - s.lastEmitted >= cfg.activeUpdate then
      w.(mem := w.mem[obs.name := s.(lastEmitted := now)],
         pc := Publishing(obs.name, SaveFirst, Some(Rest(obs, now, idOk))))
    else
      Breach(cfg, w, obs, now, idOk)
  }

  /** Appends the in-memory record of `n` to the outbox and marks its state clean. */
  function Emit(w: World, n: string): World {
    var s := Get(w.mem, n);
    w.(mem := w.mem[n := s.(dirty := false)], outbox := w.outbox + [s.record], log := w.log + [s.record])
  }

  /** One file operation of the evaluation in progress. */
  function DoFileOp(cfg: Config, w: World, ok: bool): World
    requires w.pc.Publishing?
  {
    if !ok then w.(pc := Idle)
    else match w.pc.stage
      case SaveFirst => w.(disk := w.mem, pc := w.pc.(stage := Enqueue))
      case Enqueue => Emit(w, w.pc.name).(pc := w.pc.(stage := SaveAgain))
      case SaveAgain =>
        var saved := w.(disk := w.mem, pc := Idle);
        match w.pc.rest
        case None => saved
        case Some(rest) => Breach(cfg, saved, rest.obs, rest.now, rest.idOk)
  }

  /** A step that is not enabled leaves the world as it is, so that every list of steps is a run. */
  function Do(cfg: Config, w: World, step: Step): World {
    match step
    case Observe(obs, now, idOk) => if w.pc.Idle? then Begin(cfg, w, obs, now, idOk) else w
    case FileOp(ok) => if w.pc.Publishing? then DoFileOp(cfg, w, ok) else w
    case Reconcile(n, ok) => if w.pc.Starting? && Get(w.mem, n).dirty && ok then Emit(w, n) else w
    case FinishStart(ok) =>
      if !w.pc.Starting? then w
      else if ok then w.(disk := w.mem, pc := Idle)
      else w.(pc := Idle)
    case Upsert(result) =>
      if w.delivering || w.outbox == [] then w
      else match result {
        case Applied => w.(sink := w.sink + [w.delivered], delivering := true)
        case Refused => w
        case Ambiguous => w.(sink := w.sink + [w.delivered])
      }
    case Remove(ok) =>
      if !w.delivering || w.outbox == [] then w
      else if ok then w.(outbox := w.outbox[1..], delivered := w.delivered + 1, delivering := false)
      else w.(delivering := false)
    case Crash =>
      w.(mem := w.disk, pc := Starting, delivering := false, active := ActiveCount(w.disk),
        openings := 0, clearings := 0)
  }

  function Exec(cfg: Config, w: World, steps: seq<Step>): World
    decreases |steps|
  {
    if steps == [] then w else Exec(cfg, Do(cfg, w, steps[0]), steps[1..])
  }

  // ---- Reading the histories ----

  /** The last record enqueued for alert `n`. */
  function LastOf(log: seq<Record>, n: string): Record {
    if log == [] then NoRecord
    else if log[|log| - 1].name == n then log[|log| - 1]
    else LastOf(log[..|log| - 1], n)
  }

  /** The sink keeps, for each identifier, the last version it received. */
  function SinkRow(w: World, id: nat): Option<Record> {
    LastVersion(w.log, w.sink, id)
  }

  function LastVersion(log: seq<Record>, sink: seq<nat>, id: nat): Option<Record> {
    if sink == [] then None
    else
      var last := sink[|sink| - 1];
      if last < |log| && log[last].id == id then Some(log[last])
      else LastVersion(log, sink[..|sink| - 1], id)
  }

  /** `s` with each group of equal neighbours reduced to one. */
  function Collapse(s: seq<nat>): seq<nat> {
    if |s| <= 1 then s
    else if s[|s| - 2] == s[|s| - 1] then Collapse(s[..|s| - 1])
    else Collapse(s[..|s| - 1]) + [s[|s| - 1]]
  }

  function UpTo(k: nat): seq<nat> {
    seq(k, i => i)
  }

  // ---- Composing runs ----

  lemma {:induction false} ExecConcat(cfg: Config, w: World, a: seq<Step>, b: seq<Step>)
    ensures Exec(cfg, w, a + b) == Exec(cfg, Exec(cfg, w, a), b)
    decreases |a|
  {
    if a == [] {
      assert a + b == b;
    } else {
      assert (a + b)[1..] == a[1..] + b;
      ExecConcat(cfg, Do(cfg, w, a[0]), a[1..], b);
    }
  }

  lemma {:induction false} ExecSnoc(cfg: Config, w: World, steps: seq<Step>, step: Step)
    ensures Exec(cfg, w, steps + [step]) == Do(cfg, Exec(cfg, w, steps), step)
    decreases |steps|
  {
    if steps == [] {
      assert ([step])[1..] == [] && steps + [step] == [step];
      assert Exec(cfg, Do(cfg, w, step), []) == Do(cfg, w, step);
    } else {
      assert (steps + [step])[1..] == steps[1..] + [step];
      ExecSnoc(cfg, Do(cfg, w, steps[0]), steps[1..], step);
    }
  }
}
