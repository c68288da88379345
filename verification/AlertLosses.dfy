/** When the CLEARED record of an incident is lost for good: no run whatsoever enqueues it any more. */
module AlertLosses {
  import opened Options
  import opened Alerts
  import opened AlertInvariants
  import opened AlertManagers
  import opened AlertTheorems

  /** Identifier `id` was drawn for an incident of alert `n`. */
  predicate Drawn(w: World, n: string, id: nat) {
    0 < id < |w.owner| && w.owner[id] == n
  }

  /** The incident is neither in memory nor on disk, and its CLEARED record was not enqueued. */
  ghost predicate Lost(w: World, n: string, id: nat) {
    && Get(w.mem, n).record.id != id
    && Get(w.disk, n).record.id != id
    && !ClosedInLog(w.log, id)
  }

  /** Some run from here on enqueues the CLEARED record, or it was enqueued already. */
  ghost predicate CanClose(cfg: Config, w: World, id: nat) {
    exists steps :: ClosedInLog(Exec(cfg, w, steps).log, id)
  }

  // ---- Lost stays lost ----

  lemma EmitKeepsLost(w: World, m: string, n: string, id: nat)
    requires StatesOk(w.mem, w.owner) && Drawn(w, n, id) && Lost(w, n, id) && Get(w.mem, m).record != NoRecord
    ensures Lost(Emit(w, m), n, id)
  {
    assert StateOk(Get(w.mem, m), m, w.owner);
    var log' := Emit(w, m).log;
    forall j | 0 <= j < |log'| ensures !(log'[j].id == id && log'[j].phase.Cleared?) {
      if j < |w.log| {
        assert log'[j] == w.log[j];
      }
    }
  }

  lemma BreachKeepsLost(cfg: Config, w: World, obs: Observation, now: int, idOk: bool, n: string, id: nat)
    requires Drawn(w, n, id) && Lost(w, n, id)
    ensures Lost(Breach(cfg, w, obs, now, idOk), n, id) && Drawn(Breach(cfg, w, obs, now, idOk), n, id)
  {
  }

  lemma FileOpKeepsLost(cfg: Config, w: World, ok: bool, n: string, id: nat)
    requires Inv(w) && Drawn(w, n, id) && Lost(w, n, id) && w.pc.Publishing?
    ensures Lost(DoFileOp(cfg, w, ok), n, id) && Drawn(DoFileOp(cfg, w, ok), n, id)
  {
    var m := w.pc.name;
    assert StateOk(Get(w.mem, m), m, w.owner);
    if ok && w.pc.stage.Enqueue? {
      EmitKeepsLost(w, m, n, id);
    } else if ok && w.pc.stage.SaveAgain? && w.pc.rest.Some? {
      var rest := w.pc.rest.value;
      BreachKeepsLost(cfg, w.(disk := w.mem, pc := Idle), rest.obs, rest.now, rest.idOk, n, id);
    }
  }

  lemma ObserveKeepsLost(cfg: Config, w: World, obs: Observation, now: int, idOk: bool, n: string, id: nat)
    requires Inv(w) && Drawn(w, n, id) && Lost(w, n, id) && w.pc.Idle?
    ensures var w' := Begin(cfg, w, obs, now, idOk); Lost(w', n, id) && Drawn(w', n, id)
  {
    if !Get(w.mem, obs.name).active {
      BreachKeepsLost(cfg, w, obs, now, idOk, n, id);
    }
  }

  lemma ReconcileKeepsLost(cfg: Config, w: World, m: string, ok: bool, n: string, id: nat)
    requires Inv(w) && Drawn(w, n, id) && Lost(w, n, id)
    ensures var w' := Do(cfg, w, Reconcile(m, ok)); Lost(w', n, id) && Drawn(w', n, id)
  {
    assert StateOk(Get(w.mem, m), m, w.owner);
    if w.pc.Starting? && Get(w.mem, m).dirty && ok {
      EmitKeepsLost(w, m, n, id);
    }
  }

  lemma StepKeepsLost(cfg: Config, w: World, step: Step, n: string, id: nat)
    requires Inv(w) && Drawn(w, n, id) && Lost(w, n, id)
    ensures Lost(Do(cfg, w, step), n, id) && Drawn(Do(cfg, w, step), n, id)
  {
    match step
    case Observe(obs, now, idOk) =>
      if w.pc.Idle? {
        ObserveKeepsLost(cfg, w, obs, now, idOk, n, id);
      }
    case FileOp(ok) =>
      if w.pc.Publishing? {
        FileOpKeepsLost(cfg, w, ok, n, id);
      }
    case Reconcile(m, ok) => ReconcileKeepsLost(cfg, w, m, ok, n, id);
    case _ =>
  }

  /** Once lost, whatever happens later, the CLEARED record is not enqueued. */
  lemma {:induction false} LostForever(cfg: Config, w: World, steps: seq<Step>, n: string, id: nat)
    requires Inv(w) && Drawn(w, n, id) && Lost(w, n, id)
    ensures Lost(Exec(cfg, w, steps), n, id)
    decreases |steps|
  {
    if steps != [] {
      StepKeepsInv(cfg, w, steps[0]);
      StepKeepsLost(cfg, w, steps[0], n, id);
      LostForever(cfg, Do(cfg, w, steps[0]), steps[1..], n, id);
    }
  }

  // ---- What is not lost can still be closed ----

  /** An evaluation that finds alert `n` calm. */
  predicate IsCalm(obs: Observation, n: string) {
    obs.name == n && obs.indicator < obs.clearThreshold && obs.indicator < obs.threshold
  }

  /** One evaluation at time `now` whose file operations all succeed. */
  function CalmRound(calm: Observation, now: int): seq<Step> {
    [Observe(calm, now, true)] + FileOps([true, true, true])
  }

  /** The steps use no evaluation but that one. */
  predicate OnlyCalm(steps: seq<Step>, calm: Observation, now: int) {
    forall i :: 0 <= i < |steps| && steps[i].Observe? ==> steps[i] == Observe(calm, now, true)
  }

  lemma CalmRoundRuns(cfg: Config, w: World, calm: Observation, now: int)
    requires w.pc.Idle?
    ensures Exec(cfg, w, CalmRound(calm, now)) == Finish(cfg, Begin(cfg, w, calm, now, true), [true, true, true])
  {
    EvaluationIsRun(cfg, w, calm, now, true, [true, true, true]);
  }

  /** A calm evaluation of an active alert closes it or counts. */
  lemma ActiveRound(cfg: Config, w: World, calm: Observation, now: int, n: string)
    requires w.pc.Idle? && IsCalm(calm, n) && Get(w.mem, n).active
    ensures var s, w' := Get(w.mem, n), Exec(cfg, w, CalmRound(calm, now));
      && w'.pc.Idle?
      && (s.clear + 1 >= cfg.clearWindows ==> ClosedInLog(w'.log, s.record.id))
      && (s.clear + 1 < cfg.clearWindows ==>
            Get(w'.mem, n).active && Get(w'.mem, n).record.id == s.record.id && Get(w'.mem, n).clear == s.clear + 1)
  {
    CalmRoundRuns(cfg, w, calm, now);
    var s := Get(w.mem, n);
    var begun := Begin(cfg, w, calm, now, true);
    if begun.pc.Publishing? {
      PublicationOutcomes(cfg, begun, [true, true, true]);
      if s.clear + 1 >= cfg.clearWindows {
        var w' := Exec(cfg, w, CalmRound(calm, now));
        assert w'.log[|w'.log| - 1].id == s.record.id && w'.log[|w'.log| - 1].phase.Cleared?;
      }
    }
  }

  /** Enough calm evaluations close an active incident. */
  lemma {:induction false} ActiveCanClose(cfg: Config, w: World, calm: Observation, now: int, n: string) returns (steps: seq<Step>)
    requires w.pc.Idle? && IsCalm(calm, n) && Get(w.mem, n).active
    ensures ClosedInLog(Exec(cfg, w, steps).log, Get(w.mem, n).record.id) && OnlyCalm(steps, calm, now)
    decreases cfg.clearWindows - Get(w.mem, n).clear
  {
    ActiveRound(cfg, w, calm, now, n);
    steps := CalmRound(calm, now);
    if Get(w.mem, n).clear + 1 < cfg.clearWindows {
      var w' := Exec(cfg, w, steps);
      var more := ActiveCanClose(cfg, w', calm, now, n);
      ExecConcat(cfg, w, steps, more);
      steps := steps + more;
    }
  }

  /** An undelivered CLEARED record is re-sent by the next evaluation that is late enough. */
  lemma ClosedCanBeSent(cfg: Config, w: World, calm: Observation, now: int, n: string) returns (steps: seq<Step>)
    requires Inv(w) && w.pc.Idle? && IsCalm(calm, n) && now - Get(w.mem, n).lastEmitted >= cfg.activeUpdate
    requires !Get(w.mem, n).active && Get(w.mem, n).record != NoRecord
    ensures ClosedInLog(Exec(cfg, w, steps).log, Get(w.mem, n).record.id) && OnlyCalm(steps, calm, now)
  {
    var s := Get(w.mem, n);
    assert StateOk(s, n, w.owner) && ChainAt(w, n);
    steps := [];
    if s.dirty {
      steps := CalmRound(calm, now);
      CalmRoundRuns(cfg, w, calm, now);
      var begun := Begin(cfg, w, calm, now, true);
      PublicationOutcomes(cfg, begun, [true, true, true]);
      var w' := Exec(cfg, w, steps);
      assert w'.log == w.log + [s.record];
      assert w'.log[|w.log|].id == s.record.id && w'.log[|w.log|].phase.Cleared?;
    } else {
      LastOfIsLast(w.log, n);
    }
  }

  lemma CurrentCanClose(cfg: Config, w: World, calm: Observation, now: int, n: string) returns (steps: seq<Step>)
    requires Inv(w) && w.pc.Idle? && IsCalm(calm, n) && now - Get(w.mem, n).lastEmitted >= cfg.activeUpdate
    requires Get(w.mem, n).record != NoRecord
    ensures ClosedInLog(Exec(cfg, w, steps).log, Get(w.mem, n).record.id) && OnlyCalm(steps, calm, now)
  {
    if Get(w.mem, n).active {
      steps := ActiveCanClose(cfg, w, calm, now, n);
    } else {
      steps := ClosedCanBeSent(cfg, w, calm, now, n);
    }
  }

  /** From any point, memory can be kept and the evaluator made idle in one step; after a crash it takes one more. */
  function ToIdle(w: World, n: string, id: nat): seq<Step> {
    if Get(w.mem, n).record.id != id then [Crash, FinishStart(false)]
    else if w.pc.Starting? then [FinishStart(false)]
    else [FileOp(false)]
  }

  lemma ReachesIdle(cfg: Config, w: World, n: string, id: nat)
    requires Inv(w) && (Get(w.mem, n).record.id == id || Get(w.disk, n).record.id == id)
    ensures var w' := Exec(cfg, w, ToIdle(w, n, id));
      Inv(w') && w'.pc.Idle? && Get(w'.mem, n).record.id == id && w'.log == w.log
  {
    var steps := ToIdle(w, n, id);
    RunKeepsInv(cfg, w, steps);
    var w1 := Do(cfg, w, steps[0]);
    assert Exec(cfg, w, steps) == Exec(cfg, w1, steps[1..]);
    if |steps| == 2 {
      assert steps[1..] == [FinishStart(false)];
      assert Exec(cfg, w1, [FinishStart(false)]) == Exec(cfg, Do(cfg, w1, FinishStart(false)), []);
    }
  }

  /** An incident in memory or on disk can still have its CLEARED record enqueued: by at most a crash and
      evaluations, late enough, that find its alert calm. */
  lemma HeldCanClose(cfg: Config, w: World, calm: Observation, n: string, id: nat, after: int)
    returns (steps: seq<Step>, now: int)
    requires Inv(w) && Drawn(w, n, id) && !Lost(w, n, id) && IsCalm(calm, n)
    ensures ClosedInLog(Exec(cfg, w, steps).log, id) && OnlyCalm(steps, calm, now) && now >= after
  {
    steps, now := [], after;
    if !ClosedInLog(w.log, id) {
      var first := ToIdle(w, n, id);
      ReachesIdle(cfg, w, n, id);
      var idle := Exec(cfg, w, first);
      var due := Get(idle.mem, n).lastEmitted + cfg.activeUpdate;
      now := if due > after then due else after;
      var more := CurrentCanClose(cfg, idle, calm, now, n);
      ExecConcat(cfg, w, first, more);
      steps := first + more;
    }
  }

  /** The loss condition: at every reached point, an incident is lost if and only if no continuation of the run
      ever enqueues its CLEARED record. */
  lemma LossIsExact(cfg: Config, past: seq<Step>, n: string, id: nat)
    requires Drawn(Reached(cfg, past), n, id)
    ensures Lost(Reached(cfg, past), n, id) <==> !CanClose(cfg, Reached(cfg, past), id)
  {
    var w := Reached(cfg, past);
    ReachedInv(cfg, past);
    if Lost(w, n, id) {
      forall steps ensures !ClosedInLog(Exec(cfg, w, steps).log, id) {
        LostForever(cfg, w, steps, n, id);
      }
    } else {
      var steps, now := HeldCanClose(cfg, w, Observation(n, 1.0, 1.0, 0.0), n, id, 0);
      assert CanClose(cfg, w, id);
    }
  }

  /** What becomes of an enqueued incident: its CLEARED record was enqueued, or some continuation enqueues it, or
      it is lost, which only happens to one whose undelivered record was overwritten in memory. */
  lemma FateOfIncident(cfg: Config, past: seq<Step>, i: nat)
    requires i < |Reached(cfg, past).log|
    ensures var w := Reached(cfg, past); var id := w.log[i].id;
      && (CanClose(cfg, w, id) <==> !Lost(w, w.log[i].name, id))
      && (Lost(w, w.log[i].name, id) ==> id in w.overwritten)
  {
    ReachedInv(cfg, past);
    EveryIncidentIsSettled(cfg, past, i);
    LossIsExact(cfg, past, Reached(cfg, past).log[i].name, Reached(cfg, past).log[i].id);
  }

  // ---- The step that loses ----

  ghost predicate InLog(w: World, id: nat) {
    exists i :: 0 <= i < |w.log| && w.log[i].id == id
  }

  /** A save of the states goes through. */
  predicate Saves(w: World, step: Step) {
    step == FileOp(true) && w.pc.Publishing? && !w.pc.stage.Enqueue?
  }

  /** Memory never falls behind the disk, and neither behind the log: an enqueued incident that memory holds
      is also what the disk holds. */
  lemma EnqueuedIsOnDisk(w: World, n: string, id: nat)
    requires Inv(w) && Drawn(w, n, id) && InLog(w, id) && !Lost(w, n, id) && !ClosedInLog(w.log, id)
    ensures Get(w.disk, n).record.id == id
  {
    var i :| 0 <= i < |w.log| && w.log[i].id == id;
    assert WellFormed(w.log[i], w.log[i].name, w.owner) && ChainAt(w, n);
    LogPrecedesLast(w, i);
  }

  /** Short of such a save the disk keeps its record of the alert. */
  lemma DiskKeepsRecord(cfg: Config, w: World, step: Step, n: string)
    requires Inv(w)
    ensures Saves(w, step) ==> Do(cfg, w, step).disk == w.mem
    ensures !Saves(w, step) ==> Get(Do(cfg, w, step).disk, n).record == Get(w.disk, n).record
  {
    match step
    case Observe(obs, now, idOk) =>
    case FileOp(ok) =>
    case Reconcile(m, ok) =>
    case FinishStart(ok) => assert w.pc.Starting? ==> Get(w.mem, n).record == Get(w.disk, n).record;
    case Upsert(_) =>
    case Remove(_) =>
    case Crash =>
  }

  /** An enqueued incident is lost by exactly one kind of step: a save, for whatever alert, while a new incident
      has already taken its place in memory. It replaces the last copy, the one on disk. */
  lemma SavingLoses(cfg: Config, past: seq<Step>, step: Step, n: string, id: nat)
    requires var w := Reached(cfg, past);
      Drawn(w, n, id) && InLog(w, id) && !Lost(w, n, id) && !ClosedInLog(w.log, id)
    ensures var w := Reached(cfg, past);
      Lost(Do(cfg, w, step), n, id) <==> Saves(w, step) && Get(w.mem, n).record.id != id
  {
    var w := Reached(cfg, past);
    ReachedInv(cfg, past);
    EnqueuedIsOnDisk(w, n, id);
    DiskKeepsRecord(cfg, w, step, n);
    if Saves(w, step) && Get(w.mem, n).record.id != id {
      SaveLoses(cfg, w, n, id);
    }
  }

  lemma SaveLoses(cfg: Config, w: World, n: string, id: nat)
    requires Drawn(w, n, id) && !ClosedInLog(w.log, id) && Saves(w, FileOp(true)) && Get(w.mem, n).record.id != id
    ensures Lost(DoFileOp(cfg, w, true), n, id)
  {
  }

  // ---- A closing that is really lost ----

  const LOSSY: Config := Config(1, 1, 60, "host", "10.0.0.1")

  function Seen(indicator: real, now: int): Step {
    Observe(Observation("A", 1.0, 0.5, indicator), now, true)
  }

  /** An incident opens and is enqueued; ten seconds later its closing is saved but not enqueued; ten
      seconds after that a second incident opens. */
  const OpenFirst: seq<Step> := [Seen(2.0, 0), FileOp(true), FileOp(true), FileOp(true)]
  const CloseUnsent: seq<Step> := [Seen(0.0, 10), FileOp(true), FileOp(false), FileOp(false)]
  const OpenSecond: seq<Step> := [Seen(3.0, 20), FileOp(true), FileOp(true), FileOp(true)]

  lemma ExecFour(cfg: Config, w: World, s: seq<Step>)
    requires |s| == 4
    ensures Exec(cfg, w, s) == Do(cfg, Do(cfg, Do(cfg, Do(cfg, w, s[0]), s[1]), s[2]), s[3])
  {
    var w1 := Do(cfg, w, s[0]);
    var w2 := Do(cfg, w1, s[1]);
    assert Exec(cfg, w, s) == Exec(cfg, w1, s[1..]) == Exec(cfg, w2, s[1..][1..]);
    assert s[1..][1..] == [s[2], s[3]];
    var w3 := Do(cfg, w2, s[2]);
    assert [s[2], s[3]][1..] == [s[3]];
    assert Exec(cfg, w2, [s[2], s[3]]) == Exec(cfg, w3, [s[3]]) == Exec(cfg, Do(cfg, w3, s[3]), []);
  }

  const First: Record := Record(1, "host", "10.0.0.1", 0, None, "A", 1.0, 2.0, Active)
  const Second: Record := Record(2, "host", "10.0.0.1", 20, None, "A", 1.0, 3.0, Active)

  lemma FirstIsEnqueued(w: World)
    requires w == Init.(pc := Idle)
    ensures var s := AlertState(First, true, 0, 0, 0, false);
      Exec(LOSSY, w, OpenFirst) == World(map["A" := s], map["A" := s], [First], Idle, false, 1, 1, 0,
                                         [First], 0, [], ["", "A"], {})
  {
    ExecFour(LOSSY, w, OpenFirst);
  }

  lemma ClosingIsUnsent(w: World)
    requires var s := AlertState(First, true, 0, 0, 0, false);
      w == World(map["A" := s], map["A" := s], [First], Idle, false, 1, 1, 0, [First], 0, [], ["", "A"], {})
    ensures var s := AlertState(First.(phase := Cleared, end := Some(10)), false, 0, 0, 10, true);
      Exec(LOSSY, w, CloseUnsent) == World(map["A" := s], map["A" := s], [First], Idle, false, 0, 1, 1,
                                           [First], 0, [], ["", "A"], {})
  {
    ExecFour(LOSSY, w, CloseUnsent);
  }

  lemma SecondReplacesFirst(w: World)
    requires var s := AlertState(First.(phase := Cleared, end := Some(10)), false, 0, 0, 10, true);
      w == World(map["A" := s], map["A" := s], [First], Idle, false, 0, 1, 1, [First], 0, [], ["", "A"], {})
    ensures var s := AlertState(Second, true, 0, 0, 20, false);
      Exec(LOSSY, w, OpenSecond) == World(map["A" := s], map["A" := s], [First, Second], Idle, false, 1, 2, 1,
                                          [First, Second], 0, [], ["", "A", "A"], {1})
  {
    ExecFour(LOSSY, w, OpenSecond);
  }

  /** "The CLEARED record of every enqueued incident is enqueued some day" is false: after this run the first
      incident is in the log without it, everything is clean and saved, and no continuation enqueues it. */
  lemma ClosingCanBeLost()
    ensures var w := Reached(LOSSY, [FinishStart(true)] + OpenFirst + CloseUnsent + OpenSecond);
      && w.pc.Idle? && w.disk == w.mem && !Get(w.mem, "A").dirty && Get(w.mem, "A").record == Second
      && w.log == [First, Second] && !CanClose(LOSSY, w, 1)
  {
    var start := [FinishStart(true)];
    var w0 := Init.(pc := Idle);
    assert Exec(LOSSY, Init, start) == w0 by {
      assert Exec(LOSSY, Init, start) == Exec(LOSSY, Do(LOSSY, Init, start[0]), []);
    }
    ExecConcat(LOSSY, Init, start, OpenFirst);
    ExecConcat(LOSSY, Init, start + OpenFirst, CloseUnsent);
    ExecConcat(LOSSY, Init, start + OpenFirst + CloseUnsent, OpenSecond);
    FirstIsEnqueued(w0);
    var w1 := Exec(LOSSY, w0, OpenFirst);
    ClosingIsUnsent(w1);
    SecondReplacesFirst(Exec(LOSSY, w1, CloseUnsent));
    LossIsExact(LOSSY, start + OpenFirst + CloseUnsent + OpenSecond, "A", 1);
  }
}
