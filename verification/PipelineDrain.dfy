/** The drain of the pipeline can always finish: once a stop is requested, every reached point has a continuation to
    the end, whatever is pending, queued or in hand. */
module PipelineDrain {
  import opened CohortTrackers
  import opened PacketWorkers
  import opened Pipeline
  import opened PipelineProofs
  import opened PipelineCohorts

  // ---- Continuations ----

  ghost predicate ReachesIn(cfg: Config, w: World, goal: World, n: nat)
    decreases n
  {
    if n == 0 then w == goal
    else exists step :: Enabled(cfg, w, step) && ReachesIn(cfg, Do(cfg, w, step), goal, n - 1)
  }

  ghost predicate Reaches(cfg: Config, w: World, goal: World) {
    exists n: nat :: ReachesIn(cfg, w, goal, n)
  }

  lemma Stays(cfg: Config, w: World)
    ensures Reaches(cfg, w, w)
  {
    assert ReachesIn(cfg, w, w, 0);
  }

  lemma OneStep(cfg: Config, w: World, step: Step)
    requires Enabled(cfg, w, step)
    ensures Reaches(cfg, w, Do(cfg, w, step))
  {
    assert ReachesIn(cfg, Do(cfg, w, step), Do(cfg, w, step), 0);
    assert ReachesIn(cfg, w, Do(cfg, w, step), 1);
  }

  lemma {:induction false} ReachesOn(cfg: Config, a: World, b: World, c: World, n: nat)
    requires ReachesIn(cfg, a, b, n) && Reaches(cfg, b, c)
    ensures Reaches(cfg, a, c)
    decreases n
  {
    if n > 0 {
      var step :| Enabled(cfg, a, step) && ReachesIn(cfg, Do(cfg, a, step), b, n - 1);
      ReachesOn(cfg, Do(cfg, a, step), b, c, n - 1);
      var m: nat :| ReachesIn(cfg, Do(cfg, a, step), c, m);
      assert ReachesIn(cfg, a, c, m + 1);
    }
  }

  lemma Then(cfg: Config, a: World, b: World, c: World)
    requires Reaches(cfg, a, b) && Reaches(cfg, b, c)
    ensures Reaches(cfg, a, c)
  {
    var n: nat :| ReachesIn(cfg, a, b, n);
    ReachesOn(cfg, a, b, c, n);
  }

  /** Takes one step, which keeps the shape of the pipeline. */
  lemma Take1(cfg: Config, w: World, step: Step) returns (w': World)
    requires Shape(w) && Enabled(cfg, w, step)
    ensures w' == Do(cfg, w, step) && Reaches(cfg, w, w') && Shape(w')
  {
    w' := Do(cfg, w, step);
    OneStep(cfg, w, step);
    StepKeepsShape(cfg, w, step);
  }

  // ---- Receivers stop ----

  predicate AllStopped(w: World, k: nat)
    requires k <= |w.receivers|
  {
    forall r :: 0 <= r < k ==> w.receivers[r].Stopped?
  }

  predicate SameButReceivers(w: World, w': World) {
    && |w'.receivers| == |w.receivers| && w'.stop == w.stop && w'.phase == w.phase && w'.tuning == w.tuning
  }

  lemma {:induction false} ReceiversStop(cfg: Config, w: World, k: nat) returns (w': World)
    requires Shape(w) && w.stop && k <= |w.receivers| && AllStopped(w, k)
    ensures Reaches(cfg, w, w') && Shape(w') && SameButReceivers(w, w') && AllStopped(w', |w'.receivers|)
    decreases |w.receivers| - k
  {
    w' := w;
    Stays(cfg, w);
    if k < |w.receivers| {
      var next := w;
      match w.receivers[k] {
        case Reading => next := Take1(cfg, w, ByReceiver(k, StopReading));
        case Sending(_) => next := Take1(cfg, w, ByReceiver(k, Abandon));
        case Stopped =>
      }
      w' := ReceiversStop(cfg, next, k + 1);
      Then(cfg, w, next, w');
    }
  }

  lemma PacketsClose(cfg: Config, w: World) returns (w': World)
    requires Shape(w) && w.stop
    ensures Reaches(cfg, w, w') && Shape(w') && !w'.phase.Running?
  {
    w' := w;
    Stays(cfg, w);
    if w.phase.Running? {
      var stopped := ReceiversStop(cfg, w, 0);
      var still := stopped;
      if stopped.tuning {
        still := Take1(cfg, stopped, ByMain(StopTuning));
        Then(cfg, w, stopped, still);
      }
      w' := Take1(cfg, still, ByMain(ClosePackets));
      Then(cfg, w, still, w');
    }
  }

  // ---- Insert workers make room ----

  predicate SameButInserters(w: World, w': World) {
    && w'.workers == w.workers && w'.receivers == w.receivers && w'.packets == w.packets && w'.phase == w.phase
    && |w'.inserters| == |w.inserters|
  }

  /** An insert worker gets rid of its batch in one step, acknowledged or given up. */
  lemma HandEmpties(cfg: Config, w: World, i: nat) returns (w': World)
    requires Shape(w) && i < |w.inserters| && w.inserters[i].Holding?
    ensures Reaches(cfg, w, w') && Shape(w') && SameButInserters(w, w') && w'.queue == w.queue
    ensures w'.inserters == w.inserters[i := Waiting]
  {
    if w.inserters[i].attempts < cfg.maxRetries {
      w' := Take1(cfg, w, ByInserter(i, Attempt(true)));
    } else {
      w' := Take1(cfg, w, ByInserter(i, GiveUp(true)));
    }
  }

  lemma {:induction false} QueueMakesRoom(cfg: Config, w: World) returns (w': World)
    requires Shape(w) && !w.queueClosed && cfg.batchCapacity >= 1
    ensures Reaches(cfg, w, w') && Shape(w') && SameButInserters(w, w') && !w'.queueClosed
    ensures |w'.queue| < cfg.batchCapacity
    decreases |w.queue|, if w.inserters[0].Holding? then 1 else 0
  {
    w' := w;
    Stays(cfg, w);
    if |w.queue| >= cfg.batchCapacity {
      assert !w.inserters[0].Gone?;
      var next;
      if w.inserters[0].Holding? {
        next := HandEmpties(cfg, w, 0);
      } else {
        next := Take1(cfg, w, ByInserter(0, TakeBatch));
      }
      w' := QueueMakesRoom(cfg, next);
      Then(cfg, w, next, w');
    }
  }

  // ---- Packet workers exit ----

  /** Cohorts that count one row more always exist. */
  lemma CohortsExtend(rows: seq<Row>, cohorts: seq<InsertCohort>, row: Row)
    requires CohortsMatch(rows, cohorts)
    ensures CohortsMatch(rows + [row], cohorts + [InsertCohort(row.second, 1)])
  {
    var more := cohorts + [InsertCohort(row.second, 1)];
    assert more[..|cohorts|] == cohorts;
    forall lo, hi ensures CohortRows(more, lo, hi) == RowsWhere(rows + [row], Within(lo, hi)) {
      RowsWhereSnoc(rows, row, Within(lo, hi));
      assert CohortRows(cohorts, lo, hi) == RowsWhere(rows, Within(lo, hi));
    }
  }

  predicate OthersSame(w: World, w': World, i: nat) {
    && |w'.workers| == |w.workers| && (forall j :: 0 <= j < |w.workers| && j != i ==> w'.workers[j] == w.workers[j])
    && w'.phase == w.phase
  }

  function PcRank(pc: WorkerPc): nat {
    match pc
    case Exited => 0
    case Selecting => 1
    case Adding(_) => 2
    case Flushing(_, _) => 3
  }

  function TablesLeft(pc: WorkerPc): set<Table> {
    if pc.Flushing? then pc.tables else {}
  }

  /** Not yet on its last flush. */
  function StillTaking(pc: WorkerPc): nat {
    if pc.Exited? || (pc.Flushing? && pc.after.Exit?) then 0 else 1
  }

  /** A worker is nearer its exit: it is on its last flush, or has fewer packets, rows or tables before it. */
  predicate Nearer(w: World, w': World, i: nat)
    requires i < |w.workers| && |w'.workers| == |w.workers|
  {
    var x, y := w.workers[i], w'.workers[i];
    || StillTaking(y.pc) < StillTaking(x.pc)
    || (StillTaking(y.pc) == StillTaking(x.pc)
        && (|| |w'.packets| < |w.packets|
            || (|w'.packets| == |w.packets|
                && (|| |Unadded(y)| < |Unadded(x)|
                    || (|Unadded(y)| == |Unadded(x)|
                        && (|| PcRank(y.pc) < PcRank(x.pc)
                            || (PcRank(y.pc) == PcRank(x.pc) && |TablesLeft(y.pc)| < |TablesLeft(x.pc)|)))))))
  }

  lemma RowIsAdded(cfg: Config, w: World, i: nat) returns (w': World)
    requires Shape(w) && i < |w.workers| && w.workers[i].pc.Adding? && w.workers[i].pc.rest != []
    ensures Reaches(cfg, w, w') && Shape(w') && OthersSame(w, w', i) && Nearer(w, w', i)
  {
    var x := w.workers[i];
    var row := x.pc.rest[0];
    var b := Pending(x, RowTable(cfg, row), WorkerShard(w, i));
    var cohorts := b.cohorts + [InsertCohort(row.second, 1)];
    CohortsExtend(b.rows, b.cohorts, row);
    w' := Take1(cfg, w, ByWorker(i, Add(cohorts)));
  }

  lemma TableIsFlushed(cfg: Config, w: World, i: nat) returns (w': World)
    requires Shape(w) && i < |w.workers| && w.workers[i].pc.Flushing? && w.workers[i].pc.tables != {}
    requires !w.queueClosed && cfg.batchCapacity >= 1
    ensures Reaches(cfg, w, w') && Shape(w') && OthersSame(w, w', i) && Nearer(w, w', i)
  {
    var room := QueueMakesRoom(cfg, w);
    var t :| t in room.workers[i].pc.tables;
    w' := Take1(cfg, room, ByWorker(i, Flush(t, Enqueued)));
    Then(cfg, w, room, w');
    assert TablesLeft(w'.workers[i].pc) == TablesLeft(w.workers[i].pc) - {t};
  }

  lemma FlushIsFinished(cfg: Config, w: World, i: nat) returns (w': World)
    requires Shape(w) && i < |w.workers| && w.workers[i].pc.Flushing? && w.workers[i].pc.tables == {}
    ensures Reaches(cfg, w, w') && Shape(w') && OthersSame(w, w', i) && Nearer(w, w', i)
  {
    w' := Take1(cfg, w, ByWorker(i, FinishFlush));
  }

  lemma PacketIsTaken(cfg: Config, w: World, i: nat) returns (w': World)
    requires Shape(w) && i < |w.workers| && w.workers[i].pc.Selecting? && w.packetsClosed
    ensures Reaches(cfg, w, w') && Shape(w') && OthersSame(w, w', i) && Nearer(w, w', i)
  {
    w' := Take1(cfg, w, ByWorker(i, if w.packets != [] then Take else SeeClosed));
  }

  lemma WorkerAdvances(cfg: Config, w: World, i: nat) returns (w': World)
    requires Shape(w) && i < |w.workers| && !w.workers[i].pc.Exited?
    requires w.phase.DrainingPackets? && cfg.batchCapacity >= 1
    ensures Reaches(cfg, w, w') && Shape(w') && OthersSame(w, w', i) && Nearer(w, w', i)
  {
    match w.workers[i].pc
    case Selecting => w' := PacketIsTaken(cfg, w, i);
    case Adding(rest) =>
      if rest == [] {
        w' := Take1(cfg, w, ByWorker(i, FinishPacket));
      } else {
        w' := RowIsAdded(cfg, w, i);
      }
    case Flushing(tables, after) =>
      if tables == {} {
        w' := FlushIsFinished(cfg, w, i);
      } else {
        w' := TableIsFlushed(cfg, w, i);
      }
  }

  lemma {:induction false} WorkerExits(cfg: Config, w: World, i: nat) returns (w': World)
    requires Shape(w) && i < |w.workers| && w.phase.DrainingPackets? && cfg.batchCapacity >= 1
    ensures Reaches(cfg, w, w') && Shape(w') && OthersSame(w, w', i) && w'.workers[i].pc.Exited?
    decreases StillTaking(w.workers[i].pc), |w.packets|, |Unadded(w.workers[i])|, PcRank(w.workers[i].pc),
              |TablesLeft(w.workers[i].pc)|
  {
    w' := w;
    Stays(cfg, w);
    if !w.workers[i].pc.Exited? {
      var next := WorkerAdvances(cfg, w, i);
      w' := WorkerExits(cfg, next, i);
      Then(cfg, w, next, w');
    }
  }

  lemma {:induction false} WorkersExit(cfg: Config, w: World, k: nat) returns (w': World)
    requires Shape(w) && k <= |w.workers| && w.phase.DrainingPackets? && cfg.batchCapacity >= 1
    requires forall i :: 0 <= i < k ==> w.workers[i].pc.Exited?
    ensures Reaches(cfg, w, w') && Shape(w') && w'.phase.DrainingPackets?
    ensures forall i :: 0 <= i < |w'.workers| ==> w'.workers[i].pc.Exited?
    decreases |w.workers| - k
  {
    w' := w;
    Stays(cfg, w);
    if k < |w.workers| {
      var next := WorkerExits(cfg, w, k);
      w' := WorkersExit(cfg, next, k + 1);
      Then(cfg, w, next, w');
    }
  }

  // ---- Insert workers leave ----

  predicate OtherHandsSame(w: World, w': World, i: nat) {
    && |w'.inserters| == |w.inserters| && w'.phase == w.phase
    && forall j :: 0 <= j < |w.inserters| && j != i ==> w'.inserters[j] == w.inserters[j]
  }

  lemma {:induction false} InserterLeaves(cfg: Config, w: World, i: nat) returns (w': World)
    requires Shape(w) && i < |w.inserters| && w.phase.DrainingBatches?
    ensures Reaches(cfg, w, w') && Shape(w') && OtherHandsSame(w, w', i) && w'.inserters[i].Gone?
    decreases |w.queue|, if w.inserters[i].Holding? then 1 else 0
  {
    w' := w;
    Stays(cfg, w);
    match w.inserters[i]
    case Gone =>
    case Holding(_, _) =>
      var next := HandEmpties(cfg, w, i);
      w' := InserterLeaves(cfg, next, i);
      Then(cfg, w, next, w');
    case Waiting =>
      if w.queue == [] {
        w' := Take1(cfg, w, ByInserter(i, LeaveQueue));
      } else {
        var next := Take1(cfg, w, ByInserter(i, TakeBatch));
        w' := InserterLeaves(cfg, next, i);
        Then(cfg, w, next, w');
      }
  }

  lemma {:induction false} InsertersLeave(cfg: Config, w: World, k: nat) returns (w': World)
    requires Shape(w) && k <= |w.inserters| && w.phase.DrainingBatches?
    requires forall i :: 0 <= i < k ==> w.inserters[i].Gone?
    ensures Reaches(cfg, w, w') && Shape(w') && w'.phase.DrainingBatches?
    ensures forall i :: 0 <= i < |w'.inserters| ==> w'.inserters[i].Gone?
    decreases |w.inserters| - k
  {
    w' := w;
    Stays(cfg, w);
    if k < |w.inserters| {
      var next := InserterLeaves(cfg, w, k);
      w' := InsertersLeave(cfg, next, k + 1);
      Then(cfg, w, next, w');
    }
  }

  // ---- The whole drain ----

  lemma QueueCloses(cfg: Config, w: World) returns (w': World)
    requires Shape(w) && !w.phase.Running? && cfg.batchCapacity >= 1
    ensures Reaches(cfg, w, w') && Shape(w') && (w'.phase.DrainingBatches? || w'.phase.Done?)
  {
    w' := w;
    Stays(cfg, w);
    if w.phase.DrainingPackets? {
      var drained := WorkersExit(cfg, w, 0);
      w' := Take1(cfg, drained, ByMain(CloseQueue));
      Then(cfg, w, drained, w');
    }
  }

  /** Nothing in the pipeline can block its shutdown: from every point of every run in which a stop was requested,
      the drain can still be completed. */
  lemma DrainCanFinish(cfg: Config, ws: seq<World>, steps: seq<Step>, k: nat) returns (end: World)
    requires cfg.maxRetries >= 1 && cfg.batchCapacity >= 1 && IsRun(cfg, ws, steps) && k <= |steps| && ws[k].stop
    ensures Reaches(cfg, ws[k], end) && end.phase.Done?
  {
    RunConserves(cfg, ws, steps, k, Within(0, 0));
    var closed := PacketsClose(cfg, ws[k]);
    var drained := QueueCloses(cfg, closed);
    Then(cfg, ws[k], closed, drained);
    end := drained;
    if drained.phase.DrainingBatches? {
      var left := InsertersLeave(cfg, drained, 0);
      Then(cfg, ws[k], drained, left);
      end := Take1(cfg, left, ByMain(Finish));
      Then(cfg, ws[k], left, end);
    }
  }
}
