/** Conservation of rows over every interleaving of the ingest pipeline, and its drain. */
module PipelineProofs {
  import opened Cohorts
  import opened CohortTrackers
  import opened PacketWorkers
  import opened Sums
  import opened Pipeline

  // ---- Where rows can be ----

  ghost function InBatch(p: Row -> bool): Batch -> nat {
    (b: Batch) => RowsWhere(b.rows, p)
  }

  ghost function InPending(p: Row -> bool): Worker -> nat {
    (x: Worker) => TotalMap(x.pending, InBatch(p))
  }

  ghost function InHand(p: Row -> bool): Inserter -> nat {
    (x: Inserter) => if x.Holding? then RowsWhere(x.batch.rows, p) else 0
  }

  /** Rows counted as parsed and not yet acknowledged, spooled or given up. */
  ghost function InFlight(w: World, p: Row -> bool): nat {
    Total(w.workers, InPending(p)) + Total(w.queue, InBatch(p)) + Total(w.inserters, InHand(p))
  }

  ghost function Ended(w: World, p: Row -> bool): nat {
    Total(w.inserted, InBatch(p)) + Total(w.spooled, InBatch(p)) + Total(w.spoolFailed, InBatch(p))
  }

  /** Every row counted as parsed is in exactly one place. `p` selects the rows that are counted, so this
      is conservation of each single row as well as of all of them. */
  ghost predicate Conserved(w: World, p: Row -> bool) {
    RowsWhere(w.parsed, p) == InFlight(w, p) + Ended(w, p)
  }

  // ---- Stages stop in order ----

  predicate Drained(w: World) {
    w.packetsClosed && w.packets == []
  }

  predicate IsEmpty(b: Batch) {
    b.rows == []
  }

  ghost predicate WorkerOk(drained: bool, x: Worker) {
    match x.pc
    case Exited => drained && forall t :: t in x.pending ==> IsEmpty(x.pending[t])
    case Flushing(tables, Exit) => drained && forall t :: t in x.pending && t !in tables ==> IsEmpty(x.pending[t])
    case _ => true
  }

  ghost predicate WorkersOk(w: World) {
    forall i :: 0 <= i < |w.workers| ==> WorkerOk(Drained(w), w.workers[i])
  }

  predicate FlagsOk(w: World) {
    && (w.packetsClosed <==> !w.phase.Running?)
    && (w.queueClosed <==> w.phase.DrainingBatches? || w.phase.Done?)
    && (w.packetsClosed ==> !w.tuning)
    && |w.workers| >= 1 && |w.inserters| >= 1
    && !w.panicked
  }

  predicate StagesOk(w: World) {
    && (w.packetsClosed ==> forall r :: 0 <= r < |w.receivers| ==> w.receivers[r].Stopped?)
    && (w.queueClosed ==> forall i :: 0 <= i < |w.workers| ==> w.workers[i].pc.Exited?)
    && (w.phase.Done? ==> forall i :: 0 <= i < |w.inserters| ==> w.inserters[i].Gone?)
    && (forall i :: 0 <= i < |w.inserters| && w.inserters[i].Gone? ==> w.queueClosed && w.queue == [])
  }

  /** Stages stop in order, a stopped stage has left nothing behind, and no closed channel was sent to. */
  ghost predicate Shape(w: World) {
    FlagsOk(w) && StagesOk(w) && WorkersOk(w)
  }

  predicate SameFlags(w: World, w': World) {
    && w'.phase == w.phase && w'.tuning == w.tuning && w'.packetsClosed == w.packetsClosed
    && w'.queueClosed == w.queueClosed && w'.panicked == w.panicked
  }

  lemma ReceiverKeepsShape(cfg: Config, w: World, r: nat, s: ReceiverStep)
    requires Shape(w) && ReceiverMay(cfg, w, r, s)
    ensures Shape(ReceiverDoes(w, r, s))
  {
    var w' := ReceiverDoes(w, r, s);
    assert !w.packetsClosed;
    forall i | 0 <= i < |w'.workers| ensures WorkerOk(Drained(w'), w'.workers[i]) {
      assert WorkerOk(Drained(w), w.workers[i]);
    }
  }

  /** A running worker may be replaced by any sound one. */
  lemma NewWorkerKeepsShape(w: World, i: nat, x: Worker, w': World)
    requires Shape(w) && i < |w.workers| && !w.workers[i].pc.Exited? && WorkerOk(Drained(w'), x)
    requires w'.workers == w.workers[i := x] && w'.inserters == w.inserters && w'.receivers == w.receivers
    requires SameFlags(w, w') && (Drained(w) ==> Drained(w'))
    ensures Shape(w')
  {
    assert !w.queueClosed;
    forall j | 0 <= j < |w'.workers| ensures WorkerOk(Drained(w'), w'.workers[j]) {
      if j != i {
        assert WorkerOk(Drained(w), w.workers[j]);
      }
    }
  }

  lemma WorkerKeepsShape(cfg: Config, w: World, i: nat, s: WorkerStep)
    requires Shape(w) && WorkerMay(cfg, w, i, s)
    ensures Shape(WorkerDoes(cfg, w, i, s))
  {
    var w' := WorkerDoes(cfg, w, i, s);
    assert WorkerOk(Drained(w), w.workers[i]) && !w.queueClosed;
    NewWorkerKeepsShape(w, i, w'.workers[i], w');
  }

  lemma NewInserterKeepsShape(w: World, i: nat, x: Inserter, w': World)
    requires Shape(w) && i < |w.inserters| && !w.inserters[i].Gone?
    requires x.Gone? ==> w.queueClosed && w.queue == []
    requires w'.workers == w.workers && w'.inserters == w.inserters[i := x] && w'.receivers == w.receivers
    requires SameFlags(w, w') && w'.packets == w.packets && (w.queue == [] ==> w'.queue == [])
    ensures Shape(w')
  {
    assert WorkersOk(w');
  }

  lemma InserterKeepsShape(cfg: Config, w: World, i: nat, s: InserterStep)
    requires Shape(w) && InserterMay(cfg, w, i, s)
    ensures Shape(InserterDoes(cfg, w, i, s))
  {
    var w' := InserterDoes(cfg, w, i, s);
    NewInserterKeepsShape(w, i, w'.inserters[i], w');
  }

  lemma MainKeepsShape(cfg: Config, w: World, s: MainStep)
    requires Shape(w) && MainMay(cfg, w, s)
    ensures Shape(MainDoes(w, s))
  {
    var w' := MainDoes(w, s);
    forall i | 0 <= i < |w'.workers| ensures WorkerOk(Drained(w'), w'.workers[i]) {
      if i < |w.workers| {
        assert WorkerOk(Drained(w), w.workers[i]);
      }
    }
  }

  lemma StepKeepsShape(cfg: Config, w: World, step: Step)
    requires Shape(w) && Enabled(cfg, w, step)
    ensures Shape(Do(cfg, w, step))
  {
    match step
    case ByReceiver(r, s) => ReceiverKeepsShape(cfg, w, r, s);
    case ByWorker(i, s) => WorkerKeepsShape(cfg, w, i, s);
    case ByInserter(i, s) => InserterKeepsShape(cfg, w, i, s);
    case ByMain(s) => MainKeepsShape(cfg, w, s);
  }

  // ---- Rows are conserved ----

  lemma RowsWhereSnoc(rows: seq<Row>, r: Row, p: Row -> bool)
    ensures RowsWhere(rows + [r], p) == RowsWhere(rows, p) + if p(r) then 1 else 0
  {
    assert (rows + [r])[..|rows|] == rows;
  }

  /** Putting a batch into a worker's pending map changes the worker's rows by the difference. */
  lemma PendingChanges(w: World, i: nat, pc: WorkerPc, t: Table, b: Batch, shard: nat, p: Row -> bool)
    requires i < |w.workers|
    ensures var x := w.workers[i];
      Total(w.workers[i := Worker(pc, x.pending[t := b])], InPending(p)) + RowsWhere(Pending(x, t, shard).rows, p)
      == Total(w.workers, InPending(p)) + RowsWhere(b.rows, p)
  {
    var x := w.workers[i];
    TotalUpdate(w.workers, i, Worker(pc, x.pending[t := b]), InPending(p));
    TotalMapUpdate(x.pending, t, b, InBatch(p));
  }

  predicate SamePlaces(w: World, w': World) {
    && w'.queue == w.queue && w'.inserters == w.inserters && w'.parsed == w.parsed
    && w'.inserted == w.inserted && w'.spooled == w.spooled && w'.spoolFailed == w.spoolFailed
  }

  lemma SameRowsConserve(w: World, w': World, p: Row -> bool)
    requires Conserved(w, p) && SamePlaces(w, w') && w'.workers == w.workers
    ensures Conserved(w', p)
  {
  }

  lemma ReceiverConserves(cfg: Config, w: World, r: nat, s: ReceiverStep, p: Row -> bool)
    requires Conserved(w, p) && ReceiverMay(cfg, w, r, s)
    ensures Conserved(ReceiverDoes(w, r, s), p)
  {
    SameRowsConserve(w, ReceiverDoes(w, r, s), p);
  }

  lemma SamePendingConserves(w: World, i: nat, x: Worker, w': World, p: Row -> bool)
    requires Conserved(w, p) && i < |w.workers| && x.pending == w.workers[i].pending
    requires SamePlaces(w, w') && w'.workers == w.workers[i := x]
    ensures Conserved(w', p)
  {
    TotalUpdate(w.workers, i, x, InPending(p));
  }

  lemma EndBatchKeepsFlight(cfg: Config, w: World, b: Batch, kind: Kind, p: Row -> bool)
    ensures InFlight(EndBatch(cfg, w, b, kind), p) == InFlight(w, p)
    ensures EndBatch(cfg, w, b, kind).parsed == w.parsed
  {
    var w' := EndBatch(cfg, w, b, kind);
    assert w'.workers == w.workers && w'.queue == w.queue && w'.inserters == w.inserters;
  }

  /** The batch is in one more place than before, and in one only. */
  lemma EndBatchEnds(cfg: Config, w: World, b: Batch, kind: Kind, p: Row -> bool)
    requires kind.Inserted? || kind.Spooled? || kind.SpoolFailed?
    ensures Ended(EndBatch(cfg, w, b, kind), p) == Ended(w, p) + RowsWhere(b.rows, p)
  {
    var w' := EndBatch(cfg, w, b, kind);
    if kind.Inserted? {
      TotalAppend(w.inserted, b, InBatch(p));
      assert w'.spooled == w.spooled && w'.spoolFailed == w.spoolFailed;
    } else if kind.Spooled? {
      TotalAppend(w.spooled, b, InBatch(p));
      assert w'.inserted == w.inserted && w'.spoolFailed == w.spoolFailed;
    } else {
      TotalAppend(w.spoolFailed, b, InBatch(p));
      assert w'.inserted == w.inserted && w'.spooled == w.spooled;
    }
  }

  lemma AddConserves(cfg: Config, w: World, i: nat, cohorts: seq<InsertCohort>, p: Row -> bool)
    requires Conserved(w, p) && WorkerMay(cfg, w, i, Add(cohorts))
    ensures Conserved(AddRow(cfg, w, i, cohorts), p)
  {
    var w' := AddRow(cfg, w, i, cohorts);
    var x := w.workers[i];
    var row := x.pc.rest[0];
    var t, shard := RowTable(cfg, row), WorkerShard(w, i);
    var b: Batch := RawBatch(t, Pending(x, t, shard).rows + [row], cohorts, shard);
    PendingChanges(w, i, w'.workers[i].pc, t, b, shard, p);
    RowsWhereSnoc(Pending(x, t, shard).rows, row, p);
    RowsWhereSnoc(w.parsed, row, p);
  }

  /** Taking a batch out of a worker leaves exactly its rows unaccounted for. */
  lemma EmptyingTakesOut(w: World, i: nat, t: Table, p: Row -> bool)
    requires Conserved(w, p) && i < |w.workers| && w.workers[i].pc.Flushing?
    ensures var w' := Emptied(w, i, t);
      RowsWhere(w'.parsed, p) == InFlight(w', p) + Ended(w', p) + RowsWhere(Pending(w.workers[i], t, WorkerShard(w, i)).rows, p)
  {
    var shard := WorkerShard(w, i);
    PendingChanges(w, i, Emptied(w, i, t).workers[i].pc, t, RawBatch(t, [], [], shard), shard, p);
  }

  lemma FlushConserves(cfg: Config, w: World, i: nat, t: Table, outcome: FlushOutcome, p: Row -> bool)
    requires Conserved(w, p) && i < |w.workers| && w.workers[i].pc.Flushing?
    ensures Conserved(FlushOne(cfg, w, i, t, outcome), p)
  {
    var b := Pending(w.workers[i], t, WorkerShard(w, i));
    if b.rows == [] {
      var w' := FlushOne(cfg, w, i, t, outcome);
      SamePendingConserves(w, i, w'.workers[i], w', p);
    } else {
      EmptyingTakesOut(w, i, t, p);
      if outcome.Enqueued? {
        TotalAppend(w.queue, b, InBatch(p));
      } else {
        EndBatchEnds(cfg, Emptied(w, i, t), b, SpoolKind(outcome.spools), p);
        EndBatchKeepsFlight(cfg, Emptied(w, i, t), b, SpoolKind(outcome.spools), p);
      }
    }
  }

  lemma WorkerConserves(cfg: Config, w: World, i: nat, s: WorkerStep, p: Row -> bool)
    requires Conserved(w, p) && WorkerMay(cfg, w, i, s)
    ensures Conserved(WorkerDoes(cfg, w, i, s), p)
  {
    if s.Add? {
      AddConserves(cfg, w, i, s.cohorts, p);
    } else if s.Flush? {
      FlushConserves(cfg, w, i, s.table, s.outcome, p);
    } else {
      var w' := WorkerDoes(cfg, w, i, s);
      SamePendingConserves(w, i, w'.workers[i], w', p);
    }
  }

  lemma ReleaseConserves(cfg: Config, w: World, i: nat, kind: Kind, p: Row -> bool)
    requires Conserved(w, p) && i < |w.inserters| && w.inserters[i].Holding?
    requires kind.Inserted? || kind.Spooled? || kind.SpoolFailed?
    ensures Conserved(EndBatch(cfg, WithInserter(w, i, Waiting), w.inserters[i].batch, kind), p)
  {
    TotalUpdate(w.inserters, i, Waiting, InHand(p));
    EndBatchEnds(cfg, WithInserter(w, i, Waiting), w.inserters[i].batch, kind, p);
    EndBatchKeepsFlight(cfg, WithInserter(w, i, Waiting), w.inserters[i].batch, kind, p);
  }

  /** The one step that loses rows: giving up a batch that no attempt was allowed for. */
  ghost predicate DropsRows(cfg: Config, w: World, i: nat, s: InserterStep, p: Row -> bool)
    requires InserterMay(cfg, w, i, s)
  {
    s.GiveUp? && cfg.maxRetries == 0 && RowsWhere(w.inserters[i].batch.rows, p) > 0
  }

  lemma InserterConserves(cfg: Config, w: World, i: nat, s: InserterStep, p: Row -> bool)
    requires Conserved(w, p) && InserterMay(cfg, w, i, s)
    ensures Conserved(InserterDoes(cfg, w, i, s), p) <==> !DropsRows(cfg, w, i, s, p)
  {
    match s
    case TakeBatch =>
      TotalUpdate(w.inserters, i, Holding(w.queue[0], 0), InHand(p));
      TotalTail(w.queue, InBatch(p));
    case Attempt(ok) =>
      if ok {
        ReleaseConserves(cfg, w, i, Kind.Inserted, p);
      } else {
        TotalUpdate(w.inserters, i, InserterDoes(cfg, w, i, s).inserters[i], InHand(p));
      }
    case GiveUp(spools) =>
      if cfg.maxRetries == 0 {
        TotalUpdate(w.inserters, i, Waiting, InHand(p));
      } else {
        ReleaseConserves(cfg, w, i, SpoolKind(spools), p);
      }
    case LeaveQueue => TotalUpdate(w.inserters, i, Gone, InHand(p));
  }

  lemma MainConserves(w: World, s: MainStep, p: Row -> bool)
    requires Conserved(w, p)
    ensures Conserved(MainDoes(w, s), p)
  {
    if s.SpawnWorker? {
      TotalAppend(w.workers, NewWorker, InPending(p));
      TotalMapZero<Table, Batch>(map[], InBatch(p));
    } else if s.SpawnInserter? {
      TotalAppend(w.inserters, Waiting, InHand(p));
    } else {
      SameRowsConserve(w, MainDoes(w, s), p);
    }
  }

  /** Every step of every stage conserves rows, except exactly the one of `DropsRows`. */
  lemma StepConserves(cfg: Config, w: World, step: Step, p: Row -> bool)
    requires Conserved(w, p) && Enabled(cfg, w, step)
    ensures Conserved(Do(cfg, w, step), p)
      <==> !(step.ByInserter? && DropsRows(cfg, w, step.i, step.inserterStep, p))
  {
    match step
    case ByReceiver(r, s) => ReceiverConserves(cfg, w, r, s, p);
    case ByWorker(i, s) => WorkerConserves(cfg, w, i, s, p);
    case ByInserter(i, s) => InserterConserves(cfg, w, i, s, p);
    case ByMain(s) => MainConserves(w, s, p);
  }

  // ---- Whole runs ----

  lemma InitConserves(receivers: nat, workers: nat, inserters: nat, p: Row -> bool)
    requires workers >= 1 && inserters >= 1
    ensures Shape(Init(receivers, workers, inserters)) && Conserved(Init(receivers, workers, inserters), p)
  {
    var w := Init(receivers, workers, inserters);
    TotalMapZero<Table, Batch>(map[], InBatch(p));
    TotalZero(w.workers, InPending(p));
    TotalZero(w.inserters, InHand(p));
  }

  /** Over every interleaving, at every point of every run, every parsed row is in exactly one place, and
      no closed channel was ever sent to. */
  lemma {:induction false} RunConserves(cfg: Config, ws: seq<World>, steps: seq<Step>, k: nat, p: Row -> bool)
    requires cfg.maxRetries >= 1 && IsRun(cfg, ws, steps) && k <= |steps|
    ensures Shape(ws[k]) && Conserved(ws[k], p) && !ws[k].panicked
  {
    if k == 0 {
      var r, n, i: nat :| 1 <= n <= cfg.maxWorkers && i >= 1 && ws[0] == Init(r, n, i);
      InitConserves(r, n, i, p);
    } else {
      RunConserves(cfg, ws, steps, k - 1, p);
      StepKeepsShape(cfg, ws[k - 1], steps[k - 1]);
      StepConserves(cfg, ws[k - 1], steps[k - 1], p);
    }
  }

  /** Once the drain is complete nothing is pending, queued or in hand: every parsed row was acknowledged,
      spooled or reported as lost by the spool, and every received packet was processed or abandoned. */
  lemma DrainDeliversEverything(cfg: Config, ws: seq<World>, steps: seq<Step>, k: nat, p: Row -> bool)
    requires cfg.maxRetries >= 1 && IsRun(cfg, ws, steps) && k <= |steps| && ws[k].phase.Done?
    ensures InFlight(ws[k], p) == 0 && RowsWhere(ws[k].parsed, p) == Ended(ws[k], p)
    ensures ws[k].packets == [] && ws[k].queue == []
    ensures forall r :: 0 <= r < |ws[k].receivers| ==> ws[k].receivers[r].Stopped?
  {
    var w := ws[k];
    RunConserves(cfg, ws, steps, k, p);
    assert WorkerOk(Drained(w), w.workers[0]) && w.inserters[0].Gone?;
    forall x | x in w.workers ensures InPending(p)(x) == 0 {
      var i :| 0 <= i < |w.workers| && w.workers[i] == x;
      assert WorkerOk(Drained(w), w.workers[i]);
      TotalMapZero(x.pending, InBatch(p));
    }
    TotalZero(w.workers, InPending(p));
    TotalZero(w.inserters, InHand(p));
  }
}
