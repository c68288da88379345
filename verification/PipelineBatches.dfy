/** What holds of the batches and queues of the pipeline in every interleaving (main.go): batches hold the rows of one
    table within the limits, queues keep their order, and no batch is given up early. */
module PipelineBatches {
  import opened Options
  import opened Cohorts
  import opened CohortTrackers
  import opened PacketWorkers
  import opened Pipeline
  import opened PipelineCohorts

  // ---- Batches ----

  predicate RowsBelong(cfg: Config, b: Batch) {
    forall r :: 0 <= r < |b.rows| ==> RowTable(cfg, b.rows[r]) == b.table
  }

  /** Room for one row more. */
  predicate Below(cfg: Config, b: Batch) {
    |b.rows| < cfg.batchRows && 35 * |b.rows| < cfg.batchBytes
  }

  /** A batch as it leaves its worker: the rows of its table, at least one, and both limits kept but for the last row. */
  predicate Finished(cfg: Config, b: Batch) {
    && b.rows != [] && RowsBelong(cfg, b)
    && |b.rows| <= cfg.batchRows && 35 * (|b.rows| - 1) < cfg.batchBytes
  }

  predicate AllFinished(cfg: Config, bs: seq<Batch>) {
    forall i :: 0 <= i < |bs| ==> Finished(cfg, bs[i])
  }

  /** Pending batches have room, except one that is about to be flushed. */
  predicate PendingOk(cfg: Config, x: Worker) {
    forall t :: t in x.pending ==>
      && x.pending[t].table == t && RowsBelong(cfg, x.pending[t])
      && (Below(cfg, x.pending[t]) || (x.pc.Flushing? && t in x.pc.tables && Finished(cfg, x.pending[t])))
  }

  predicate WorkersOk(cfg: Config, workers: seq<Worker>) {
    forall i :: 0 <= i < |workers| ==> PendingOk(cfg, workers[i])
  }

  predicate HandsOk(cfg: Config, inserters: seq<Inserter>) {
    forall i :: 0 <= i < |inserters| && inserters[i].Holding? ==> Finished(cfg, inserters[i].batch)
  }

  predicate BatchesOk(cfg: Config, w: World) {
    && AllFinished(cfg, w.queue) && AllFinished(cfg, w.inserted) && AllFinished(cfg, w.spooled)
    && AllFinished(cfg, w.spoolFailed) && WorkersOk(cfg, w.workers) && HandsOk(cfg, w.inserters)
  }

  lemma EndKeepsBatches(cfg: Config, w: World, b: Batch, kind: Kind)
    requires BatchesOk(cfg, w) && Finished(cfg, b)
    ensures BatchesOk(cfg, EndBatch(cfg, w, b, kind))
  {
  }

  lemma WorkerKeepsOthers(cfg: Config, w: World, i: nat, x: Worker)
    requires BatchesOk(cfg, w) && i < |w.workers| && PendingOk(cfg, x)
    ensures BatchesOk(cfg, w.(workers := w.workers[i := x]))
  {
  }

  /** The row added goes to the batch of its table, and at a limit that batch is flushed next. */
  lemma AddKeepsBatches(cfg: Config, w: World, i: nat, cohorts: seq<InsertCohort>)
    requires BatchesOk(cfg, w) && WorkerMay(cfg, w, i, Add(cohorts))
    requires cfg.batchRows >= 1 && cfg.batchBytes >= 1
    ensures BatchesOk(cfg, AddRow(cfg, w, i, cohorts))
  {
    var x, x' := w.workers[i], AddRow(cfg, w, i, cohorts).workers[i];
    var row := x.pc.rest[0];
    var t := RowTable(cfg, row);
    var before, after := Pending(x, t, WorkerShard(w, i)), x'.pending[t];
    assert PendingOk(cfg, x);
    assert RowsBelong(cfg, before) && Below(cfg, before);
    assert after.rows == before.rows + [row];
    assert Finished(cfg, after);
    WorkerKeepsOthers(cfg, w, i, x');
  }

  lemma QueueingKeepsBatches(cfg: Config, w: World, b: Batch, panicked: bool)
    requires BatchesOk(cfg, w) && Finished(cfg, b)
    ensures BatchesOk(cfg, w.(queue := w.queue + [b], panicked := panicked))
  {
  }

  /** A worker that has dealt with table `t` has room there. */
  lemma DealtWith(cfg: Config, x: Worker, t: Table, shard: nat)
    requires PendingOk(cfg, x) && x.pc.Flushing? && cfg.batchRows >= 1 && cfg.batchBytes >= 1
    ensures PendingOk(cfg, Worker(x.pc.(tables := x.pc.tables - {t}), x.pending[t := RawBatch(t, [], [], shard)]))
    ensures t !in x.pending || x.pending[t].rows == [] ==> PendingOk(cfg, x.(pc := x.pc.(tables := x.pc.tables - {t})))
  {
  }

  lemma FlushKeepsBatches(cfg: Config, w: World, i: nat, t: Table, outcome: FlushOutcome)
    requires BatchesOk(cfg, w) && i < |w.workers| && w.workers[i].pc.Flushing? && t in w.workers[i].pc.tables
    requires cfg.batchRows >= 1 && cfg.batchBytes >= 1
    ensures BatchesOk(cfg, FlushOne(cfg, w, i, t, outcome))
  {
    var x := w.workers[i];
    assert PendingOk(cfg, x);
    DealtWith(cfg, x, t, WorkerShard(w, i));
    var b := Pending(x, t, WorkerShard(w, i));
    if b.rows == [] {
      WorkerKeepsOthers(cfg, w, i, x.(pc := x.pc.(tables := x.pc.tables - {t})));
    } else {
      FlushedIsFinished(cfg, x, t);
      var emptied := Emptied(w, i, t);
      WorkerKeepsOthers(cfg, w, i, emptied.workers[i]);
      match outcome
      case Enqueued => QueueingKeepsBatches(cfg, emptied, b, w.panicked || w.queueClosed);
      case Refused(spools) => EndKeepsBatches(cfg, emptied, b, SpoolKind(spools));
    }
  }

  lemma FlushedIsFinished(cfg: Config, x: Worker, t: Table)
    requires PendingOk(cfg, x) && t in x.pending && x.pending[t].rows != []
    ensures Finished(cfg, x.pending[t])
  {
  }

  lemma WorkerKeepsBatches(cfg: Config, w: World, i: nat, s: WorkerStep)
    requires BatchesOk(cfg, w) && WorkerMay(cfg, w, i, s) && cfg.batchRows >= 1 && cfg.batchBytes >= 1
    ensures BatchesOk(cfg, WorkerDoes(cfg, w, i, s))
  {
    match s
    case Add(cohorts) => AddKeepsBatches(cfg, w, i, cohorts);
    case Flush(t, outcome) => FlushKeepsBatches(cfg, w, i, t, outcome);
    case _ =>
      assert PendingOk(cfg, w.workers[i]);
      assert PendingOk(cfg, WorkerDoes(cfg, w, i, s).workers[i]);
      WorkerKeepsOthers(cfg, w, i, WorkerDoes(cfg, w, i, s).workers[i]);
  }

  lemma InserterKeepsBatches(cfg: Config, w: World, i: nat, s: InserterStep)
    requires BatchesOk(cfg, w) && InserterMay(cfg, w, i, s)
    ensures BatchesOk(cfg, InserterDoes(cfg, w, i, s))
  {
    match s
    case TakeBatch =>
    case Attempt(ok) =>
      if ok {
        EndKeepsBatches(cfg, WithInserter(w, i, Waiting), w.inserters[i].batch, Kind.Inserted);
      }
    case GiveUp(spools) =>
      if cfg.maxRetries > 0 {
        EndKeepsBatches(cfg, WithInserter(w, i, Waiting), w.inserters[i].batch, SpoolKind(spools));
      }
    case LeaveQueue =>
  }

  lemma ReceiverKeepsBatches(cfg: Config, w: World, r: nat, s: ReceiverStep)
    requires BatchesOk(cfg, w) && ReceiverMay(cfg, w, r, s)
    ensures BatchesOk(cfg, ReceiverDoes(w, r, s))
  {
  }

  lemma MainKeepsBatches(cfg: Config, w: World, s: MainStep)
    requires BatchesOk(cfg, w) && MainMay(cfg, w, s)
    ensures BatchesOk(cfg, MainDoes(w, s))
  {
    match s
    case SpawnWorker =>
    case SpawnInserter =>
    case _ => MainIsSilent(w, s);
  }

  lemma StepKeepsBatches(cfg: Config, w: World, step: Step)
    requires BatchesOk(cfg, w) && Enabled(cfg, w, step) && cfg.batchRows >= 1 && cfg.batchBytes >= 1
    ensures BatchesOk(cfg, Do(cfg, w, step))
  {
    match step
    case ByReceiver(r, s) => ReceiverKeepsBatches(cfg, w, r, s);
    case ByWorker(i, s) => WorkerKeepsBatches(cfg, w, i, s);
    case ByInserter(i, s) => InserterKeepsBatches(cfg, w, i, s);
    case ByMain(s) => MainKeepsBatches(cfg, w, s);
  }

  /** In every run, every batch that is queued, in hand, inserted, spooled or lost by the spool holds the rows of its own
      table only, at least one and at most `batchRows`, and reached the byte limit with its last row if at all;
      what is pending has room for a row more unless it is being flushed. */
  lemma {:induction false} BatchesAreWellFormed(cfg: Config, ws: seq<World>, steps: seq<Step>, k: nat)
    requires IsRun(cfg, ws, steps) && k <= |steps| && cfg.batchRows >= 1 && cfg.batchBytes >= 1
    ensures BatchesOk(cfg, ws[k])
  {
    if k > 0 {
      BatchesAreWellFormed(cfg, ws, steps, k - 1);
      StepKeepsBatches(cfg, ws[k - 1], steps[k - 1]);
    }
  }

  // ---- Flushes ----

  /** A worker that flushes all its tables has emptied those it has dealt with. */
  predicate FlushOk(x: Worker) {
    x.pc.Flushing? && !x.pc.after.Continue? ==> forall t :: t in x.pending && t !in x.pc.tables ==> x.pending[t].rows == []
  }

  predicate FlushesOk(workers: seq<Worker>) {
    forall i :: 0 <= i < |workers| ==> FlushOk(workers[i])
  }

  lemma FlushedTable(x: Worker, t: Table, shard: nat)
    requires FlushOk(x) && x.pc.Flushing?
    ensures FlushOk(Worker(x.pc.(tables := x.pc.tables - {t}), x.pending[t := RawBatch(t, [], [], shard)]))
    ensures t !in x.pending || x.pending[t].rows == [] ==> FlushOk(x.(pc := x.pc.(tables := x.pc.tables - {t})))
  {
  }

  lemma OneWorkerFlushes(workers: seq<Worker>, i: nat, x: Worker)
    requires FlushesOk(workers) && i < |workers| && FlushOk(x)
    ensures FlushesOk(workers[i := x])
  {
  }

  /** What one step of a worker makes of it. */
  lemma StepFlushes(cfg: Config, w: World, i: nat, s: WorkerStep)
    requires WorkerMay(cfg, w, i, s) && FlushOk(w.workers[i])
    ensures var workers := WorkerDoes(cfg, w, i, s).workers;
      |workers| == |w.workers| && workers == w.workers[i := workers[i]] && FlushOk(workers[i])
  {
    match s
    case Flush(t, outcome) => FlushedTable(w.workers[i], t, WorkerShard(w, i));
    case _ =>
  }

  lemma WorkerKeepsFlushes(cfg: Config, w: World, i: nat, s: WorkerStep)
    requires FlushesOk(w.workers) && WorkerMay(cfg, w, i, s)
    ensures FlushesOk(WorkerDoes(cfg, w, i, s).workers)
  {
    assert FlushOk(w.workers[i]);
    StepFlushes(cfg, w, i, s);
    OneWorkerFlushes(w.workers, i, WorkerDoes(cfg, w, i, s).workers[i]);
  }

  lemma WorkersOfOthers(cfg: Config, w: World, step: Step)
    requires Enabled(cfg, w, step) && !step.ByWorker?
    ensures var workers := Do(cfg, w, step).workers; workers == w.workers || workers == w.workers + [NewWorker]
  {
    match step
    case ByReceiver(r, s) =>
    case ByInserter(i, s) => WorkersOfInserter(cfg, w, i, s);
    case ByMain(s) => MainIsSilent(w, s);
  }

  lemma WorkersOfInserter(cfg: Config, w: World, i: nat, s: InserterStep)
    requires InserterMay(cfg, w, i, s)
    ensures InserterDoes(cfg, w, i, s).workers == w.workers
  {
    match s
    case TakeBatch =>
    case Attempt(ok) =>
    case GiveUp(_) =>
    case LeaveQueue =>
  }

  lemma {:induction false} RunKeepsFlushes(cfg: Config, ws: seq<World>, steps: seq<Step>, k: nat)
    requires IsRun(cfg, ws, steps) && k <= |steps|
    ensures FlushesOk(ws[k].workers)
  {
    if k > 0 {
      RunKeepsFlushes(cfg, ws, steps, k - 1);
      match steps[k - 1]
      case ByWorker(i, s) => WorkerKeepsFlushes(cfg, ws[k - 1], i, s);
      case _ => WorkersOfOthers(cfg, ws[k - 1], steps[k - 1]);
    }
  }

  /** In every run, when a worker is done with the flush of a tick, or the one before it exits, nothing is pending with it. */
  lemma TickLeavesNothing(cfg: Config, ws: seq<World>, steps: seq<Step>, k: nat, i: nat)
    requires IsRun(cfg, ws, steps) && k < |steps| && steps[k] == ByWorker(i, FinishFlush)
    ensures var x := ws[k].workers[i];
      x.pc.Flushing? && (x.pc.after.Continue? || forall t :: t in x.pending ==> x.pending[t].rows == [])
  {
    RunKeepsFlushes(cfg, ws, steps, k);
    assert Enabled(cfg, ws[k], steps[k]);
    assert FlushOk(ws[k].workers[i]);
  }

  /** And a tick or the closed channel starts just such a flush. */
  lemma TicksFlush(cfg: Config, w: World, i: nat, s: WorkerStep)
    requires WorkerMay(cfg, w, i, s) && (s.TickFlush? || s.SeeClosed?)
    ensures var pc := WorkerDoes(cfg, w, i, s).workers[i].pc;
      pc.Flushing? && pc.after == (if s.TickFlush? then Select else Exit)
  {
  }

  // ---- Order ----

  predicate TakesBatch(step: Step) {
    step.ByInserter? && step.inserterStep.TakeBatch?
  }

  predicate TakesPacket(step: Step) {
    step.ByWorker? && step.workerStep.Take?
  }

  /** What joined the batch queue, in order: its last batch whenever it grew. */
  function Joined(ws: seq<World>, k: nat): seq<Batch>
    requires k < |ws|
  {
    if k == 0 then []
    else
      var before, after := ws[k - 1].queue, ws[k].queue;
      Joined(ws, k - 1) + if |after| > |before| then [after[|after| - 1]] else []
  }

  /** The batch in the hands of the insert worker that has just taken one. */
  function InHand(w: World, step: Step): seq<Batch> {
    if TakesBatch(step) && step.i < |w.inserters| && w.inserters[step.i].Holding? then [w.inserters[step.i].batch] else []
  }

  /** What insert workers took, in order. */
  function TakenUp(ws: seq<World>, steps: seq<Step>, k: nat): seq<Batch>
    requires k < |ws| && k <= |steps|
  {
    if k == 0 then [] else TakenUp(ws, steps, k - 1) + InHand(ws[k], steps[k - 1])
  }

  predicate Grew<T(==)>(a: seq<T>, b: seq<T>) {
    |b| == |a| + 1 && b == a + [b[|a|]]
  }

  lemma QueueOfReceiver(cfg: Config, w: World, r: nat, s: ReceiverStep)
    requires ReceiverMay(cfg, w, r, s)
    ensures ReceiverDoes(w, r, s).queue == w.queue && ReceiverDoes(w, r, s).inserters == w.inserters
    ensures var p, p' := w.packets, ReceiverDoes(w, r, s).packets; p' == p || Grew(p, p')
  {
  }

  lemma QueueOfWorker(cfg: Config, w: World, i: nat, s: WorkerStep)
    requires WorkerMay(cfg, w, i, s)
    ensures var q, q' := w.queue, WorkerDoes(cfg, w, i, s).queue; q' == q || Grew(q, q')
    ensures WorkerDoes(cfg, w, i, s).inserters == w.inserters
  {
    match s
    case Flush(t, outcome) =>
    case _ =>
  }

  lemma QueueOfInserter(cfg: Config, w: World, i: nat, s: InserterStep)
    requires InserterMay(cfg, w, i, s)
    ensures var w' := InserterDoes(cfg, w, i, s);
      && w'.packets == w.packets
      && (if s.TakeBatch? then w.queue != [] && w'.queue == w.queue[1..] && w'.inserters[i] == Holding(w.queue[0], 0)
          else w'.queue == w.queue)
  {
    match s
    case TakeBatch =>
    case Attempt(ok) =>
    case GiveUp(_) =>
    case LeaveQueue =>
  }

  lemma QueueOfMain(w: World, s: MainStep)
    ensures MainDoes(w, s).queue == w.queue && MainDoes(w, s).packets == w.packets
  {
    match s
    case Tick(_) =>
    case _ =>
  }

  lemma QueueStep(cfg: Config, w: World, step: Step)
    requires Enabled(cfg, w, step)
    ensures var w' := Do(cfg, w, step);
      if TakesBatch(step) then w.queue != [] && w'.queue == w.queue[1..] && InHand(w', step) == [w.queue[0]]
      else (w'.queue == w.queue || Grew(w.queue, w'.queue)) && InHand(w', step) == []
  {
    match step
    case ByReceiver(r, s) => QueueOfReceiver(cfg, w, r, s);
    case ByWorker(i, s) => QueueOfWorker(cfg, w, i, s);
    case ByInserter(i, s) => QueueOfInserter(cfg, w, i, s);
    case ByMain(s) => QueueOfMain(w, s);
  }

  /** The batch queue keeps its order: what joined it is what was taken, followed by what is queued. */
  lemma {:induction false} QueueIsFifo(cfg: Config, ws: seq<World>, steps: seq<Step>, k: nat)
    requires IsRun(cfg, ws, steps) && k <= |steps|
    ensures Joined(ws, k) == TakenUp(ws, steps, k) + ws[k].queue
  {
    if k > 0 {
      QueueIsFifo(cfg, ws, steps, k - 1);
      QueueStep(cfg, ws[k - 1], steps[k - 1]);
      Passes(TakenUp(ws, steps, k - 1), InHand(ws[k], steps[k - 1]), ws[k - 1].queue, ws[k].queue);
    }
  }

  /** Something passes the head of a queue, or joins its tail, or neither. */
  lemma Passes<T>(done: seq<T>, out: seq<T>, q: seq<T>, q': seq<T>)
    requires if out == [] then q' == q || Grew(q, q') else q != [] && out == [q[0]] && q' == q[1..]
    ensures done + q + (if |q'| > |q| then [q'[|q'| - 1]] else []) == done + out + q'
  {
  }

  /** What joined the packet channel, in order, and what workers took from it to add; None is a packet that does not
      parse. */
  function Arrived(ws: seq<World>, k: nat): seq<Option<seq<Row>>>
    requires k < |ws|
  {
    if k == 0 then []
    else
      var before, after := ws[k - 1].packets, ws[k].packets;
      Arrived(ws, k - 1) + if |after| > |before| then [after[|after| - 1].rows] else []
  }

  /** What the worker that has just taken a packet is about to add. */
  function ToAdd(w: World, step: Step): seq<Option<seq<Row>>> {
    if !TakesPacket(step) || step.i >= |w.workers| then []
    else if w.workers[step.i].pc.Adding? then [Some(w.workers[step.i].pc.rest)] else [None]
  }

  function Begun(ws: seq<World>, steps: seq<Step>, k: nat): seq<Option<seq<Row>>>
    requires k < |ws| && k <= |steps|
  {
    if k == 0 then [] else Begun(ws, steps, k - 1) + ToAdd(ws[k], steps[k - 1])
  }

  function RowsOfPackets(packets: seq<Packet>): seq<Option<seq<Row>>> {
    seq(|packets|, i requires 0 <= i < |packets| => packets[i].rows)
  }

  lemma PacketsOfWorker(cfg: Config, w: World, i: nat, s: WorkerStep)
    requires WorkerMay(cfg, w, i, s)
    ensures var w' := WorkerDoes(cfg, w, i, s);
      if s.Take? then
        w.packets != [] && w'.packets == w.packets[1..] && ToAdd(w', ByWorker(i, s)) == [w.packets[0].rows]
      else w'.packets == w.packets
  {
    match s
    case Flush(t, outcome) =>
    case _ =>
  }

  lemma PacketsStep(cfg: Config, w: World, step: Step)
    requires Enabled(cfg, w, step)
    ensures var w' := Do(cfg, w, step);
      if TakesPacket(step) then
        w.packets != [] && w'.packets == w.packets[1..] && ToAdd(w', step) == [w.packets[0].rows]
      else (w'.packets == w.packets || Grew(w.packets, w'.packets)) && ToAdd(w', step) == []
  {
    match step
    case ByReceiver(r, s) => QueueOfReceiver(cfg, w, r, s);
    case ByWorker(i, s) => PacketsOfWorker(cfg, w, i, s);
    case ByInserter(i, s) => QueueOfInserter(cfg, w, i, s);
    case ByMain(s) => QueueOfMain(w, s);
  }

  lemma RowsOfGrown(p: seq<Packet>, p': seq<Packet>)
    ensures Grew(p, p') ==> Grew(RowsOfPackets(p), RowsOfPackets(p')) && RowsOfPackets(p')[|p|] == p'[|p|].rows
    ensures p != [] && p' == p[1..] ==> RowsOfPackets(p') == RowsOfPackets(p)[1..]
  {
  }

  /** The packet channel keeps its order: packets are added to batches, or found not to parse, in the order in which they
      joined it. */
  lemma {:induction false} PacketsAreFifo(cfg: Config, ws: seq<World>, steps: seq<Step>, k: nat)
    requires IsRun(cfg, ws, steps) && k <= |steps|
    ensures Arrived(ws, k) == Begun(ws, steps, k) + RowsOfPackets(ws[k].packets)
  {
    if k > 0 {
      PacketsAreFifo(cfg, ws, steps, k - 1);
      PacketsStep(cfg, ws[k - 1], steps[k - 1]);
      RowsOfGrown(ws[k - 1].packets, ws[k].packets);
      Passes(Begun(ws, steps, k - 1), ToAdd(ws[k], steps[k - 1]), RowsOfPackets(ws[k - 1].packets), RowsOfPackets(ws[k].packets));
    }
  }

  // ---- Attempts ----

  predicate ByThe(step: Step, i: nat) {
    step.ByInserter? && step.i == i
  }

  /** How many attempts insert worker `i` has seen refused since it last took a batch. */
  function Refusals(steps: seq<Step>, i: nat, k: nat): nat
    requires k <= |steps|
  {
    if k == 0 then 0
    else if !ByThe(steps[k - 1], i) then Refusals(steps, i, k - 1)
    else
      match steps[k - 1].inserterStep
      case TakeBatch => 0
      case Attempt(ok) => Refusals(steps, i, k - 1) + if ok then 0 else 1
      case _ => Refusals(steps, i, k - 1)
  }

  predicate HoldsAfter(w: World, i: nat, attempts: int) {
    i < |w.inserters| && w.inserters[i].Holding? && w.inserters[i].attempts == attempts
  }

  lemma HandsOfReceiver(cfg: Config, w: World, r: nat, s: ReceiverStep)
    requires ReceiverMay(cfg, w, r, s)
    ensures ReceiverDoes(w, r, s).inserters == w.inserters
  {
  }

  lemma HandsOfWorker(cfg: Config, w: World, i: nat, s: WorkerStep)
    requires WorkerMay(cfg, w, i, s)
    ensures WorkerDoes(cfg, w, i, s).inserters == w.inserters
  {
    match s
    case Flush(t, outcome) =>
    case _ =>
  }

  lemma HandsStep(cfg: Config, w: World, step: Step)
    requires Enabled(cfg, w, step) && !step.ByInserter?
    ensures var hands := Do(cfg, w, step).inserters; hands == w.inserters || hands == w.inserters + [Waiting]
  {
    match step
    case ByReceiver(r, s) => HandsOfReceiver(cfg, w, r, s);
    case ByWorker(j, s) => HandsOfWorker(cfg, w, j, s);
    case ByMain(s) => HandsOfMain(w, s);
  }

  lemma HandsOfMain(w: World, s: MainStep)
    ensures MainDoes(w, s).inserters == if s.SpawnInserter? then w.inserters + [Waiting] else w.inserters
  {
    match s
    case Tick(_) =>
    case _ =>
  }

  lemma OtherHands(cfg: Config, w: World, j: nat, s: InserterStep, i: nat)
    requires InserterMay(cfg, w, j, s) && j != i && i < |w.inserters|
    ensures |InserterDoes(cfg, w, j, s).inserters| == |w.inserters| && InserterDoes(cfg, w, j, s).inserters[i] == w.inserters[i]
  {
    match s
    case TakeBatch =>
    case Attempt(ok) =>
    case GiveUp(_) =>
    case LeaveQueue =>
  }

  lemma OwnAttempt(cfg: Config, w: World, i: nat, s: InserterStep)
    requires InserterMay(cfg, w, i, s) && InserterDoes(cfg, w, i, s).inserters[i].Holding?
    ensures var attempts := InserterDoes(cfg, w, i, s).inserters[i].attempts;
      if s.TakeBatch? then attempts == 0
      else s == Attempt(false) && HoldsAfter(w, i, attempts - 1) && attempts <= cfg.maxRetries
  {
    match s
    case TakeBatch =>
    case Attempt(ok) => assert ok ==> InserterDoes(cfg, w, i, s).inserters == WithInserter(w, i, Waiting).inserters;
    case GiveUp(_) =>
    case LeaveQueue =>
  }

  /** In every run a batch in hand has been refused as often as its worker remembers, never more than `maxRetries` times. */
  lemma {:induction false} AttemptsAreCounted(cfg: Config, ws: seq<World>, steps: seq<Step>, k: nat, i: nat)
    requires IsRun(cfg, ws, steps) && k <= |steps| && i < |ws[k].inserters| && ws[k].inserters[i].Holding?
    ensures ws[k].inserters[i].attempts == Refusals(steps, i, k) <= cfg.maxRetries
  {
    if k > 0 {
      var w, step := ws[k - 1], steps[k - 1];
      if ByThe(step, i) {
        OwnAttempt(cfg, w, i, step.inserterStep);
        if !step.inserterStep.TakeBatch? {
          AttemptsAreCounted(cfg, ws, steps, k - 1, i);
        }
      } else {
        if step.ByInserter? {
          OtherHands(cfg, w, step.i, step.inserterStep, i);
        } else {
          HandsStep(cfg, w, step);
        }
        assert ws[k].inserters[i] == w.inserters[i];
        AttemptsAreCounted(cfg, ws, steps, k - 1, i);
      }
    }
  }

  /** A batch is given up only after exactly `maxRetries` refused attempts, and attempted only before that. */
  lemma GivenUpAfterAllAttempts(cfg: Config, ws: seq<World>, steps: seq<Step>, k: nat, i: nat, s: InserterStep)
    requires IsRun(cfg, ws, steps) && k < |steps| && steps[k] == ByInserter(i, s)
    ensures s.GiveUp? ==> Refusals(steps, i, k) == cfg.maxRetries
    ensures s.Attempt? ==> Refusals(steps, i, k) < cfg.maxRetries
  {
    assert Enabled(cfg, ws[k], steps[k]);
    if s.GiveUp? || s.Attempt? {
      AttemptsAreCounted(cfg, ws, steps, k, i);
    }
  }
}
