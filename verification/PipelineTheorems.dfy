/** What the alert evaluator reads of a running pipeline. */
module PipelineTheorems {
  import opened Cohorts
  import opened CohortTrackers
  import opened PacketWorkers
  import opened Sums
  import opened Pipeline
  import opened PipelineProofs
  import opened PipelineCohorts

  // ---- Every point of every run ----

  lemma InitBalances(receivers: nat, workers: nat, inserters: nat, cfg: Config, lo: int, hi: int)
    ensures var w := Init(receivers, workers, inserters);
      && TimesOk(w) && PacketsBalance(w, lo, hi) && ExpectedBalance(w, lo, hi)
      && forall kind | IsEnd(kind) :: EndBalance(cfg, w, lo, hi, kind)
  {
    var w := Init(receivers, workers, inserters);
    TotalZero(w.receivers, SendingIn(lo, hi));
    TotalZero(w.workers, InAdding(Within(lo, hi)));
  }

  lemma StepBalances(cfg: Config, w: World, step: Step, lo: int, hi: int)
    requires Enabled(cfg, w, step) && Conserved(w, Newer(w.clock))
    requires TimesOk(w) && PacketsBalance(w, lo, hi) && ExpectedBalance(w, lo, hi)
    requires forall kind | IsEnd(kind) :: EndBalance(cfg, w, lo, hi, kind)
    ensures var w' := Do(cfg, w, step); TimesOk(w') && PacketsBalance(w', lo, hi) && ExpectedBalance(w', lo, hi)
    ensures forall kind | IsEnd(kind) :: EndBalance(cfg, Do(cfg, w, step), lo, hi, kind)
  {
    StepKeepsTimes(cfg, w, step);
    StepBalancesPackets(cfg, w, step, lo, hi);
    StepBalancesExpected(cfg, w, step, lo, hi);
    forall kind | IsEnd(kind) ensures EndBalance(cfg, Do(cfg, w, step), lo, hi, kind) {
      StepBalancesEnds(cfg, w, step, lo, hi, kind);
    }
  }

  lemma {:induction false} RunBalances(cfg: Config, ws: seq<World>, steps: seq<Step>, k: nat, lo: int, hi: int)
    requires cfg.maxRetries >= 1 && IsRun(cfg, ws, steps) && k <= |steps|
    ensures TimesOk(ws[k]) && PacketsBalance(ws[k], lo, hi) && ExpectedBalance(ws[k], lo, hi)
    ensures forall kind | IsEnd(kind) :: EndBalance(cfg, ws[k], lo, hi, kind)
  {
    if k == 0 {
      var r, n, i: nat :| 1 <= n <= cfg.maxWorkers && i >= 1 && ws[0] == Init(r, n, i);
      InitBalances(r, n, i, cfg, lo, hi);
    } else {
      var w, step := ws[k - 1], steps[k - 1];
      RunBalances(cfg, ws, steps, k - 1, lo, hi);
      RunConserves(cfg, ws, steps, k - 1, Newer(w.clock));
      StepBalances(cfg, w, step, lo, hi);
    }
  }

  /** Rows of a window that are parsed and not yet acknowledged, spooled or lost by the spool. */
  ghost function Unsettled(w: World, lo: int, hi: int): nat {
    InFlight(w, Within(lo, hi)) + Total(w.workers, InAdding(Within(lo, hi)))
  }

  /** For every window, parsed and failed packets are never more than received ones, and what is missing is
      waiting or abandoned. Acknowledged, spooled and lost rows are never more than expected ones, and for
      a window that starts within the ring what is missing is exactly the rows still under way. */
  lemma CohortsBalance(cfg: Config, ws: seq<World>, steps: seq<Step>, k: nat, lo: int, hi: int)
    requires cfg.maxRetries >= 1 && IsRun(cfg, ws, steps) && k <= |steps|
    ensures var h := ws[k].events;
      && Window(h, lo, hi, Received)
         == Window(h, lo, hi, Kind.Parsed) + Window(h, lo, hi, ParseFailed) + Unparsed(ws[k], lo, hi)
      && Window(h, lo, hi, Kind.Inserted) + Window(h, lo, hi, Kind.Spooled) + Window(h, lo, hi, Kind.SpoolFailed)
         + Unsettled(ws[k], lo, hi) <= Window(h, lo, hi, Expected)
      && (lo > ws[k].clock - cfg.retention ==>
            Window(h, lo, hi, Kind.Inserted) + Window(h, lo, hi, Kind.Spooled) + Window(h, lo, hi, Kind.SpoolFailed)
            + Unsettled(ws[k], lo, hi) == Window(h, lo, hi, Expected))
  {
    RunBalances(cfg, ws, steps, k, lo, hi);
    RunConserves(cfg, ws, steps, k, Within(lo, hi));
    assert EndBalance(cfg, ws[k], lo, hi, Kind.Inserted) && EndBalance(cfg, ws[k], lo, hi, Kind.Spooled);
    assert EndBalance(cfg, ws[k], lo, hi, Kind.SpoolFailed);
  }

  // ---- Shards never alias ----

  predicate EventsBelow(h: seq<Event>, n: nat) {
    forall k :: 0 <= k < |h| ==> h[k].shard <= n
  }

  predicate BatchesBelow(batches: seq<Batch>, n: nat) {
    forall k :: 0 <= k < |batches| ==> batches[k].shard <= n
  }

  ghost predicate WorkersBelow(workers: seq<Worker>, n: nat) {
    forall i, t :: 0 <= i < |workers| && t in workers[i].pending ==> workers[i].pending[t].shard <= n
  }

  predicate HandsBelow(inserters: seq<Inserter>, n: nat) {
    forall i :: 0 <= i < |inserters| && inserters[i].Holding? ==> inserters[i].batch.shard <= n
  }

  /** No shard is above the receivers and the most workers there may ever be. */
  ghost predicate ShardsOk(cfg: Config, w: World, receivers: nat) {
    var n := receivers + cfg.maxWorkers;
    && |w.receivers| == receivers && |w.workers| <= cfg.maxWorkers
    && EventsBelow(w.events, n) && BatchesBelow(w.queue, n) && WorkersBelow(w.workers, n) && HandsBelow(w.inserters, n)
  }

  lemma {:induction false} RecordBelow(cohorts: seq<InsertCohort>, shard: nat, kind: Kind, now: int, size: nat)
    ensures EventsBelow(CohortEvents(cohorts, shard, kind, now, size), shard)
  {
    if cohorts != [] {
      RecordBelow(cohorts[..|cohorts| - 1], shard, kind, now, size);
    }
  }

  lemma EndKeepsShards(cfg: Config, w: World, receivers: nat, b: Batch, kind: Kind)
    requires ShardsOk(cfg, w, receivers) && b.shard <= receivers + cfg.maxWorkers
    ensures ShardsOk(cfg, EndBatch(cfg, w, b, kind), receivers)
  {
    RecordBelow(b.cohorts, b.shard, kind, w.clock, cfg.retention);
  }

  lemma NewBatchKeepsShards(cfg: Config, w: World, i: nat, pc: WorkerPc, t: Table, b: Batch, receivers: nat)
    requires ShardsOk(cfg, w, receivers) && i < |w.workers| && b.shard <= receivers + cfg.maxWorkers
    ensures ShardsOk(cfg, w.(workers := w.workers[i := Worker(pc, w.workers[i].pending[t := b])]), receivers)
  {
  }

  lemma EmptyingKeepsShards(cfg: Config, w: World, i: nat, t: Table, receivers: nat)
    requires ShardsOk(cfg, w, receivers) && i < |w.workers| && w.workers[i].pc.Flushing?
    ensures ShardsOk(cfg, Emptied(w, i, t), receivers)
    ensures Pending(w.workers[i], t, WorkerShard(w, i)).shard <= receivers + cfg.maxWorkers
  {
    var pc := Emptied(w, i, t).workers[i].pc;
    NewBatchKeepsShards(cfg, w, i, pc, t, RawBatch(t, [], [], WorkerShard(w, i)), receivers);
  }

  lemma EnqueueKeepsShards(cfg: Config, w: World, b: Batch, panicked: bool, receivers: nat)
    requires ShardsOk(cfg, w, receivers) && b.shard <= receivers + cfg.maxWorkers
    ensures ShardsOk(cfg, w.(queue := w.queue + [b], panicked := panicked), receivers)
  {
  }

  lemma SameBatchesKeepShards(cfg: Config, w: World, i: nat, pc: WorkerPc, receivers: nat)
    requires ShardsOk(cfg, w, receivers) && i < |w.workers|
    ensures ShardsOk(cfg, WithWorker(w, i, pc), receivers)
  {
  }

  lemma FlushKeepsShards(cfg: Config, w: World, i: nat, t: Table, outcome: FlushOutcome, receivers: nat)
    requires ShardsOk(cfg, w, receivers) && i < |w.workers| && w.workers[i].pc.Flushing?
    ensures ShardsOk(cfg, FlushOne(cfg, w, i, t, outcome), receivers)
  {
    var b := Pending(w.workers[i], t, WorkerShard(w, i));
    if b.rows == [] {
      SameBatchesKeepShards(cfg, w, i, w.workers[i].pc.(tables := w.workers[i].pc.tables - {t}), receivers);
    } else {
      EmptyingKeepsShards(cfg, w, i, t, receivers);
      match outcome {
        case Enqueued => EnqueueKeepsShards(cfg, Emptied(w, i, t), b, w.panicked || w.queueClosed, receivers);
        case Refused(spools) => EndKeepsShards(cfg, Emptied(w, i, t), receivers, b, SpoolKind(spools));
      }
    }
  }

  lemma WorkerKeepsShards(cfg: Config, w: World, i: nat, s: WorkerStep, receivers: nat)
    requires ShardsOk(cfg, w, receivers) && WorkerMay(cfg, w, i, s)
    ensures ShardsOk(cfg, WorkerDoes(cfg, w, i, s), receivers)
  {
    if s.Flush? {
      FlushKeepsShards(cfg, w, i, s.table, s.outcome, receivers);
    }
  }

  lemma InserterKeepsShards(cfg: Config, w: World, i: nat, s: InserterStep, receivers: nat)
    requires ShardsOk(cfg, w, receivers) && InserterMay(cfg, w, i, s)
    ensures ShardsOk(cfg, InserterDoes(cfg, w, i, s), receivers)
  {
    match s
    case TakeBatch =>
    case Attempt(ok) =>
      if ok {
        EndKeepsShards(cfg, WithInserter(w, i, Waiting), receivers, w.inserters[i].batch, Kind.Inserted);
      }
    case GiveUp(spools) =>
      if cfg.maxRetries > 0 {
        EndKeepsShards(cfg, WithInserter(w, i, Waiting), receivers, w.inserters[i].batch, SpoolKind(spools));
      }
    case LeaveQueue =>
  }

  lemma ReceiverKeepsShards(cfg: Config, w: World, r: nat, s: ReceiverStep, receivers: nat)
    requires ShardsOk(cfg, w, receivers) && ReceiverMay(cfg, w, r, s)
    ensures ShardsOk(cfg, ReceiverDoes(w, r, s), receivers)
  {
  }

  lemma MainKeepsShards(cfg: Config, w: World, s: MainStep, receivers: nat)
    requires ShardsOk(cfg, w, receivers) && MainMay(cfg, w, s)
    ensures ShardsOk(cfg, MainDoes(w, s), receivers)
  {
    match s
    case SpawnWorker =>
    case SpawnInserter =>
    case _ => MainIsSilent(w, s);
  }

  lemma StepKeepsShards(cfg: Config, w: World, step: Step, receivers: nat)
    requires ShardsOk(cfg, w, receivers) && Enabled(cfg, w, step)
    ensures ShardsOk(cfg, Do(cfg, w, step), receivers)
  {
    match step
    case ByReceiver(r, s) => ReceiverKeepsShards(cfg, w, r, s, receivers);
    case ByWorker(i, s) => WorkerKeepsShards(cfg, w, i, s, receivers);
    case ByInserter(i, s) => InserterKeepsShards(cfg, w, i, s, receivers);
    case ByMain(s) => MainKeepsShards(cfg, w, s, receivers);
  }

  /** The tracker is built with one shard more than the receivers and the most workers, so every record of
      every run goes to a shard of it. */
  lemma {:induction false} ShardsStayInRange(cfg: Config, ws: seq<World>, steps: seq<Step>, k: nat)
    requires IsRun(cfg, ws, steps) && k <= |steps|
    ensures ShardsOk(cfg, ws[k], |ws[0].receivers|)
  {
    if k > 0 {
      ShardsStayInRange(cfg, ws, steps, k - 1);
      StepKeepsShards(cfg, ws[k - 1], steps[k - 1], |ws[0].receivers|);
    }
  }

  /** Whoever records: receivers are numbered from 1, and workers above them. */
  predicate Records(w: World, shardId: nat) {
    1 <= shardId <= |w.receivers| || exists i: nat :: i < |w.workers| && shardId == WorkerShard(w, i)
  }

  /** In every run each receiver and each worker, also the spawned ones, has a shard of the tracker to itself. */
  lemma ShardsNeverAlias(cfg: Config, ws: seq<World>, steps: seq<Step>, k: nat, a: nat, b: nat)
    requires IsRun(cfg, ws, steps) && k <= |steps| && Records(ws[k], a) && Records(ws[k], b)
    ensures var shards := |ws[0].receivers| + cfg.maxWorkers + 1;
      && ShardOf(a, shards) == a && ShardOf(b, shards) == b
      && (ShardOf(a, shards) == ShardOf(b, shards) <==> a == b)
  {
    ShardsStayInRange(cfg, ws, steps, k);
  }

  /** Workers are told apart by their numbers, which are above those of the receivers. */
  lemma WorkersAreNumbered(w: World, i: nat, j: nat)
    requires i < |w.workers| && j < |w.workers|
    ensures |w.receivers| < WorkerShard(w, i) && (WorkerShard(w, i) == WorkerShard(w, j) <==> i == j)
  {
  }

  /** A scaling step is that many spawns, each of them enabled. */
  lemma {:induction false} ScalingSpawns(cfg: Config, w: World, count: nat) returns (trace: seq<World>)
    requires w.tuning && |w.workers| + count <= cfg.maxWorkers
    ensures |trace| == count + 1 && trace[0] == w && |trace[count].workers| == |w.workers| + count
    ensures forall k :: 0 <= k < count ==>
      MainMay(cfg, trace[k], SpawnWorker) && trace[k + 1] == MainDoes(trace[k], SpawnWorker)
    ensures trace[count].tuning
  {
    trace := [w];
    if count > 0 {
      var before := ScalingSpawns(cfg, w, count - 1);
      trace := before + [MainDoes(before[count - 1], SpawnWorker)];
    }
  }

  /** What the supervisor decides to add, it may add. */
  lemma SupervisorMayScale(cfg: Config, w: World, critical: bool) returns (trace: seq<World>)
    requires w.tuning && |w.workers| <= cfg.maxWorkers
    ensures var count := ScaleStep(|w.workers|, cfg.maxWorkers, critical);
      && |trace| == count + 1 && trace[0] == w && |trace[count].workers| == |w.workers| + count <= cfg.maxWorkers
      && forall k :: 0 <= k < count ==>
           MainMay(cfg, trace[k], SpawnWorker) && trace[k + 1] == MainDoes(trace[k], SpawnWorker)
  {
    trace := ScalingSpawns(cfg, w, ScaleStep(|w.workers|, cfg.maxWorkers, critical));
  }

  // ---- The evaluator's delayed window ----

  lemma DelayedWindowIsExact(
      cfg: Config, limits: Limits, ws: seq<World>, steps: seq<Step>, k: nat, clocks: seq<int>, kind: Kind)
    requires IsRun(cfg, ws, steps) && k <= |steps|
    requires limits.window > 0 && limits.sla > 0 && cfg.retention == AlertCohortRetention(limits.window, limits.sla)
    requires WellTimed(ws[k].events, clocks, cfg.retention)
    requires forall i :: 0 <= i < |clocks| ==> clocks[i] <= ws[k].clock
    ensures var h, end := ws[k].events, ws[k].clock - limits.sla - 1;
      LiveWindow(h, cfg.retention, |ws[0].receivers| + cfg.maxWorkers + 1, end - limits.window + 1, end, kind)
      == Window(h, end - limits.window + 1, end, kind)
  {
    ShardsStayInRange(cfg, ws, steps, k);
    EvaluatorWindowsAreExact(ws[k].events, clocks, limits.window, limits.sla,
                             |ws[0].receivers| + cfg.maxWorkers + 1, ws[k].clock, kind);
  }

  /** The true numerators: packets of a window not parsed and rows of it not acknowledged. */
  lemma TrueNumerators(cfg: Config, ws: seq<World>, steps: seq<Step>, k: nat, lo: int, hi: int)
    requires cfg.maxRetries >= 1 && IsRun(cfg, ws, steps) && k <= |steps| && lo > ws[k].clock - cfg.retention
    ensures var h := ws[k].events;
      && SaturatingDifference(Window(h, lo, hi, Received), Window(h, lo, hi, Kind.Parsed))
         == Window(h, lo, hi, ParseFailed) + Unparsed(ws[k], lo, hi)
      && SaturatingDifference(Window(h, lo, hi, Expected), Window(h, lo, hi, Kind.Inserted))
         == Window(h, lo, hi, Kind.Spooled) + Window(h, lo, hi, Kind.SpoolFailed) + Unsettled(ws[k], lo, hi)
  {
    CohortsBalance(cfg, ws, steps, k, lo, hi);
  }

  /** While records reach the tracker within the ring of a monotone clock, the numerators the evaluator
      computes from the ring are exactly the packets of the window not parsed and the rows of the window not
      acknowledged: the saturating differences never saturate. */
  lemma SlaNumeratorsAreExact(cfg: Config, limits: Limits, ws: seq<World>, steps: seq<Step>, k: nat, clocks: seq<int>)
    requires cfg.maxRetries >= 1 && IsRun(cfg, ws, steps) && k <= |steps|
    requires limits.window > 0 && limits.sla > 0 && cfg.retention == AlertCohortRetention(limits.window, limits.sla)
    requires WellTimed(ws[k].events, clocks, cfg.retention)
    requires forall i :: 0 <= i < |clocks| ==> clocks[i] <= ws[k].clock
    ensures var h, size, shards := ws[k].events, cfg.retention, |ws[0].receivers| + cfg.maxWorkers + 1;
      var hi := ws[k].clock - limits.sla - 1;
      var lo := hi - limits.window + 1;
      && SaturatingDifference(LiveWindow(h, size, shards, lo, hi, Received), LiveWindow(h, size, shards, lo, hi, Kind.Parsed))
         == Window(h, lo, hi, ParseFailed) + Unparsed(ws[k], lo, hi)
      && SaturatingDifference(LiveWindow(h, size, shards, lo, hi, Expected), LiveWindow(h, size, shards, lo, hi, Kind.Inserted))
         == Window(h, lo, hi, Kind.Spooled) + Window(h, lo, hi, Kind.SpoolFailed) + Unsettled(ws[k], lo, hi)
  {
    DelayedWindowIsExact(cfg, limits, ws, steps, k, clocks, Received);
    DelayedWindowIsExact(cfg, limits, ws, steps, k, clocks, Kind.Parsed);
    DelayedWindowIsExact(cfg, limits, ws, steps, k, clocks, Expected);
    DelayedWindowIsExact(cfg, limits, ws, steps, k, clocks, Kind.Inserted);
    var hi := ws[k].clock - limits.sla - 1;
    TrueNumerators(cfg, ws, steps, k, hi - limits.window + 1, hi);
  }
}
