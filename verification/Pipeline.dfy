/** The ingest pipeline as a step system (main.go): receivers, packet channel, packet workers, batch
    queue, insert workers, auto-tuning and the shutdown order, in every interleaving. */
module Pipeline {
  import opened Options
  import opened Cohorts
  import opened CohortTrackers
  import opened Records
  import opened PacketWorkers

  datatype Config = Config(base: string, daily: bool, packetCapacity: nat, batchCapacity: nat, batchRows: nat,
                           batchBytes: nat, maxRetries: nat, maxWorkers: nat, dropsOnOverload: bool, retention: nat)

  /** A parsed entry with the second its packet was received. */
  type Row = Logged

  /** What a packet parses to is decided when it is received; None is a parse error. */
  datatype Packet = Packet(second: int, rows: Option<seq<Row>>)

  predicate InWindow(r: Row, lo: int, hi: int) {
    lo <= r.second <= hi
  }

  function RowsWhere(rows: seq<Row>, p: Row -> bool): nat {
    if rows == [] then 0 else RowsWhere(rows[..|rows| - 1], p) + if p(rows[|rows| - 1]) then 1 else 0
  }

  function Within(lo: int, hi: int): Row -> bool {
    (r: Row) => InWindow(r, lo, hi)
  }

  datatype RawBatch = RawBatch(table: Table, rows: seq<Row>, cohorts: seq<InsertCohort>, shard: nat)

  /** The cohorts of a batch count its rows, for any window; `addInsertCohort` keeps this. */
  ghost predicate CohortsMatch(rows: seq<Row>, cohorts: seq<InsertCohort>) {
    forall lo, hi :: CohortRows(cohorts, lo, hi) == RowsWhere(rows, Within(lo, hi))
  }

  type Batch = b: RawBatch | CohortsMatch(b.rows, b.cohorts)
    ghost witness RawBatch(Table("", None), [], [], 0)

  datatype Receiver = Reading | Sending(packet: Packet) | Stopped

  datatype After = Select | Continue(rest: seq<Row>) | Exit

  datatype WorkerPc = Selecting | Adding(rest: seq<Row>) | Flushing(tables: set<Table>, after: After) | Exited

  datatype Worker = Worker(pc: WorkerPc, pending: map<Table, Batch>)

  datatype Inserter = Waiting | Holding(batch: Batch, attempts: nat) | Gone

  datatype Phase = Running | DrainingPackets | DrainingBatches | Done

  /** The last fields are histories: every row counted as parsed, where batches ended, packets abandoned
      at shutdown, every call of the cohort tracker, and whether a closed channel was ever sent to. */
  datatype World = World(
    clock: int, stop: bool, tuning: bool, phase: Phase,
    receivers: seq<Receiver>, packets: seq<Packet>, packetsClosed: bool,
    workers: seq<Worker>, queue: seq<Batch>, queueClosed: bool, inserters: seq<Inserter>,
    parsed: seq<Row>, inserted: seq<Batch>, spooled: seq<Batch>, spoolFailed: seq<Batch>,
    abandoned: seq<Packet>, events: seq<Event>, panicked: bool)

  datatype FlushOutcome = Enqueued | Refused(spools: bool)

  datatype ReceiverStep = Read(packet: Packet) | Send | Abandon | StopReading

  datatype WorkerStep =
    | Take
    | Add(cohorts: seq<InsertCohort>)
    | FinishPacket
    | TickFlush
    | SeeClosed
    | Flush(table: Table, outcome: FlushOutcome)
    | FinishFlush

  datatype InserterStep = TakeBatch | Attempt(ok: bool) | GiveUp(spools: bool) | LeaveQueue

  datatype MainStep =
    | Tick(seconds: nat)
    | RequestStop
    | SpawnWorker
    | SpawnInserter
    | StopTuning
    | ClosePackets
    | CloseQueue
    | Finish

  datatype Step =
    | ByReceiver(r: nat, receiverStep: ReceiverStep)
    | ByWorker(i: nat, workerStep: WorkerStep)
    | ByInserter(i: nat, inserterStep: InserterStep)
    | ByMain(mainStep: MainStep)

  function RowTable(cfg: Config, r: Row): Table {
    DailyTable(cfg.base, cfg.daily, r.entry.eventTime)
  }

  ghost function Pending(w: Worker, t: Table, shard: nat): Batch {
    if t in w.pending then w.pending[t] else RawBatch(t, [], [], shard)
  }

  /** The shard of worker `i`, above those of the receivers. */
  function WorkerShard(w: World, i: nat): nat {
    |w.receivers| + i + 1
  }

  /** How many workers the supervisor adds; adding them never passes the configured maximum. */
  function ScaleStep(current: nat, max: nat, critical: bool): (step: nat)
    ensures current <= max ==> current + step <= max
    ensures step > 0 <==> current < max
    ensures critical && 0 < current && 2 * current <= max ==> current + step == 2 * current
    ensures !critical && 2 <= current && current + current / 2 <= max ==> 2 * step <= current < 2 * step + 2
    ensures current < 2 && current < max ==> step == 1
    ensures current < max && (if critical then 2 * current > max else current + current / 2 > max) ==> current + step == max
  {
    if current >= max then 0
    else
      var wanted := if critical then current else current / 2;
      var atLeastOne := if wanted < 1 then 1 else wanted;
      if atLeastOne > max - current then max - current else atLeastOne
  }

  ghost function Init(receivers: nat, workers: nat, inserters: nat): World {
    World(0, false, true, Running, seq(receivers, _ => Reading), [], false,
          seq(workers, _ => NewWorker), [], false, seq(inserters, _ => Waiting),
          [], [], [], [], [], [], false)
  }

  // ---- Receivers ----

  predicate ReceiverMay(cfg: Config, w: World, r: nat, s: ReceiverStep) {
    && r < |w.receivers|
    && match s
       case Read(p) =>
         && w.receivers[r].Reading? && p.second <= w.clock
         && (p.rows.Some? ==> forall k :: 0 <= k < |p.rows.value| ==> p.rows.value[k].second == p.second)
       case Send => w.receivers[r].Sending? && |w.packets| < cfg.packetCapacity
       case Abandon => w.receivers[r].Sending? && w.stop
       case StopReading => w.receivers[r].Reading? && w.stop
  }

  ghost function ReceiverDoes(w: World, r: nat, s: ReceiverStep): World
    requires r < |w.receivers| && (s.Send? || s.Abandon? ==> w.receivers[r].Sending?)
  {
    match s
    case Read(p) =>
      w.(receivers := w.receivers[r := Sending(p)], events := w.events + [Event(r + 1, p.second, Received, 1)])
    case Send =>
      w.(receivers := w.receivers[r := Reading], packets := w.packets + [w.receivers[r].packet],
         panicked := w.panicked || w.packetsClosed)
    case Abandon => w.(receivers := w.receivers[r := Stopped], abandoned := w.abandoned + [w.receivers[r].packet])
    case StopReading => w.(receivers := w.receivers[r := Stopped])
  }

  // ---- Packet workers ----

  ghost predicate WorkerMay(cfg: Config, w: World, i: nat, s: WorkerStep) {
    && i < |w.workers|
    && var x := w.workers[i];
       match s
       case Take => x.pc.Selecting? && w.packets != []
       case Add(cohorts) =>
         && x.pc.Adding? && x.pc.rest != []
         && CohortsMatch(Pending(x, RowTable(cfg, x.pc.rest[0]), WorkerShard(w, i)).rows + [x.pc.rest[0]], cohorts)
       case FinishPacket => x.pc == Adding([])
       case TickFlush => x.pc.Selecting?
       case SeeClosed => x.pc.Selecting? && w.packets == [] && w.packetsClosed
       case Flush(t, outcome) =>
         && x.pc.Flushing? && t in x.pc.tables
         && (if outcome.Enqueued? then |w.queue| < cfg.batchCapacity else cfg.dropsOnOverload)
       case FinishFlush => x.pc.Flushing? && x.pc.tables == {}
  }

  ghost function WithWorker(w: World, i: nat, pc: WorkerPc): World
    requires i < |w.workers|
  {
    w.(workers := w.workers[i := w.workers[i].(pc := pc)])
  }

  function TakeEvents(shard: nat, p: Packet): seq<Event> {
    if p.rows.None? then [Event(shard, p.second, ParseFailed, 1)]
    else [Event(shard, p.second, Kind.Parsed, 1), Event(shard, p.second, Expected, |p.rows.value|)]
  }

  ghost function TakePacket(w: World, i: nat): World
    requires i < |w.workers| && w.packets != []
  {
    var p := w.packets[0];
    var x := if p.rows.None? then w.workers[i] else w.workers[i].(pc := Adding(p.rows.value));
    w.(packets := w.packets[1..], workers := w.workers[i := x], events := w.events + TakeEvents(WorkerShard(w, i), p))
  }

  /** Adding the next row to its table's batch; at the limit the table is flushed before going on. */
  ghost function AddRow(cfg: Config, w: World, i: nat, cohorts: seq<InsertCohort>): World
    requires WorkerMay(cfg, w, i, Add(cohorts))
  {
    var x := w.workers[i];
    var row, rest := x.pc.rest[0], x.pc.rest[1..];
    var t := RowTable(cfg, row);
    var batch: Batch := RawBatch(t, Pending(x, t, WorkerShard(w, i)).rows + [row], cohorts, WorkerShard(w, i));
    var pc := if |batch.rows| >= cfg.batchRows || ROW_BYTES * |batch.rows| >= cfg.batchBytes
              then Flushing({t}, Continue(rest)) else Adding(rest);
    w.(workers := w.workers[i := Worker(pc, x.pending[t := batch])], parsed := w.parsed + [row])
  }

  function SpoolKind(spools: bool): (kind: Kind)
    ensures kind.Spooled? <==> spools
    ensures kind.SpoolFailed? <==> !spools
  {
    if spools then Kind.Spooled else Kind.SpoolFailed
  }

  /** Records where a batch ended, in the histories and in the cohort tracker. */
  ghost function EndBatch(cfg: Config, w: World, batch: Batch, kind: Kind): World {
    w.(events := w.events + CohortEvents(batch.cohorts, batch.shard, kind, w.clock, cfg.retention),
       inserted := if kind.Inserted? then w.inserted + [batch] else w.inserted,
       spooled := if kind.Spooled? then w.spooled + [batch] else w.spooled,
       spoolFailed := if kind.SpoolFailed? then w.spoolFailed + [batch] else w.spoolFailed)
  }

  ghost function Emptied(w: World, i: nat, t: Table): World
    requires i < |w.workers| && w.workers[i].pc.Flushing?
  {
    var x := w.workers[i];
    var pc := x.pc.(tables := x.pc.tables - {t});
    w.(workers := w.workers[i := Worker(pc, x.pending[t := RawBatch(t, [], [], WorkerShard(w, i))])])
  }

  /** Flushing one table: an empty batch is left alone, and a refused one goes to the failed spool. */
  ghost function FlushOne(cfg: Config, w: World, i: nat, t: Table, outcome: FlushOutcome): World
    requires i < |w.workers| && w.workers[i].pc.Flushing?
  {
    var x := w.workers[i];
    var batch := Pending(x, t, WorkerShard(w, i));
    if batch.rows == [] then WithWorker(w, i, x.pc.(tables := x.pc.tables - {t}))
    else
      match outcome
      case Enqueued => Emptied(w, i, t).(queue := w.queue + [batch], panicked := w.panicked || w.queueClosed)
      case Refused(spools) => EndBatch(cfg, Emptied(w, i, t), batch, SpoolKind(spools))
  }

  function AfterFlush(after: After): WorkerPc {
    match after
    case Select => Selecting
    case Continue(rest) => Adding(rest)
    case Exit => Exited
  }

  ghost function WorkerDoes(cfg: Config, w: World, i: nat, s: WorkerStep): World
    requires WorkerMay(cfg, w, i, s)
  {
    match s
    case Take => TakePacket(w, i)
    case Add(cohorts) => AddRow(cfg, w, i, cohorts)
    case FinishPacket => WithWorker(w, i, Selecting)
    case TickFlush => WithWorker(w, i, Flushing(w.workers[i].pending.Keys, Select))
    case SeeClosed => WithWorker(w, i, Flushing(w.workers[i].pending.Keys, Exit))
    case Flush(t, outcome) => FlushOne(cfg, w, i, t, outcome)
    case FinishFlush => WithWorker(w, i, AfterFlush(w.workers[i].pc.after))
  }

  // ---- Insert workers ----

  predicate InserterMay(cfg: Config, w: World, i: nat, s: InserterStep) {
    && i < |w.inserters|
    && match s
       case TakeBatch => w.inserters[i].Waiting? && w.queue != []
       case Attempt(_) => w.inserters[i].Holding? && w.inserters[i].attempts < cfg.maxRetries
       case GiveUp(_) => w.inserters[i].Holding? && w.inserters[i].attempts >= cfg.maxRetries
       case LeaveQueue => w.inserters[i].Waiting? && w.queue == [] && w.queueClosed
  }

  ghost function WithInserter(w: World, i: nat, x: Inserter): World
    requires i < |w.inserters|
  {
    w.(inserters := w.inserters[i := x])
  }

  ghost function InserterDoes(cfg: Config, w: World, i: nat, s: InserterStep): World
    requires InserterMay(cfg, w, i, s)
  {
    match s
    case TakeBatch => WithInserter(w, i, Holding(w.queue[0], 0)).(queue := w.queue[1..])
    case Attempt(ok) =>
      var held := w.inserters[i];
      if ok then EndBatch(cfg, WithInserter(w, i, Waiting), held.batch, Kind.Inserted)
      else WithInserter(w, i, held.(attempts := held.attempts + 1))
    case GiveUp(spools) =>
      // With no attempt allowed there is no error to act on, and the batch is simply dropped.
      var released := WithInserter(w, i, Waiting);
      if cfg.maxRetries == 0 then released else EndBatch(cfg, released, w.inserters[i].batch, SpoolKind(spools))
    case LeaveQueue => WithInserter(w, i, Gone)
  }

  // ---- Clock, supervisor and the shutdown order of `main` ----

  predicate MainMay(cfg: Config, w: World, s: MainStep) {
    match s
    case Tick(_) => true
    case RequestStop => true
    case SpawnWorker => w.tuning && |w.workers| < cfg.maxWorkers
    case SpawnInserter => w.tuning
    case StopTuning => w.tuning && w.stop
    case ClosePackets => w.phase.Running? && !w.tuning && forall r :: 0 <= r < |w.receivers| ==> w.receivers[r].Stopped?
    case CloseQueue => w.phase.DrainingPackets? && forall i :: 0 <= i < |w.workers| ==> w.workers[i].pc.Exited?
    case Finish => w.phase.DrainingBatches? && forall i :: 0 <= i < |w.inserters| ==> w.inserters[i].Gone?
  }

  const NewWorker: Worker := Worker(Selecting, map[])

  ghost function MainDoes(w: World, s: MainStep): World {
    match s
    case Tick(seconds) => w.(clock := w.clock + seconds)
    case RequestStop => w.(stop := true)
    case SpawnWorker => w.(workers := w.workers + [NewWorker])
    case SpawnInserter => w.(inserters := w.inserters + [Waiting])
    case StopTuning => w.(tuning := false)
    case ClosePackets => w.(packetsClosed := true, phase := DrainingPackets)
    case CloseQueue => w.(queueClosed := true, phase := DrainingBatches)
    case Finish => w.(phase := Done)
  }

  // ---- Runs ----

  ghost predicate Enabled(cfg: Config, w: World, step: Step) {
    match step
    case ByReceiver(r, s) => ReceiverMay(cfg, w, r, s)
    case ByWorker(i, s) => WorkerMay(cfg, w, i, s)
    case ByInserter(i, s) => InserterMay(cfg, w, i, s)
    case ByMain(s) => MainMay(cfg, w, s)
  }

  ghost function Do(cfg: Config, w: World, step: Step): World
    requires Enabled(cfg, w, step)
  {
    match step
    case ByReceiver(r, s) => ReceiverDoes(w, r, s)
    case ByWorker(i, s) => WorkerDoes(cfg, w, i, s)
    case ByInserter(i, s) => InserterDoes(cfg, w, i, s)
    case ByMain(s) => MainDoes(w, s)
  }

  ghost predicate IsRun(cfg: Config, ws: seq<World>, steps: seq<Step>) {
    && |ws| == |steps| + 1
    && (exists r, p, i: nat :: 1 <= p <= cfg.maxWorkers && i >= 1 && ws[0] == Init(r, p, i))
    && forall k :: 0 <= k < |steps| ==> Enabled(cfg, ws[k], steps[k]) && ws[k + 1] == Do(cfg, ws[k], steps[k])
  }
}
