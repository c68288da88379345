/** What the cohort tracker was told about a window agrees with where the packets and rows of that window
    are, over every interleaving of the pipeline. */
module PipelineCohorts {
  import opened Options
  import opened Cohorts
  import opened CohortTrackers
  import opened PacketWorkers
  import opened Sums
  import opened Pipeline
  import opened PipelineProofs

  // ---- Nothing is newer than the clock ----

  predicate RowsUpTo(rows: seq<Row>, now: int) {
    forall i :: 0 <= i < |rows| ==> rows[i].second <= now
  }

  predicate RowsAt(rows: seq<Row>, second: int) {
    forall i :: 0 <= i < |rows| ==> rows[i].second == second
  }

  predicate PacketUpTo(p: Packet, now: int) {
    p.second <= now && (p.rows.Some? ==> RowsAt(p.rows.value, p.second))
  }

  /** Rows of the packet a worker is busy with that are not yet in a batch. */
  function Unadded(x: Worker): seq<Row> {
    match x.pc
    case Adding(rest) => rest
    case Flushing(_, Continue(rest)) => rest
    case _ => []
  }

  predicate ReceiversUpTo(receivers: seq<Receiver>, now: int) {
    forall r :: 0 <= r < |receivers| && receivers[r].Sending? ==> PacketUpTo(receivers[r].packet, now)
  }

  predicate PacketsUpTo(packets: seq<Packet>, now: int) {
    forall k :: 0 <= k < |packets| ==> PacketUpTo(packets[k], now)
  }

  predicate WorkersUpTo(workers: seq<Worker>, now: int) {
    forall i :: 0 <= i < |workers| ==> RowsUpTo(Unadded(workers[i]), now)
  }

  predicate TimesOk(w: World) {
    && RowsUpTo(w.parsed, w.clock)
    && ReceiversUpTo(w.receivers, w.clock)
    && PacketsUpTo(w.packets, w.clock)
    && WorkersUpTo(w.workers, w.clock)
  }

  /** What a worker's step does to the rows of packets. */
  ghost predicate MovesRows(w: World, i: nat, s: WorkerStep, w': World) {
    && i < |w.workers| && |w'.workers| == |w.workers| && w'.workers == w.workers[i := w'.workers[i]]
    && w'.receivers == w.receivers && w'.abandoned == w.abandoned && w'.clock == w.clock
    && var before, after := Unadded(w.workers[i]), Unadded(w'.workers[i]);
       if s.Take? then
         && w.packets != [] && w'.packets == w.packets[1..] && before == [] && w'.parsed == w.parsed
         && after == if w.packets[0].rows.Some? then w.packets[0].rows.value else []
       else if s.Add? then
         w'.packets == w.packets && before != [] && after == before[1..] && w'.parsed == w.parsed + [before[0]]
       else
         w'.packets == w.packets && after == before && w'.parsed == w.parsed
  }

  lemma TakeMovesRows(w: World, i: nat)
    requires i < |w.workers| && w.workers[i].pc.Selecting? && w.packets != []
    ensures MovesRows(w, i, Take, TakePacket(w, i))
  {
    var p := w.packets[0];
    assert TakePacket(w, i).workers[i] == if p.rows.None? then w.workers[i] else w.workers[i].(pc := Adding(p.rows.value));
  }

  lemma FlushMovesRows(cfg: Config, w: World, i: nat, t: Table, outcome: FlushOutcome)
    requires i < |w.workers| && w.workers[i].pc.Flushing?
    ensures MovesRows(w, i, Flush(t, outcome), FlushOne(cfg, w, i, t, outcome))
  {
    if Pending(w.workers[i], t, WorkerShard(w, i)).rows == [] {
      assert MovesRows(w, i, Flush(t, outcome), WithWorker(w, i, w.workers[i].pc.(tables := w.workers[i].pc.tables - {t})));
    } else {
      assert MovesRows(w, i, Flush(t, outcome), Emptied(w, i, t));
    }
  }

  lemma WorkerMovesRows(cfg: Config, w: World, i: nat, s: WorkerStep)
    requires WorkerMay(cfg, w, i, s)
    ensures MovesRows(w, i, s, WorkerDoes(cfg, w, i, s))
  {
    match s
    case Take => TakeMovesRows(w, i);
    case Add(_) =>
    case FinishPacket =>
    case TickFlush =>
    case SeeClosed =>
    case Flush(t, outcome) => FlushMovesRows(cfg, w, i, t, outcome);
    case FinishFlush =>
  }

  predicate SameFlow(w: World, w': World) {
    && w'.clock == w.clock && w'.workers == w.workers && w'.receivers == w.receivers
    && w'.packets == w.packets && w'.abandoned == w.abandoned && w'.parsed == w.parsed
  }

  lemma EndKeepsFlow(cfg: Config, w: World, i: nat, b: Batch, kind: Kind)
    requires i < |w.inserters|
    ensures SameFlow(w, EndBatch(cfg, WithInserter(w, i, Waiting), b, kind))
  {
  }

  lemma InserterKeepsFlow(cfg: Config, w: World, i: nat, s: InserterStep)
    requires InserterMay(cfg, w, i, s)
    ensures SameFlow(w, InserterDoes(cfg, w, i, s))
  {
    match s
    case TakeBatch =>
    case Attempt(ok) =>
      if ok {
        EndKeepsFlow(cfg, w, i, w.inserters[i].batch, Kind.Inserted);
      }
    case GiveUp(spools) =>
      if cfg.maxRetries > 0 {
        EndKeepsFlow(cfg, w, i, w.inserters[i].batch, SpoolKind(spools));
      }
    case LeaveQueue =>
  }

  lemma WorkerKeepsTimes(w: World, i: nat, s: WorkerStep, w': World)
    requires TimesOk(w) && MovesRows(w, i, s, w')
    ensures TimesOk(w')
  {
    assert RowsUpTo(Unadded(w.workers[i]), w.clock);
    assert s.Take? ==> PacketUpTo(w.packets[0], w.clock);
  }

  lemma ReceiverKeepsTimes(cfg: Config, w: World, r: nat, s: ReceiverStep)
    requires TimesOk(w) && ReceiverMay(cfg, w, r, s)
    ensures TimesOk(ReceiverDoes(w, r, s))
  {
    match s
    case Read(p) => assert PacketUpTo(p, w.clock);
    case Send => assert PacketUpTo(w.receivers[r].packet, w.clock);
    case Abandon =>
    case StopReading =>
  }

  lemma LaterKeepsTimes(w: World, seconds: nat)
    requires TimesOk(w)
    ensures TimesOk(w.(clock := w.clock + seconds))
  {
  }

  lemma MainKeepsTimes(w: World, s: MainStep)
    requires TimesOk(w)
    ensures TimesOk(MainDoes(w, s))
  {
    if s.Tick? {
      LaterKeepsTimes(w, s.seconds);
    } else if s.SpawnWorker? {
      assert Unadded(NewWorker) == [];
    } else {
      assert SameFlow(w, MainDoes(w, s));
    }
  }

  lemma StepKeepsTimes(cfg: Config, w: World, step: Step)
    requires TimesOk(w) && Enabled(cfg, w, step)
    ensures TimesOk(Do(cfg, w, step))
  {
    match step
    case ByReceiver(r, s) => ReceiverKeepsTimes(cfg, w, r, s);
    case ByWorker(i, s) =>
      WorkerMovesRows(cfg, w, i, s);
      WorkerKeepsTimes(w, i, s, WorkerDoes(cfg, w, i, s));
    case ByInserter(i, s) => InserterKeepsFlow(cfg, w, i, s);
    case ByMain(s) => MainKeepsTimes(w, s);
  }

  // ---- What records add to a window ----

  lemma {:induction false} WindowConcat(a: seq<Event>, b: seq<Event>, lo: int, hi: int, kind: Kind)
    ensures Window(a + b, lo, hi, kind) == Window(a, lo, hi, kind) + Window(b, lo, hi, kind)
    decreases |b|
  {
    if b == [] {
      assert a + b == a;
    } else {
      assert (a + b)[..|a + b| - 1] == a + b[..|b| - 1];
      WindowConcat(a, b[..|b| - 1], lo, hi, kind);
    }
  }

  function Counted(e: Event, lo: int, hi: int, kind: Kind): nat {
    if lo <= e.second <= hi && e.kind == kind then e.amount else 0
  }

  lemma TellOne(h: seq<Event>, e: Event, lo: int, hi: int)
    ensures forall k :: Window(h + [e], lo, hi, k) == Window(h, lo, hi, k) + Counted(e, lo, hi, k)
  {
    assert (h + [e])[..|h|] == h;
  }

  lemma TellTwo(h: seq<Event>, d: Event, e: Event, lo: int, hi: int)
    ensures forall k ::
      Window(h + [d, e], lo, hi, k) == Window(h, lo, hi, k) + Counted(d, lo, hi, k) + Counted(e, lo, hi, k)
  {
    assert h + [d, e] == (h + [d]) + [e];
    TellOne(h, d, lo, hi);
    TellOne(h + [d], e, lo, hi);
  }

  lemma TakeTells(h: seq<Event>, shard: nat, p: Packet, lo: int, hi: int)
    ensures var inside, parses, after := lo <= p.second <= hi, p.rows.Some?, h + TakeEvents(shard, p);
      && Window(after, lo, hi, Received) == Window(h, lo, hi, Received)
      && Window(after, lo, hi, Kind.Parsed) == Window(h, lo, hi, Kind.Parsed) + (if inside && parses then 1 else 0)
      && Window(after, lo, hi, ParseFailed) == Window(h, lo, hi, ParseFailed) + (if inside && !parses then 1 else 0)
      && Window(after, lo, hi, Expected) == Window(h, lo, hi, Expected) + (if inside && parses then |p.rows.value| else 0)
      && forall kind | IsEnd(kind) :: Window(after, lo, hi, kind) == Window(h, lo, hi, kind)
  {
    if p.rows.Some? {
      TellTwo(h, Event(shard, p.second, Kind.Parsed, 1), Event(shard, p.second, Expected, |p.rows.value|), lo, hi);
    } else {
      TellOne(h, Event(shard, p.second, ParseFailed, 1), lo, hi);
    }
  }

  function Max(a: int, b: int): int {
    if a < b then b else a
  }

  function Min(a: int, b: int): int {
    if a < b then a else b
  }

  /** A batch's record adds, in any window, its rows of the seconds the guard still admits. */
  lemma {:induction false} BatchRecord(
      cohorts: seq<InsertCohort>, shard: nat, kind: Kind, now: int, size: nat, lo: int, hi: int, k: Kind)
    ensures Window(CohortEvents(cohorts, shard, kind, now, size), lo, hi, k)
         == if k == kind then CohortRows(cohorts, Max(lo, now - size + 1), Min(hi, now + 1)) else 0
  {
    if cohorts != [] {
      var init, c := cohorts[..|cohorts| - 1], cohorts[|cohorts| - 1];
      BatchRecord(init, shard, kind, now, size, lo, hi, k);
      TellOne(CohortEvents(init, shard, kind, now, size), Event(shard, c.second, kind, c.rows), lo, hi);
      assert CohortEvents(init, shard, kind, now, size) + [] == CohortEvents(init, shard, kind, now, size);
    }
  }

  lemma {:induction false} NarrowerWindow(rows: seq<Row>, lo: int, hi: int, lo': int, hi': int)
    requires lo <= lo' && hi' <= hi
    ensures RowsWhere(rows, Within(lo', hi')) <= RowsWhere(rows, Within(lo, hi))
    ensures (forall i :: 0 <= i < |rows| && lo <= rows[i].second <= hi ==> lo' <= rows[i].second <= hi')
        ==> RowsWhere(rows, Within(lo', hi')) == RowsWhere(rows, Within(lo, hi))
  {
    if rows != [] {
      NarrowerWindow(rows[..|rows| - 1], lo, hi, lo', hi');
    }
  }

  /** The guard drops nothing a caller can still ask for: rows are not newer than the clock, and a window
      that starts within the ring has no row the guard calls too old. */
  lemma EndedBatchRecord(b: Batch, kind: Kind, now: int, size: nat, lo: int, hi: int)
    ensures var told := Window(CohortEvents(b.cohorts, b.shard, kind, now, size), lo, hi, kind);
      && told <= RowsWhere(b.rows, Within(lo, hi))
      && (lo > now - size && RowsUpTo(b.rows, now) ==> told == RowsWhere(b.rows, Within(lo, hi)))
  {
    BatchRecord(b.cohorts, b.shard, kind, now, size, lo, hi, kind);
    NarrowerWindow(b.rows, lo, hi, Max(lo, now - size + 1), Min(hi, now + 1));
  }

  // ---- The batch a step ends ----

  datatype Ending = Ending(batch: Batch, kind: Kind)

  predicate IsEnd(kind: Kind) {
    kind.Inserted? || kind.Spooled? || kind.SpoolFailed?
  }

  ghost function EndedByWorker(w: World, i: nat, s: WorkerStep): Option<Ending>
    requires i < |w.workers|
  {
    if s.Flush? && s.outcome.Refused? then
      var b := Pending(w.workers[i], s.table, WorkerShard(w, i));
      if b.rows == [] then None else Some(Ending(b, SpoolKind(s.outcome.spools)))
    else None
  }

  ghost function EndedByInserter(cfg: Config, w: World, i: nat, s: InserterStep): Option<Ending>
    requires InserterMay(cfg, w, i, s)
  {
    match s
    case Attempt(ok) => if ok then Some(Ending(w.inserters[i].batch, Kind.Inserted)) else None
    case GiveUp(spools) => if cfg.maxRetries == 0 then None else Some(Ending(w.inserters[i].batch, SpoolKind(spools)))
    case _ => None
  }

  function Place(w: World, kind: Kind): seq<Batch>
    requires IsEnd(kind)
  {
    if kind.Inserted? then w.inserted else if kind.Spooled? then w.spooled else w.spoolFailed
  }

  predicate SamePlace(w: World, w': World, kind: Kind) {
    IsEnd(kind) ==> Place(w', kind) == Place(w, kind)
  }

  /** An ended batch is added where it ended and recorded in the tracker, and nothing else is. */
  predicate Tells(cfg: Config, w: World, w': World, ended: Option<Ending>) {
    match ended
    case None =>
      && w'.events == w.events
      && SamePlace(w, w', Kind.Inserted) && SamePlace(w, w', Kind.Spooled) && SamePlace(w, w', Kind.SpoolFailed)
    case Some(Ending(b, end)) =>
      && IsEnd(end)
      && w'.events == w.events + CohortEvents(b.cohorts, b.shard, end, w.clock, cfg.retention)
      && Place(w', end) == Place(w, end) + [b]
      && forall kind | kind != end :: SamePlace(w, w', kind)
  }

  lemma RefusalTells(cfg: Config, w: World, i: nat, t: Table, spools: bool)
    requires i < |w.workers| && w.workers[i].pc.Flushing? && Pending(w.workers[i], t, WorkerShard(w, i)).rows != []
    ensures Tells(cfg, w, FlushOne(cfg, w, i, t, Refused(spools)), EndedByWorker(w, i, Flush(t, Refused(spools))))
  {
    var b := Pending(w.workers[i], t, WorkerShard(w, i));
    assert Tells(cfg, w, EndBatch(cfg, Emptied(w, i, t), b, SpoolKind(spools)), Some(Ending(b, SpoolKind(spools))));
  }

  lemma FlushTells(cfg: Config, w: World, i: nat, t: Table, outcome: FlushOutcome)
    requires i < |w.workers| && w.workers[i].pc.Flushing?
    ensures Tells(cfg, w, FlushOne(cfg, w, i, t, outcome), EndedByWorker(w, i, Flush(t, outcome)))
  {
    if outcome.Refused? && Pending(w.workers[i], t, WorkerShard(w, i)).rows != [] {
      RefusalTells(cfg, w, i, t, outcome.spools);
    } else {
      assert EndedByWorker(w, i, Flush(t, outcome)).None?;
    }
  }

  lemma WorkerTells(cfg: Config, w: World, i: nat, s: WorkerStep)
    requires WorkerMay(cfg, w, i, s) && !s.Take?
    ensures Tells(cfg, w, WorkerDoes(cfg, w, i, s), EndedByWorker(w, i, s))
  {
    if s.Flush? {
      FlushTells(cfg, w, i, s.table, s.outcome);
    }
  }

  lemma InserterTells(cfg: Config, w: World, i: nat, s: InserterStep)
    requires InserterMay(cfg, w, i, s)
    ensures Tells(cfg, w, InserterDoes(cfg, w, i, s), EndedByInserter(cfg, w, i, s))
  {
  }

  /** The end of a batch changes no other counter. */
  lemma OthersUntold(cfg: Config, w: World, w': World, ended: Option<Ending>, lo: int, hi: int, k: Kind)
    requires Tells(cfg, w, w', ended) && (ended.Some? ==> ended.value.kind != k)
    ensures Window(w'.events, lo, hi, k) == Window(w.events, lo, hi, k)
  {
    if ended.Some? {
      var b, kind := ended.value.batch, ended.value.kind;
      WindowConcat(w.events, CohortEvents(b.cohorts, b.shard, kind, w.clock, cfg.retention), lo, hi, k);
      BatchRecord(b.cohorts, b.shard, kind, w.clock, cfg.retention, lo, hi, k);
    }
  }

  // ---- Packets ----

  ghost function PacketIn(lo: int, hi: int): Packet -> nat {
    (x: Packet) => if lo <= x.second <= hi then 1 else 0
  }

  ghost function SendingIn(lo: int, hi: int): Receiver -> nat {
    (x: Receiver) => if x.Sending? && lo <= x.packet.second <= hi then 1 else 0
  }

  /** Packets received but neither parsed nor failed: waiting to be sent or taken, or abandoned at shutdown. */
  ghost function Unparsed(w: World, lo: int, hi: int): nat {
    Total(w.receivers, SendingIn(lo, hi)) + Total(w.packets, PacketIn(lo, hi)) + Total(w.abandoned, PacketIn(lo, hi))
  }

  ghost predicate PacketsBalance(w: World, lo: int, hi: int) {
    Window(w.events, lo, hi, Received)
    == Window(w.events, lo, hi, Kind.Parsed) + Window(w.events, lo, hi, ParseFailed) + Unparsed(w, lo, hi)
  }

  lemma ReadBalances(w: World, r: nat, p: Packet, lo: int, hi: int)
    requires PacketsBalance(w, lo, hi) && r < |w.receivers| && !w.receivers[r].Sending?
    ensures PacketsBalance(ReceiverDoes(w, r, Read(p)), lo, hi)
  {
    TotalUpdate(w.receivers, r, Sending(p), SendingIn(lo, hi));
    TellOne(w.events, Event(r + 1, p.second, Received, 1), lo, hi);
  }

  lemma SendBalances(w: World, r: nat, lo: int, hi: int)
    requires PacketsBalance(w, lo, hi) && r < |w.receivers| && w.receivers[r].Sending?
    ensures PacketsBalance(ReceiverDoes(w, r, Send), lo, hi)
  {
    TotalUpdate(w.receivers, r, Reading, SendingIn(lo, hi));
    TotalAppend(w.packets, w.receivers[r].packet, PacketIn(lo, hi));
  }

  lemma AbandonBalances(w: World, r: nat, lo: int, hi: int)
    requires PacketsBalance(w, lo, hi) && r < |w.receivers| && w.receivers[r].Sending?
    ensures PacketsBalance(ReceiverDoes(w, r, Abandon), lo, hi)
  {
    TotalUpdate(w.receivers, r, Stopped, SendingIn(lo, hi));
    TotalAppend(w.abandoned, w.receivers[r].packet, PacketIn(lo, hi));
  }

  lemma ReceiverBalances(cfg: Config, w: World, r: nat, s: ReceiverStep, lo: int, hi: int)
    requires PacketsBalance(w, lo, hi) && ReceiverMay(cfg, w, r, s)
    ensures PacketsBalance(ReceiverDoes(w, r, s), lo, hi)
  {
    match s
    case Read(p) => ReadBalances(w, r, p, lo, hi);
    case Send => SendBalances(w, r, lo, hi);
    case Abandon => AbandonBalances(w, r, lo, hi);
    case StopReading => TotalUpdate(w.receivers, r, Stopped, SendingIn(lo, hi));
  }

  lemma TakeBalances(w: World, i: nat, lo: int, hi: int)
    requires PacketsBalance(w, lo, hi) && i < |w.workers| && w.packets != []
    ensures PacketsBalance(TakePacket(w, i), lo, hi)
  {
    TotalTail(w.packets, PacketIn(lo, hi));
    TakeTells(w.events, WorkerShard(w, i), w.packets[0], lo, hi);
  }

  lemma EndBalances(cfg: Config, w: World, w': World, ended: Option<Ending>, lo: int, hi: int)
    requires PacketsBalance(w, lo, hi) && Tells(cfg, w, w', ended)
    requires w'.receivers == w.receivers && w'.packets == w.packets && w'.abandoned == w.abandoned
    ensures PacketsBalance(w', lo, hi)
  {
    OthersUntold(cfg, w, w', ended, lo, hi, Received);
    OthersUntold(cfg, w, w', ended, lo, hi, Kind.Parsed);
    OthersUntold(cfg, w, w', ended, lo, hi, ParseFailed);
  }

  lemma WorkerBalances(cfg: Config, w: World, i: nat, s: WorkerStep, lo: int, hi: int)
    requires PacketsBalance(w, lo, hi) && WorkerMay(cfg, w, i, s)
    ensures PacketsBalance(WorkerDoes(cfg, w, i, s), lo, hi)
  {
    if s.Take? {
      TakeBalances(w, i, lo, hi);
    } else {
      WorkerTells(cfg, w, i, s);
      WorkerMovesRows(cfg, w, i, s);
      EndBalances(cfg, w, WorkerDoes(cfg, w, i, s), EndedByWorker(w, i, s), lo, hi);
    }
  }

  lemma InserterBalances(cfg: Config, w: World, i: nat, s: InserterStep, lo: int, hi: int)
    requires PacketsBalance(w, lo, hi) && InserterMay(cfg, w, i, s)
    ensures PacketsBalance(InserterDoes(cfg, w, i, s), lo, hi)
  {
    InserterTells(cfg, w, i, s);
    InserterKeepsFlow(cfg, w, i, s);
    EndBalances(cfg, w, InserterDoes(cfg, w, i, s), EndedByInserter(cfg, w, i, s), lo, hi);
  }

  /** Starting, stopping and the passing of time record nothing and move no packet. */
  lemma MainIsSilent(w: World, s: MainStep)
    ensures var w' := MainDoes(w, s);
      && w'.receivers == w.receivers && w'.packets == w.packets && w'.abandoned == w.abandoned && w'.parsed == w.parsed
      && w'.events == w.events && w'.inserted == w.inserted && w'.spooled == w.spooled && w'.spoolFailed == w.spoolFailed
      && w'.clock >= w.clock && (!s.SpawnWorker? ==> w'.workers == w.workers)
  {
    match s
    case Tick(_) =>
    case _ =>
  }

  lemma StepBalancesPackets(cfg: Config, w: World, step: Step, lo: int, hi: int)
    requires PacketsBalance(w, lo, hi) && Enabled(cfg, w, step)
    ensures PacketsBalance(Do(cfg, w, step), lo, hi)
  {
    match step
    case ByReceiver(r, s) => ReceiverBalances(cfg, w, r, s, lo, hi);
    case ByWorker(i, s) => WorkerBalances(cfg, w, i, s, lo, hi);
    case ByInserter(i, s) => InserterBalances(cfg, w, i, s, lo, hi);
    case ByMain(s) => MainIsSilent(w, s);
  }

  // ---- Expected rows ----

  ghost function InAdding(p: Row -> bool): Worker -> nat {
    (x: Worker) => RowsWhere(Unadded(x), p)
  }

  /** Rows are expected as soon as their packet is parsed: they are counted as parsed or about to be. */
  ghost predicate ExpectedBalance(w: World, lo: int, hi: int) {
    Window(w.events, lo, hi, Expected) == RowsWhere(w.parsed, Within(lo, hi)) + Total(w.workers, InAdding(Within(lo, hi)))
  }

  lemma {:induction false} RowsOfOneSecond(rows: seq<Row>, second: int, lo: int, hi: int)
    requires RowsAt(rows, second)
    ensures RowsWhere(rows, Within(lo, hi)) == if lo <= second <= hi then |rows| else 0
  {
    if rows != [] {
      RowsOfOneSecond(rows[..|rows| - 1], second, lo, hi);
    }
  }

  lemma {:induction false} RowsWhereTail(rows: seq<Row>, p: Row -> bool)
    requires rows != []
    ensures RowsWhere(rows, p) == RowsWhere(rows[1..], p) + if p(rows[0]) then 1 else 0
  {
    var init := rows[..|rows| - 1];
    if init != [] {
      RowsWhereTail(init, p);
      assert rows[1..][..|rows[1..]| - 1] == init[1..];
    }
  }

  lemma TakeIsExpected(w: World, i: nat, w': World, lo: int, hi: int)
    requires ExpectedBalance(w, lo, hi) && MovesRows(w, i, Take, w') && PacketUpTo(w.packets[0], w.clock)
    requires w'.events == w.events + TakeEvents(WorkerShard(w, i), w.packets[0])
    ensures ExpectedBalance(w', lo, hi)
  {
    var p := w.packets[0];
    TakeTells(w.events, WorkerShard(w, i), p, lo, hi);
    TotalUpdate(w.workers, i, w'.workers[i], InAdding(Within(lo, hi)));
    if p.rows.Some? {
      RowsOfOneSecond(p.rows.value, p.second, lo, hi);
    }
  }

  lemma WorkerIsExpected(cfg: Config, w: World, i: nat, s: WorkerStep, w': World, ended: Option<Ending>, lo: int, hi: int)
    requires ExpectedBalance(w, lo, hi) && MovesRows(w, i, s, w') && !s.Take? && Tells(cfg, w, w', ended)
    ensures ExpectedBalance(w', lo, hi)
  {
    OthersUntold(cfg, w, w', ended, lo, hi, Expected);
    TotalUpdate(w.workers, i, w'.workers[i], InAdding(Within(lo, hi)));
    if s.Add? {
      var rest := Unadded(w.workers[i]);
      RowsWhereSnoc(w.parsed, rest[0], Within(lo, hi));
      RowsWhereTail(rest, Within(lo, hi));
    }
  }

  lemma MainIsExpected(w: World, s: MainStep, lo: int, hi: int)
    requires ExpectedBalance(w, lo, hi)
    ensures ExpectedBalance(MainDoes(w, s), lo, hi)
  {
    MainIsSilent(w, s);
    if s.SpawnWorker? {
      TotalAppend(w.workers, NewWorker, InAdding(Within(lo, hi)));
    }
  }

  lemma ReceiverIsExpected(cfg: Config, w: World, r: nat, s: ReceiverStep, lo: int, hi: int)
    requires ExpectedBalance(w, lo, hi) && ReceiverMay(cfg, w, r, s)
    ensures ExpectedBalance(ReceiverDoes(w, r, s), lo, hi)
  {
    if s.Read? {
      TellOne(w.events, Event(r + 1, s.packet.second, Received, 1), lo, hi);
    }
  }

  lemma InserterIsExpected(cfg: Config, w: World, i: nat, s: InserterStep, lo: int, hi: int)
    requires ExpectedBalance(w, lo, hi) && InserterMay(cfg, w, i, s)
    ensures ExpectedBalance(InserterDoes(cfg, w, i, s), lo, hi)
  {
    InserterTells(cfg, w, i, s);
    InserterKeepsFlow(cfg, w, i, s);
    OthersUntold(cfg, w, InserterDoes(cfg, w, i, s), EndedByInserter(cfg, w, i, s), lo, hi, Expected);
  }

  lemma StepBalancesExpected(cfg: Config, w: World, step: Step, lo: int, hi: int)
    requires ExpectedBalance(w, lo, hi) && TimesOk(w) && Enabled(cfg, w, step)
    ensures ExpectedBalance(Do(cfg, w, step), lo, hi)
  {
    match step
    case ByReceiver(r, s) => ReceiverIsExpected(cfg, w, r, s, lo, hi);
    case ByWorker(i, s) =>
      WorkerMovesRows(cfg, w, i, s);
      if s.Take? {
        TakeIsExpected(w, i, TakePacket(w, i), lo, hi);
      } else {
        WorkerTells(cfg, w, i, s);
        WorkerIsExpected(cfg, w, i, s, WorkerDoes(cfg, w, i, s), EndedByWorker(w, i, s), lo, hi);
      }
    case ByInserter(i, s) => InserterIsExpected(cfg, w, i, s, lo, hi);
    case ByMain(s) => MainIsExpected(w, s, lo, hi);
  }

  // ---- Rows that ended ----

  /** Never more than the rows that ended there; exactly those, for windows that start within the ring. */
  ghost predicate EndBalance(cfg: Config, w: World, lo: int, hi: int, kind: Kind)
    requires IsEnd(kind)
  {
    var told, ended := Window(w.events, lo, hi, kind), Total(Place(w, kind), InBatch(Within(lo, hi)));
    told <= ended && (lo > w.clock - cfg.retention ==> told == ended)
  }

  ghost function Newer(now: int): Row -> bool {
    (r: Row) => r.second > now
  }

  lemma {:induction false} NoneNewer(rows: seq<Row>, now: int)
    ensures RowsWhere(rows, Newer(now)) == 0 <==> RowsUpTo(rows, now)
  {
    if rows != [] {
      NoneNewer(rows[..|rows| - 1], now);
      assert rows == rows[..|rows| - 1] + [rows[|rows| - 1]];
    }
  }

  lemma HeldBatchUpTo(w: World, i: nat)
    requires TimesOk(w) && Conserved(w, Newer(w.clock)) && i < |w.inserters| && w.inserters[i].Holding?
    ensures RowsUpTo(w.inserters[i].batch.rows, w.clock)
  {
    var p := Newer(w.clock);
    NoneNewer(w.parsed, w.clock);
    TotalAtLeast(w.inserters, i, InHand(p));
    NoneNewer(w.inserters[i].batch.rows, w.clock);
  }

  lemma PendingBatchUpTo(w: World, i: nat, t: Table)
    requires TimesOk(w) && Conserved(w, Newer(w.clock)) && i < |w.workers|
    ensures RowsUpTo(Pending(w.workers[i], t, WorkerShard(w, i)).rows, w.clock)
  {
    var p := Newer(w.clock);
    NoneNewer(w.parsed, w.clock);
    TotalAtLeast(w.workers, i, InPending(p));
    if t in w.workers[i].pending {
      TotalMapPick(w.workers[i].pending, t, InBatch(p));
      NoneNewer(w.workers[i].pending[t].rows, w.clock);
    }
  }

  lemma EndKeepsEndBalance(cfg: Config, w: World, w': World, ended: Option<Ending>, lo: int, hi: int, kind: Kind)
    requires IsEnd(kind) && EndBalance(cfg, w, lo, hi, kind) && Tells(cfg, w, w', ended) && w'.clock == w.clock
    requires ended.Some? ==> RowsUpTo(ended.value.batch.rows, w.clock)
    ensures EndBalance(cfg, w', lo, hi, kind)
  {
    if ended.None? || ended.value.kind != kind {
      OthersUntold(cfg, w, w', ended, lo, hi, kind);
      assert SamePlace(w, w', kind);
    } else {
      var b := ended.value.batch;
      WindowConcat(w.events, CohortEvents(b.cohorts, b.shard, kind, w.clock, cfg.retention), lo, hi, kind);
      EndedBatchRecord(b, kind, w.clock, cfg.retention, lo, hi);
      TotalAppend(Place(w, kind), b, InBatch(Within(lo, hi)));
    }
  }

  lemma ReadBalancesEnds(cfg: Config, w: World, r: nat, packet: Packet, lo: int, hi: int, kind: Kind)
    requires IsEnd(kind) && EndBalance(cfg, w, lo, hi, kind) && r < |w.receivers|
    ensures EndBalance(cfg, ReceiverDoes(w, r, Read(packet)), lo, hi, kind)
  {
    var w' := ReceiverDoes(w, r, Read(packet));
    TellOne(w.events, Event(r + 1, packet.second, Received, 1), lo, hi);
    assert Place(w', kind) == Place(w, kind) && w'.clock == w.clock;
    assert Window(w'.events, lo, hi, kind) == Window(w.events, lo, hi, kind);
  }

  lemma SilentKeepsEndBalance(cfg: Config, w: World, w': World, lo: int, hi: int, kind: Kind)
    requires IsEnd(kind) && EndBalance(cfg, w, lo, hi, kind)
    requires w'.events == w.events && w'.clock >= w.clock && Place(w', kind) == Place(w, kind)
    ensures EndBalance(cfg, w', lo, hi, kind)
  {
  }

  lemma ReceiverBalancesEnds(cfg: Config, w: World, r: nat, s: ReceiverStep, lo: int, hi: int, kind: Kind)
    requires IsEnd(kind) && EndBalance(cfg, w, lo, hi, kind) && ReceiverMay(cfg, w, r, s)
    ensures EndBalance(cfg, ReceiverDoes(w, r, s), lo, hi, kind)
  {
    match s
    case Read(packet) => ReadBalancesEnds(cfg, w, r, packet, lo, hi, kind);
    case Send => SilentKeepsEndBalance(cfg, w, ReceiverDoes(w, r, s), lo, hi, kind);
    case Abandon => SilentKeepsEndBalance(cfg, w, ReceiverDoes(w, r, s), lo, hi, kind);
    case StopReading => SilentKeepsEndBalance(cfg, w, ReceiverDoes(w, r, s), lo, hi, kind);
  }

  lemma WorkerBalancesEnds(cfg: Config, w: World, i: nat, s: WorkerStep, lo: int, hi: int, kind: Kind)
    requires IsEnd(kind) && EndBalance(cfg, w, lo, hi, kind) && WorkerMay(cfg, w, i, s)
    requires TimesOk(w) && Conserved(w, Newer(w.clock))
    ensures EndBalance(cfg, WorkerDoes(cfg, w, i, s), lo, hi, kind)
  {
    if s.Take? {
      TakeTells(w.events, WorkerShard(w, i), w.packets[0], lo, hi);
    } else {
      if s.Flush? {
        PendingBatchUpTo(w, i, s.table);
      }
      WorkerTells(cfg, w, i, s);
      WorkerMovesRows(cfg, w, i, s);
      EndKeepsEndBalance(cfg, w, WorkerDoes(cfg, w, i, s), EndedByWorker(w, i, s), lo, hi, kind);
    }
  }

  lemma InserterBalancesEnds(cfg: Config, w: World, i: nat, s: InserterStep, lo: int, hi: int, kind: Kind)
    requires IsEnd(kind) && EndBalance(cfg, w, lo, hi, kind) && InserterMay(cfg, w, i, s)
    requires TimesOk(w) && Conserved(w, Newer(w.clock))
    ensures EndBalance(cfg, InserterDoes(cfg, w, i, s), lo, hi, kind)
  {
    if w.inserters[i].Holding? {
      HeldBatchUpTo(w, i);
    }
    InserterTells(cfg, w, i, s);
    InserterKeepsFlow(cfg, w, i, s);
    EndKeepsEndBalance(cfg, w, InserterDoes(cfg, w, i, s), EndedByInserter(cfg, w, i, s), lo, hi, kind);
  }

  lemma StepBalancesEnds(cfg: Config, w: World, step: Step, lo: int, hi: int, kind: Kind)
    requires IsEnd(kind) && EndBalance(cfg, w, lo, hi, kind) && Enabled(cfg, w, step)
    requires TimesOk(w) && Conserved(w, Newer(w.clock))
    ensures EndBalance(cfg, Do(cfg, w, step), lo, hi, kind)
  {
    match step
    case ByReceiver(r, s) => ReceiverBalancesEnds(cfg, w, r, s, lo, hi, kind);
    case ByWorker(i, s) => WorkerBalancesEnds(cfg, w, i, s, lo, hi, kind);
    case ByInserter(i, s) => InserterBalancesEnds(cfg, w, i, s, lo, hi, kind);
    case ByMain(s) =>
      MainIsSilent(w, s);
      SilentKeepsEndBalance(cfg, w, MainDoes(w, s), lo, hi, kind);
  }
}
