/** The daily load (apps/cgnat_etl/main.py): rows of four nodes are staged in batches and published as one
    partition; cases run in threads of their own. */
module Etl {

  datatype Case = PoolIps | PrivatePool | NatLoadByHour | SmtpAbuse | MostUsedPorts | RouterByHour | PublicSharingByHour

  /** The columns of a case after the three common ones. */
  function Columns(c: Case): seq<string> {
    match c
    case PoolIps => ["public_ip", "puertos_en_uso", "traducciones_totales", "abonados_compartiendo_ip"]
    case PrivatePool => ["public_ip", "private_ip", "sesiones", "destinos_distintos", "puertos_destino_distintos",
                         "bytes_totales"]
    case NatLoadByHour => ["hour", "ip_publica", "sesiones", "abonados_activos"]
    case SmtpAbuse => ["private_ip", "public_ip", "destination_ip", "sesiones", "bytes_totales"]
    case MostUsedPorts => ["public_ip", "destination_port", "sesiones", "bytes_totales", "abonados_distintos"]
    case RouterByHour => ["hora", "router_ip", "registros", "ips_privadas_aprox", "ips_publicas_aprox", "destinos_aprox"]
    case PublicSharingByHour => ["hora", "public_ip", "origenes_observados_aprox", "routers", "registros"]
  }

  predicate Hourly(c: Case) {
    c.NatLoadByHour? || c.RouterByHour? || c.PublicSharingByHour?
  }

  /** The hourly cases are those whose first column is the hour. */
  lemma HourComesFirst(c: Case)
    ensures Hourly(c) <==> Columns(c)[0] == "hour" || Columns(c)[0] == "hora"
  {
    assert Columns(c)[0][0] == 'h' <==> Hourly(c);
  }

  /** A column value; an instant is a date and time read from a node. */
  datatype Value = Number(n: int) | Instant(epoch: int)

  datatype Row = Row(day: int, node: string, loadedAt: int, values: seq<Value>)

  datatype Job = Job(kind: Case, id: nat, day: int, loadedAt: int, publicIp: nat, batchSize: nat)

  // ---- Rows and partitions ----

  function WithIp(job: Job, raw: seq<Value>): seq<Value> {
    if job.kind.PrivatePool? then [Number(job.publicIp)] + raw else raw
  }

  predicate FitsColumns(job: Job, raw: seq<Value>) {
    |WithIp(job, raw)| == |Columns(job.kind)|
  }

  function PrepareRow(job: Job, node: string, raw: seq<Value>): Row {
    var values := WithIp(job, raw);
    var converted := if Hourly(job.kind) && values != [] && values[0].Instant?
                     then values[0 := Number(values[0].epoch)] else values;
    Row(job.day, node, job.loadedAt, converted)
  }

  /** A prepared row: the columns that were read, in order, after the address of a private pool, with an hour as the
      epoch it stands for and nothing else changed; it fits the table exactly when the row read had the right
      number of columns. */
  lemma PreparedRowKeepsColumns(job: Job, node: string, raw: seq<Value>)
    requires FitsColumns(job, raw)
    ensures var row := PrepareRow(job, node, raw); var added := if job.kind.PrivatePool? then 1 else 0;
      && row.day == job.day && row.node == node && row.loadedAt == job.loadedAt
      && |row.values| == |Columns(job.kind)| == added + |raw|
      && (job.kind.PrivatePool? ==> row.values[0] == Number(job.publicIp))
      && forall i :: 0 <= i < |raw| ==>
           var hour := i == 0 && (Columns(job.kind)[0] == "hour" || Columns(job.kind)[0] == "hora");
           row.values[added + i] == if hour && raw[i].Instant? then Number(raw[i].epoch) else raw[i]
  {
    HourComesFirst(job.kind);
  }

  function PrepareAll(job: Job, node: string, rows: seq<seq<Value>>): seq<Row> {
    if rows == [] then [] else PrepareAll(job, node, rows[..|rows| - 1]) + [PrepareRow(job, node, rows[|rows| - 1])]
  }

  datatype Key = OfDay(day: int) | OfDayAndIp(day: int, ip: Value)

  /** The partition key the destination computes for a stored row of each table. */
  function KeyOf(kind: Case, row: Row): Key {
    if kind.PrivatePool? && row.values != [] then OfDayAndIp(row.day, row.values[0]) else OfDay(row.day)
  }

  /** The partition a load replaces. */
  function PartitionFor(job: Job): Key {
    if job.kind.PrivatePool? then OfDayAndIp(job.day, Number(job.publicIp)) else OfDay(job.day)
  }

  /** Loads of one case replace the same partition exactly when they are of the same day and, for private pools, of the
      same address. */
  lemma PartitionsAreApart(a: Job, b: Job)
    requires a.kind == b.kind
    ensures PartitionFor(a) == PartitionFor(b) <==> a.day == b.day && (a.kind.PrivatePool? ==> a.publicIp == b.publicIp)
  {
  }

  function WithKey(kind: Case, rows: seq<Row>, key: Key): seq<Row> {
    if rows == [] then []
    else
      var last := rows[|rows| - 1];
      WithKey(kind, rows[..|rows| - 1], key) + if KeyOf(kind, last) == key then [last] else []
  }

  function WithoutKey(kind: Case, rows: seq<Row>, key: Key): seq<Row> {
    if rows == [] then []
    else
      var last := rows[|rows| - 1];
      WithoutKey(kind, rows[..|rows| - 1], key) + if KeyOf(kind, last) == key then [] else [last]
  }

  predicate AllOfKey(kind: Case, rows: seq<Row>, key: Key) {
    forall i :: 0 <= i < |rows| ==> KeyOf(kind, rows[i]) == key
  }

  lemma {:induction false} WithKeyOfAll(kind: Case, rows: seq<Row>, key: Key)
    requires AllOfKey(kind, rows, key)
    ensures WithKey(kind, rows, key) == rows
  {
    if rows != [] {
      WithKeyOfAll(kind, rows[..|rows| - 1], key);
      assert rows == rows[..|rows| - 1] + [rows[|rows| - 1]];
    }
  }

  /** Every staged row carries the key of the partition that is published, so replacing it takes them all. */
  lemma {:induction false} PreparedRowsShareTheKey(job: Job, node: string, rows: seq<seq<Value>>)
    ensures AllOfKey(job.kind, PrepareAll(job, node, rows), PartitionFor(job))
  {
    if rows != [] {
      PreparedRowsShareTheKey(job, node, rows[..|rows| - 1]);
      var last := PrepareRow(job, node, rows[|rows| - 1]);
      if job.kind.PrivatePool? {
        assert last.values[0] == Number(job.publicIp);
      }
    }
  }

  // ---- The destination ----

  datatype Op = Create | Insert(rows: seq<Row>) | Replace(key: Key) | Clear(key: Key) | Remove

  /** One command of the load of `kind`, whose staging table is number `id`. */
  datatype Step = Step(kind: Case, id: nat, op: Op)

  datatype World = World(tables: map<Case, seq<Row>>, staging: map<nat, seq<Row>>)

  function TableOf(w: World, kind: Case): seq<Row> {
    if kind in w.tables then w.tables[kind] else []
  }

  function StagedIn(w: World, id: nat): seq<Row> {
    if id in w.staging then w.staging[id] else []
  }

  function Do(w: World, s: Step): World {
    match s.op
    case Create => w.(staging := w.staging[s.id := []])
    case Insert(rows) => w.(staging := w.staging[s.id := StagedIn(w, s.id) + rows])
    case Replace(key) =>
      w.(tables := w.tables[s.kind := WithoutKey(s.kind, TableOf(w, s.kind), key) + WithKey(s.kind, StagedIn(w, s.id), key)])
    case Clear(key) => w.(tables := w.tables[s.kind := WithoutKey(s.kind, TableOf(w, s.kind), key)])
    case Remove => w.(staging := w.staging - {s.id})
  }

  function Run(w: World, steps: seq<Step>): World {
    if steps == [] then w else Do(Run(w, steps[..|steps| - 1]), steps[|steps| - 1])
  }

  lemma RunSnoc(w: World, steps: seq<Step>, s: Step)
    ensures Run(w, steps + [s]) == Do(Run(w, steps), s)
  {
    assert (steps + [s])[..|steps|] == steps;
  }

  // ---- Concurrent loads ----

  /** The commands of one case, in order. */
  function Only(steps: seq<Step>, kind: Case): seq<Step> {
    if steps == [] then []
    else
      var last := steps[|steps| - 1];
      Only(steps[..|steps| - 1], kind) + if last.kind == kind then [last] else []
  }

  /** Each case has a staging table of its own. */
  predicate OwnStaging(steps: seq<Step>) {
    forall i, j :: 0 <= i < |steps| && 0 <= j < |steps| ==> (steps[i].kind == steps[j].kind <==> steps[i].id == steps[j].id)
  }

  predicate SameFor(v: World, w: World, kind: Case, id: nat) {
    && (kind in v.tables <==> kind in w.tables) && (kind in v.tables ==> v.tables[kind] == w.tables[kind])
    && (id in v.staging <==> id in w.staging) && (id in v.staging ==> v.staging[id] == w.staging[id])
  }

  lemma OwnStep(v: World, w: World, s: Step)
    requires SameFor(v, w, s.kind, s.id)
    ensures SameFor(Do(v, s), Do(w, s), s.kind, s.id)
  {
    match s.op
    case Create =>
    case Insert(_) =>
    case Replace(_) =>
    case Clear(_) =>
    case Remove =>
  }

  lemma ForeignStep(w: World, s: Step, kind: Case, id: nat)
    requires s.kind != kind && s.id != id
    ensures SameFor(Do(w, s), w, kind, id)
  {
    match s.op
    case Create =>
    case Insert(_) =>
    case Replace(_) =>
    case Clear(_) =>
    case Remove =>
  }

  /** What a case sees and leaves is as if no other case were running. */
  lemma {:induction false} OthersDoNotInterfere(w: World, steps: seq<Step>, kind: Case, id: nat)
    requires forall i :: 0 <= i < |steps| ==> (steps[i].kind == kind <==> steps[i].id == id)
    ensures SameFor(Run(w, steps), Run(w, Only(steps, kind)), kind, id)
  {
    if steps != [] {
      var init, last := steps[..|steps| - 1], steps[|steps| - 1];
      OthersDoNotInterfere(w, init, kind, id);
      if last.kind == kind {
        RunSnoc(w, Only(init, kind), last);
        OwnStep(Run(w, init), Run(w, Only(init, kind)), last);
      } else {
        ForeignStep(Run(w, init), last, kind, id);
        assert Only(init, kind) + [] == Only(init, kind);
      }
    }
  }

  /** A case none of whose commands ran finds its table untouched. */
  lemma {:induction false} IdleCaseIsUntouched(w: World, steps: seq<Step>, kind: Case)
    requires forall i :: 0 <= i < |steps| ==> steps[i].kind != kind
    ensures kind in Run(w, steps).tables <==> kind in w.tables
    ensures kind in w.tables ==> Run(w, steps).tables[kind] == w.tables[kind]
  {
    if steps != [] {
      IdleCaseIsUntouched(w, steps[..|steps| - 1], kind);
    }
  }

  /** Two interleavings in which each case issues the same commands publish the same tables: in particular any
      concurrent run and every sequential order of the same loads. */
  lemma InterleavingsPublishTheSame(w: World, a: seq<Step>, b: seq<Step>)
    requires OwnStaging(a) && OwnStaging(b) && forall kind :: Only(a, kind) == Only(b, kind)
    ensures Run(w, a).tables == Run(w, b).tables
  {
    forall kind ensures kind in Run(w, a).tables <==> kind in Run(w, b).tables
      ensures kind in Run(w, a).tables ==> Run(w, a).tables[kind] == Run(w, b).tables[kind] {
      OnlyFindsAll(a, kind);
      OnlyFindsAll(b, kind);
      if Only(a, kind) == [] {
        IdleCaseIsUntouched(w, a, kind);
        IdleCaseIsUntouched(w, b, kind);
      } else {
        var id := Only(a, kind)[0].id;
        OthersDoNotInterfere(w, a, kind, id);
        OthersDoNotInterfere(w, b, kind, id);
      }
    }
  }

  lemma {:induction false} OnlyFindsAll(steps: seq<Step>, kind: Case)
    ensures forall i :: 0 <= i < |steps| && steps[i].kind == kind ==> steps[i] in Only(steps, kind)
    ensures forall s :: s in Only(steps, kind) ==> s in steps && s.kind == kind
  {
    if steps != [] {
      OnlyFindsAll(steps[..|steps| - 1], kind);
    }
  }

  // ---- One load ----

  /** What an insert that reports success really stored; the load does not rely on its being everything. */
  datatype InsertOutcome = Stores(kept: nat) | Rejects

  /** `Unclear` is an error reported for a command that was carried out. */
  datatype AlterOutcome = Applied | Refused | Unclear

  datatype Source = Source(node: string, rows: seq<seq<Value>>, breaks: bool)

  function PrepareNodes(job: Job, sources: seq<Source>): seq<Row> {
    if sources == [] then []
    else
      var last := sources[|sources| - 1];
      PrepareNodes(job, sources[..|sources| - 1]) + PrepareAll(job, last.node, last.rows)
  }

  /** Every node was read to its end and every row had the columns of the case. */
  predicate ReadInFull(job: Job, sources: seq<Source>) {
    FirstRead(job, sources, |sources|)
  }

  predicate FirstRead(job: Job, sources: seq<Source>, n: nat)
    requires n <= |sources|
  {
    forall i :: 0 <= i < n ==> ReadWell(job, sources[i])
  }

  predicate ReadWell(job: Job, source: Source) {
    !source.breaks && FitAll(job, source.rows)
  }

  predicate FitAll(job: Job, rows: seq<seq<Value>>) {
    forall k :: 0 <= k < |rows| ==> FitsColumns(job, rows[k])
  }

  /** Either everything that was handed to the inserts was stored, or less. */
  predicate StoredSomeOf(stored: seq<Row>, given: seq<Row>) {
    |stored| <= |given| && (|stored| == |given| ==> stored == given)
  }

  lemma StoringTwice(a: seq<Row>, b: seq<Row>, given: seq<Row>, batch: seq<Row>)
    requires StoredSomeOf(a, given) && StoredSomeOf(b, batch)
    ensures StoredSomeOf(a + b, given + batch)
  {
  }

  /** The table of a case once `rows` are published for a partition. */
  function Published(table: seq<Row>, job: Job, rows: seq<Row>): seq<Row> {
    WithoutKey(job.kind, table, PartitionFor(job)) + rows
  }

  lemma {:induction false} WithKeyConcat(kind: Case, a: seq<Row>, b: seq<Row>, key: Key)
    ensures WithKey(kind, a + b, key) == WithKey(kind, a, key) + WithKey(kind, b, key)
    decreases |b|
  {
    if b == [] {
      assert a + b == a;
    } else {
      assert (a + b)[..|a + b| - 1] == a + b[..|b| - 1] && (a + b)[|a + b| - 1] == b[|b| - 1];
      WithKeyConcat(kind, a, b[..|b| - 1], key);
    }
  }

  lemma {:induction false} WithoutLeavesOthers(kind: Case, rows: seq<Row>, key: Key, other: Key)
    ensures WithKey(kind, WithoutKey(kind, rows, key), other) == if other == key then [] else WithKey(kind, rows, other)
  {
    if rows != [] {
      var init, last := rows[..|rows| - 1], rows[|rows| - 1];
      WithoutLeavesOthers(kind, init, key, other);
      var kept := WithoutKey(kind, init, key);
      if KeyOf(kind, last) != key {
        WithKeyConcat(kind, kept, [last], other);
        OneRow(kind, last, other);
      } else {
        assert kept + [] == kept;
        assert other != key ==> WithKey(kind, init, other) + [] == WithKey(kind, init, other);
      }
    }
  }

  lemma OneRow(kind: Case, row: Row, key: Key)
    ensures WithKey(kind, [row], key) == if KeyOf(kind, row) == key then [row] else []
  {
    assert [row][..0] == [];
  }

  lemma {:induction false} NoneOfOtherKeys(kind: Case, rows: seq<Row>, key: Key, other: Key)
    requires AllOfKey(kind, rows, key) && other != key
    ensures WithKey(kind, rows, other) == []
  {
    if rows != [] {
      NoneOfOtherKeys(kind, rows[..|rows| - 1], key, other);
    }
  }

  /** After a publication the partition holds exactly the prepared rows of the nodes - none, if they had none -
      and every other partition what it held. */
  lemma PublicationReplacesOnePartition(job: Job, table: seq<Row>, sources: seq<Source>, other: Key)
    ensures var after := Published(table, job, PrepareNodes(job, sources));
      && WithKey(job.kind, after, PartitionFor(job)) == PrepareNodes(job, sources)
      && (other != PartitionFor(job) ==> WithKey(job.kind, after, other) == WithKey(job.kind, table, other))
  {
    var key, rows := PartitionFor(job), PrepareNodes(job, sources);
    NodesShareTheKey(job, sources);
    WithKeyOfAll(job.kind, rows, key);
    WithoutLeavesOthers(job.kind, table, key, key);
    WithKeyConcat(job.kind, WithoutKey(job.kind, table, key), rows, key);
    if other != key {
      NoneOfOtherKeys(job.kind, rows, key, other);
      WithoutLeavesOthers(job.kind, table, key, other);
      WithKeyConcat(job.kind, WithoutKey(job.kind, table, key), rows, other);
      assert WithKey(job.kind, table, other) + [] == WithKey(job.kind, table, other);
    }
  }

  /** Rows were added to one staging table, and nothing else changed. */
  predicate Grew(before: map<nat, seq<Row>>, after: map<nat, seq<Row>>, id: nat, stored: seq<Row>) {
    id in before && after == before[id := before[id] + stored]
  }

  lemma GrewNothing(staging: map<nat, seq<Row>>, id: nat)
    requires id in staging
    ensures Grew(staging, staging, id, [])
  {
    assert staging[id] + [] == staging[id];
  }

  lemma GrewTwice(before: map<nat, seq<Row>>, middle: map<nat, seq<Row>>, after: map<nat, seq<Row>>,
                  id: nat, a: seq<Row>, b: seq<Row>)
    requires Grew(before, middle, id, a) && Grew(middle, after, id, b)
    ensures Grew(before, after, id, a + b)
  {
    assert (before[id] + a) + b == before[id] + (a + b);
  }

  lemma {:induction false} NodesShareTheKey(job: Job, sources: seq<Source>)
    ensures AllOfKey(job.kind, PrepareNodes(job, sources), PartitionFor(job))
  {
    if sources != [] {
      NodesShareTheKey(job, sources[..|sources| - 1]);
      PreparedRowsShareTheKey(job, sources[|sources| - 1].node, sources[|sources| - 1].rows);
    }
  }

  lemma {:induction false} PreparedLength(job: Job, node: string, rows: seq<seq<Value>>)
    ensures |PrepareAll(job, node, rows)| == |rows|
  {
    if rows != [] {
      PreparedLength(job, node, rows[..|rows| - 1]);
    }
  }

  lemma NextNode(job: Job, sources: seq<Source>, n: nat)
    requires n < |sources|
    ensures PrepareNodes(job, sources[..n + 1])
         == PrepareNodes(job, sources[..n]) + PrepareAll(job, sources[n].node, sources[n].rows)
    ensures |PrepareAll(job, sources[n].node, sources[n].rows)| == |sources[n].rows|
  {
    assert sources[..n + 1][..n] == sources[..n];
    PreparedLength(job, sources[n].node, sources[n].rows);
  }

  predicate SizesFit(before: seq<nat>, after: seq<nat>, max: nat) {
    before <= after && forall i :: |before| <= i < |after| ==> 1 <= after[i] <= max
  }

  // ---- The commands of one load ----

  /** The commands of a load as steps of the destination. */
  function StepsOf(job: Job, ops: seq<Op>): seq<Step> {
    seq(|ops|, i requires 0 <= i < |ops| => Step(job.kind, job.id, ops[i]))
  }

  lemma StepsSnoc(job: Job, ops: seq<Op>, op: Op)
    ensures StepsOf(job, ops + [op]) == StepsOf(job, ops) + [Step(job.kind, job.id, op)]
  {
  }

  lemma StepsConcat(job: Job, a: seq<Op>, b: seq<Op>)
    ensures StepsOf(job, a + b) == StepsOf(job, a) + StepsOf(job, b)
  {
  }

  /** The rows the inserts among the commands stored. */
  function Stored(ops: seq<Op>): seq<Row> {
    if ops == [] then []
    else
      var last := ops[|ops| - 1];
      Stored(ops[..|ops| - 1]) + if last.Insert? then last.rows else []
  }

  lemma StoredSnoc(ops: seq<Op>, rows: seq<Row>)
    ensures Stored(ops + [Insert(rows)]) == Stored(ops) + rows
  {
    assert (ops + [Insert(rows)])[..|ops|] == ops;
  }

  /** What the server keeps of a batch. */
  function KeptOf(batch: seq<Row>, outcome: InsertOutcome): seq<Row> {
    if outcome.Rejects? then [] else if outcome.kept < |batch| then batch[..outcome.kept] else batch
  }

  function OutcomeAt(outcomes: seq<InsertOutcome>, i: nat): InsertOutcome {
    if i < |outcomes| then outcomes[i] else Rejects
  }

  /** Reading a node: the commands of the load so far, the batch being filled, the inserts used for this node. */
  datatype Reading = Reading(ops: seq<Op>, batch: seq<Row>, used: nat, ok: bool)

  function Handed(r: Reading, outcomes: seq<InsertOutcome>): Reading {
    var outcome := OutcomeAt(outcomes, r.used);
    if outcome.Rejects? then r.(ok := false)
    else Reading(r.ops + [Insert(KeptOf(r.batch, outcome))], [], r.used + 1, true)
  }

  function NextRow(job: Job, node: string, raw: seq<Value>, outcomes: seq<InsertOutcome>, r: Reading): Reading {
    if !r.ok then r
    else if !FitsColumns(job, raw) then r.(ok := false)
    else
      var filled := r.(batch := r.batch + [PrepareRow(job, node, raw)]);
      if |filled.batch| >= job.batchSize then Handed(filled, outcomes) else filled
  }

  function ReadRows(job: Job, source: Source, outcomes: seq<InsertOutcome>, ops: seq<Op>, k: nat): Reading
    requires k <= |source.rows|
  {
    if k == 0 then Reading(ops, [], 0, true)
    else NextRow(job, source.node, source.rows[k - 1], outcomes, ReadRows(job, source, outcomes, ops, k - 1))
  }

  function ReadNode(job: Job, source: Source, outcomes: seq<InsertOutcome>, ops: seq<Op>): Reading {
    var r := ReadRows(job, source, outcomes, ops, |source.rows|);
    if !r.ok then r
    else if source.breaks then r.(ok := false)
    else if r.batch == [] then r
    else Handed(r, outcomes)
  }

  /** Reading the first `n` nodes. */
  function ReadNodes(job: Job, sources: seq<Source>, outcomes: seq<seq<InsertOutcome>>, n: nat): Reading
    requires n <= |sources|
  {
    if n == 0 then Reading([], [], 0, true)
    else
      var before := ReadNodes(job, sources, outcomes, n - 1);
      if !before.ok then before
      else ReadNode(job, sources[n - 1], if n - 1 < |outcomes| then outcomes[n - 1] else [], before.ops)
  }

  function PublishCommand(job: Job, total: nat): Op {
    if total > 0 then Replace(PartitionFor(job)) else Clear(PartitionFor(job))
  }

  /** The commands of a load whose staging table exists. */
  function StageOps(job: Job, sources: seq<Source>, outcomes: seq<seq<InsertOutcome>>, counts: bool, alter: AlterOutcome): seq<Op> {
    var r, total := ReadNodes(job, sources, outcomes, |sources|), |PrepareNodes(job, sources)|;
    r.ops + if r.ok && counts && |Stored(r.ops)| == total && !alter.Refused? then [PublishCommand(job, total)] else []
  }

  /** One load with what its nodes hold and how each of its commands ends. */
  datatype Load = Load(job: Job, sources: seq<Source>, outcomes: seq<seq<InsertOutcome>>, creates: bool, counts: bool,
                       alter: AlterOutcome, removes: bool)

  /** The commands a load carries out; they do not depend on what any table holds. */
  function LoadOps(load: Load): seq<Op> {
    (if load.creates then [Create] + StageOps(load.job, load.sources, load.outcomes, load.counts, load.alter) else [])
    + if load.removes then [Remove] else []
  }

  function LoadSteps(load: Load): seq<Step> {
    StepsOf(load.job, LoadOps(load))
  }

  lemma {:induction false} RowsStayFailed(job: Job, source: Source, outcomes: seq<InsertOutcome>, ops: seq<Op>, k: nat, n: nat)
    requires k <= n <= |source.rows| && !ReadRows(job, source, outcomes, ops, k).ok
    ensures ReadRows(job, source, outcomes, ops, n) == ReadRows(job, source, outcomes, ops, k)
    decreases n
  {
    if k < n {
      RowsStayFailed(job, source, outcomes, ops, k, n - 1);
    }
  }

  lemma {:induction false} NodesStayFailed(job: Job, sources: seq<Source>, outcomes: seq<seq<InsertOutcome>>, k: nat, n: nat)
    requires k <= n <= |sources| && !ReadNodes(job, sources, outcomes, k).ok
    ensures ReadNodes(job, sources, outcomes, n) == ReadNodes(job, sources, outcomes, k)
    decreases n
  {
    if k < n {
      NodesStayFailed(job, sources, outcomes, k, n - 1);
    }
  }

  // ---- Concurrent loads are sequential ----

  /** Loads of different cases, with staging tables of their own. */
  predicate Apart(loads: seq<Load>) {
    forall i, j :: 0 <= i < j < |loads| ==> loads[i].job.kind != loads[j].job.kind && loads[i].job.id != loads[j].job.id
  }

  /** The commands of every load in its own order, mixed in any way, and no others. */
  predicate Interleaves(steps: seq<Step>, loads: seq<Load>) {
    && (forall i :: 0 <= i < |loads| ==> Only(steps, loads[i].job.kind) == LoadSteps(loads[i]))
    && (forall s :: s in steps ==> exists i :: 0 <= i < |loads| && loads[i].job.kind == s.kind)
  }

  /** One load after another. */
  function InTurn(loads: seq<Load>): seq<Step> {
    if loads == [] then [] else InTurn(loads[..|loads| - 1]) + LoadSteps(loads[|loads| - 1])
  }

  lemma {:induction false} OnlyConcat(a: seq<Step>, b: seq<Step>, kind: Case)
    ensures Only(a + b, kind) == Only(a, kind) + Only(b, kind)
    decreases |b|
  {
    if b == [] {
      assert a + b == a;
    } else {
      assert (a + b)[..|a + b| - 1] == a + b[..|b| - 1];
      OnlyConcat(a, b[..|b| - 1], kind);
    }
  }

  lemma {:induction false} OnlyOfOneKind(steps: seq<Step>, own: Case, kind: Case)
    requires forall i :: 0 <= i < |steps| ==> steps[i].kind == own
    ensures Only(steps, kind) == if kind == own then steps else []
  {
    if steps != [] {
      OnlyOfOneKind(steps[..|steps| - 1], own, kind);
    }
  }

  lemma OnlyOfSteps(job: Job, ops: seq<Op>, kind: Case)
    ensures Only(StepsOf(job, ops), kind) == if kind == job.kind then StepsOf(job, ops) else []
  {
    OnlyOfOneKind(StepsOf(job, ops), job.kind, kind);
  }

  lemma InTurnOnlyLast(loads: seq<Load>, kind: Case)
    requires loads != []
    ensures var last := loads[|loads| - 1];
      Only(InTurn(loads), kind)
      == Only(InTurn(loads[..|loads| - 1]), kind) + if kind == last.job.kind then LoadSteps(last) else []
  {
    var last := loads[|loads| - 1];
    OnlyConcat(InTurn(loads[..|loads| - 1]), LoadSteps(last), kind);
    OnlyOfSteps(last.job, LoadOps(last), kind);
  }

  lemma {:induction false} InTurnOnly(loads: seq<Load>, i: nat)
    requires Apart(loads) && i < |loads|
    ensures Only(InTurn(loads), loads[i].job.kind) == LoadSteps(loads[i])
  {
    var n, kind := |loads| - 1, loads[i].job.kind;
    InTurnOnlyLast(loads, kind);
    if i < n {
      InTurnOnly(loads[..n], i);
    } else {
      NoStepsOf(loads[..n], kind);
    }
  }

  lemma {:induction false} NoStepsOf(loads: seq<Load>, kind: Case)
    requires forall i :: 0 <= i < |loads| ==> loads[i].job.kind != kind
    ensures Only(InTurn(loads), kind) == []
  {
    if loads != [] {
      NoStepsOf(loads[..|loads| - 1], kind);
      InTurnOnlyLast(loads, kind);
    }
  }

  lemma {:induction false} InTurnInterleaves(loads: seq<Load>)
    requires Apart(loads)
    ensures Interleaves(InTurn(loads), loads)
  {
    forall i | 0 <= i < |loads| ensures Only(InTurn(loads), loads[i].job.kind) == LoadSteps(loads[i]) {
      InTurnOnly(loads, i);
    }
    if loads != [] {
      var n := |loads| - 1;
      InTurnInterleaves(loads[..n]);
      forall s | s in InTurn(loads) ensures exists i :: 0 <= i < |loads| && loads[i].job.kind == s.kind {
        if s in InTurn(loads[..n]) {
          var i :| 0 <= i < n && loads[..n][i].job.kind == s.kind;
          assert loads[i].job.kind == s.kind;
        } else {
          assert loads[n].job.kind == s.kind;
        }
      }
    }
  }

  /** The staging table of a step is that of its load. */
  lemma StepOfLoad(steps: seq<Step>, loads: seq<Load>, s: Step) returns (i: nat)
    requires Interleaves(steps, loads) && s in steps
    ensures i < |loads| && loads[i].job.kind == s.kind && loads[i].job.id == s.id
  {
    i :| 0 <= i < |loads| && loads[i].job.kind == s.kind;
    OnlyFindsAll(steps, s.kind);
    assert s in LoadSteps(loads[i]);
  }

  lemma InterleavingsOwnStaging(steps: seq<Step>, loads: seq<Load>)
    requires Apart(loads) && Interleaves(steps, loads)
    ensures OwnStaging(steps)
  {
    forall i, j | 0 <= i < |steps| && 0 <= j < |steps|
      ensures steps[i].kind == steps[j].kind <==> steps[i].id == steps[j].id {
      var k := StepOfLoad(steps, loads, steps[i]);
      var l := StepOfLoad(steps, loads, steps[j]);
    }
  }

  lemma {:induction false} OnlyOfOthers(steps: seq<Step>, kind: Case)
    requires forall i :: 0 <= i < |steps| ==> steps[i].kind != kind
    ensures Only(steps, kind) == []
  {
    if steps != [] {
      OnlyOfOthers(steps[..|steps| - 1], kind);
    }
  }

  lemma SameCommands(a: seq<Step>, b: seq<Step>, loads: seq<Load>, kind: Case)
    requires Interleaves(a, loads) && Interleaves(b, loads)
    ensures Only(a, kind) == Only(b, kind)
  {
    if i :| 0 <= i < |loads| && loads[i].job.kind == kind {
      assert Only(a, kind) == LoadSteps(loads[i]) == Only(b, kind);
    } else {
      forall k | 0 <= k < |a| ensures a[k].kind != kind {
        assert a[k] in a;
      }
      OnlyOfOthers(a, kind);
      forall k | 0 <= k < |b| ensures b[k].kind != kind {
        assert b[k] in b;
      }
      OnlyOfOthers(b, kind);
    }
  }

  /** However the commands of concurrent loads are mixed, the tables end up as if the loads had run one after
      another, in any order. */
  lemma ConcurrentLoadsAreSequential(w: World, steps: seq<Step>, loads: seq<Load>)
    requires Apart(loads) && Interleaves(steps, loads)
    ensures Run(w, steps).tables == Run(w, InTurn(loads)).tables
  {
    var inTurn := InTurn(loads);
    InTurnInterleaves(loads);
    InterleavingsOwnStaging(steps, loads);
    InterleavingsOwnStaging(inTurn, loads);
    forall kind ensures Only(steps, kind) == Only(inTurn, kind) {
      SameCommands(steps, inTurn, loads, kind);
    }
    InterleavingsPublishTheSame(w, steps, inTurn);
  }

  // ---- The destination as a load changes it ----

  /** Either way of publishing puts the staged rows in place of the partition. */
  lemma PublishingStep(w: World, job: Job, command: Op)
    requires job.id in w.staging && AllOfKey(job.kind, w.staging[job.id], PartitionFor(job))
    requires command == PublishCommand(job, |w.staging[job.id]|)
    ensures Do(w, Step(job.kind, job.id, command))
         == w.(tables := w.tables[job.kind := Published(TableOf(w, job.kind), job, w.staging[job.id])])
    ensures var rest := WithoutKey(job.kind, TableOf(w, job.kind), PartitionFor(job));
      Published(TableOf(w, job.kind), job, w.staging[job.id])
      == if command.Replace? then rest + WithKey(job.kind, w.staging[job.id], PartitionFor(job)) else rest
  {
    WithKeyOfAll(job.kind, w.staging[job.id], PartitionFor(job));
    if |w.staging[job.id]| == 0 {
      var rest := WithoutKey(job.kind, TableOf(w, job.kind), PartitionFor(job));
      assert rest + w.staging[job.id] == rest;
    }
  }

  lemma CreationRuns(start: World, log: seq<Step>, w: World, job: Job)
    requires w == Run(start, log)
    ensures Run(start, log + [Step(job.kind, job.id, Create)]) == World(w.tables, w.staging[job.id := []])
  {
    RunSnoc(start, log, Step(job.kind, job.id, Create));
  }

  lemma RemovalRuns(start: World, log: seq<Step>, w: World, job: Job)
    requires w == Run(start, log)
    ensures Run(start, log + [Step(job.kind, job.id, Remove)]) == World(w.tables, w.staging - {job.id})
  {
    RunSnoc(start, log, Step(job.kind, job.id, Remove));
  }

  lemma PublicationRuns(start: World, log: seq<Step>, w: World, job: Job)
    requires w == Run(start, log) && job.id in w.staging && AllOfKey(job.kind, w.staging[job.id], PartitionFor(job))
    ensures Run(start, log + [Step(job.kind, job.id, PublishCommand(job, |w.staging[job.id]|))])
         == w.(tables := w.tables[job.kind := Published(TableOf(w, job.kind), job, w.staging[job.id])])
  {
    RunSnoc(start, log, Step(job.kind, job.id, PublishCommand(job, |w.staging[job.id]|)));
    PublishingStep(w, job, PublishCommand(job, |w.staging[job.id]|));
  }

  datatype LoadResult = Loaded(total: nat) | NotConfirmed

  /** The destination at one moment, with the commands so far and the sizes of the batches handed to inserts. */
  datatype Moment = Moment(world: World, log: seq<Step>, sizes: seq<nat>)

  /** Since `begin` only this load issued commands, namely `ops`, and its batches were within the limit. */
  predicate Progress(start: World, job: Job, begin: Moment, now: Moment, ops: seq<Op>) {
    && now.world == Run(start, now.log) && now.world.tables == begin.world.tables
    && now.log == begin.log + StepsOf(job, ops) && SizesFit(begin.sizes, now.sizes, job.batchSize)
    && Grew(begin.world.staging, now.world.staging, job.id, Stored(ops))
  }

  lemma CreateStages(w: World, s: Step)
    requires s.op.Create? && s.id !in w.staging
    ensures var w' := Do(w, s); w'.tables == w.tables && s.id in w'.staging && w'.staging[s.id] == [] && w'.staging - {s.id} == w.staging
  {
    var after := Do(w, s).staging;
    forall id ensures id in after - {s.id} <==> id in w.staging {
    }
    forall id | id in w.staging ensures (after - {s.id})[id] == w.staging[id] {
    }
  }

  lemma InsertStages(w: World, s: Step)
    requires s.op.Insert? && s.id in w.staging
    ensures Do(w, s).tables == w.tables && Grew(w.staging, Do(w, s).staging, s.id, s.op.rows)
  {
  }

  lemma SizesGrow(before: seq<nat>, after: seq<nat>, size: nat, max: nat)
    requires SizesFit(before, after, max) && 1 <= size <= max
    ensures SizesFit(before, after + [size], max)
  {
  }

  lemma InsertProgresses(start: World, job: Job, begin: Moment, now: Moment, ops: seq<Op>, size: nat, kept: seq<Row>)
    requires Progress(start, job, begin, now, ops) && 1 <= size <= job.batchSize
    ensures var step := Step(job.kind, job.id, Insert(kept));
      Progress(start, job, begin, Moment(Do(now.world, step), now.log + [step], now.sizes + [size]), ops + [Insert(kept)])
    ensures Progress(start, job, begin, now.(sizes := now.sizes + [size]), ops)
  {
    var step := Step(job.kind, job.id, Insert(kept));
    RunSnoc(start, now.log, step);
    SizesGrow(begin.sizes, now.sizes, size, job.batchSize);
    StepsSnoc(job, ops, Insert(kept));
    StoredSnoc(ops, kept);
    assert (begin.log + StepsOf(job, ops)) + [step] == begin.log + (StepsOf(job, ops) + [step]);
    InsertStages(now.world, step);
    GrewTwice(begin.world.staging, now.world.staging, Do(now.world, step).staging, job.id, Stored(ops), kept);
  }

  lemma InsertKeepsSome(ops: seq<Op>, batch: seq<Row>, outcome: InsertOutcome, given: seq<Row>)
    requires StoredSomeOf(Stored(ops), given) && !outcome.Rejects?
    ensures StoredSomeOf(Stored(ops + [Insert(KeptOf(batch, outcome))]), given + batch)
  {
    StoredSnoc(ops, KeptOf(batch, outcome));
    StoringTwice(Stored(ops), KeptOf(batch, outcome), given, batch);
  }

  /** What is staged for a load that found its staging table empty. */
  lemma ProgressStages(start: World, job: Job, begin: Moment, now: Moment, ops: seq<Op>)
    requires Progress(start, job, begin, now, ops) && begin.world.staging[job.id] == []
    ensures job.id in now.world.staging && now.world.staging[job.id] == Stored(ops)
    ensures now.world.staging - {job.id} == begin.world.staging - {job.id}
  {
    var before, after := begin.world.staging, now.world.staging;
    assert [] + Stored(ops) == Stored(ops);
    forall id | id in before - {job.id} ensures id in after - {job.id} && (after - {job.id})[id] == before[id] {
    }
  }

  lemma StageOpsEnd(job: Job, sources: seq<Source>, outcomes: seq<seq<InsertOutcome>>, counts: bool, alter: AlterOutcome)
    ensures var r, total := ReadNodes(job, sources, outcomes, |sources|), |PrepareNodes(job, sources)|;
      StepsOf(job, StageOps(job, sources, outcomes, counts, alter))
      == if r.ok && counts && |Stored(r.ops)| == total && !alter.Refused?
         then StepsOf(job, r.ops) + [Step(job.kind, job.id, PublishCommand(job, total))] else StepsOf(job, r.ops)
  {
    var r, total := ReadNodes(job, sources, outcomes, |sources|), |PrepareNodes(job, sources)|;
    StepsSnoc(job, r.ops, PublishCommand(job, total));
    assert r.ops + [] == r.ops;
  }

  lemma LoadStepsEnd(load: Load)
    ensures var staged := StageOps(load.job, load.sources, load.outcomes, load.counts, load.alter);
      LoadSteps(load)
      == (if load.creates then [Step(load.job.kind, load.job.id, Create)] + StepsOf(load.job, staged) else [])
         + if load.removes then [Step(load.job.kind, load.job.id, Remove)] else []
  {
    var staged := StageOps(load.job, load.sources, load.outcomes, load.counts, load.alter);
    StepsConcat(load.job, [Create], staged);
    StepsConcat(load.job, if load.creates then [Create] + staged else [], if load.removes then [Remove] else []);
    assert StepsOf(load.job, [Create]) == [Step(load.job.kind, load.job.id, Create)];
    assert StepsOf(load.job, [Remove]) == [Step(load.job.kind, load.job.id, Remove)];
  }

  predicate FirstFit(job: Job, rows: seq<seq<Value>>, k: nat)
    requires k <= |rows|
  {
    forall i :: 0 <= i < k ==> FitsColumns(job, rows[i])
  }

  /** The rows given to inserts and those still in the batch are the ones prepared so far. */
  predicate GivenIs(job: Job, source: Source, k: nat, given: seq<Row>, before: seq<Row>, batch: seq<Row>)
    requires k <= |source.rows|
  {
    given + PrepareAll(job, source.node, source.rows[..k]) == before + batch
  }

  lemma PrepareNext(job: Job, source: Source, k: nat, given: seq<Row>, before: seq<Row>, batch: seq<Row>)
    requires k < |source.rows| && GivenIs(job, source, k, given, before, batch)
    ensures GivenIs(job, source, k + 1, given, before, batch + [PrepareRow(job, source.node, source.rows[k])])
  {
    assert source.rows[..k + 1][..k] == source.rows[..k];
    var prepared, next := PrepareAll(job, source.node, source.rows[..k]), [PrepareRow(job, source.node, source.rows[k])];
    assert given + (prepared + next) == (given + prepared) + next;
    assert before + (batch + next) == (before + batch) + next;
  }

  lemma EmptyBatch(job: Job, source: Source, k: nat, given: seq<Row>, before: seq<Row>, batch: seq<Row>)
    requires k <= |source.rows| && GivenIs(job, source, k, given, before, batch)
    ensures GivenIs(job, source, k, given, before + batch, [])
    ensures k == |source.rows| ==> given + PrepareAll(job, source.node, source.rows) == before + batch
    ensures batch == [] ==> before + batch == before
  {
    assert (before + batch) + [] == before + batch;
    assert source.rows[..|source.rows|] == source.rows;
  }

  class Destination {
    var tables: map<Case, seq<Row>>
    var staging: map<nat, seq<Row>>

    /** The commands so far, from `start`, and the sizes of the batches handed to inserts. */
    ghost const start: World
    ghost var log: seq<Step>
    ghost var sizes: seq<nat>

    ghost function Now(): Moment
      reads this
    {
      Moment(World(tables, staging), log, sizes)
    }

    ghost predicate Valid()
      reads this
    {
      World(tables, staging) == Run(start, log)
    }

    constructor (tables: map<Case, seq<Row>>)
      ensures Valid() && this.tables == tables && staging == map[] && log == [] && sizes == []
    {
      this.tables, staging := tables, map[];
      start, log, sizes := World(tables, map[]), [], [];
    }

    /** One synchronous insert; the server may keep fewer rows than it was given. */
    method InsertBatch(job: Job, batch: seq<Row>, outcome: InsertOutcome, ghost begin: Moment, ghost ops: seq<Op>)
      returns (ok: bool)
      requires Progress(start, job, begin, Now(), ops) && 1 <= |batch| <= job.batchSize
      modifies this`staging, this`sizes, this`log
      ensures ok <==> !outcome.Rejects?
      ensures Progress(start, job, begin, Now(), if ok then ops + [Insert(KeptOf(batch, outcome))] else ops)
    {
      var kept := KeptOf(batch, outcome);
      InsertProgresses(start, job, begin, Now(), ops, |batch|, kept);
      sizes := sizes + [|batch|];
      ok := !outcome.Rejects?;
      if ok {
        log := log + [Step(job.kind, job.id, Insert(kept))];
        staging := staging[job.id := staging[job.id] + kept];
      }
    }

    /** Hands the batch of a reading to the next insert. */
    method HandBatch(job: Job, batch: seq<Row>, used: nat, outcomes: seq<InsertOutcome>,
                     ghost begin: Moment, ghost r: Reading, ghost before: seq<Row>) returns (ok: bool)
      requires r.ok && r.batch == batch && r.used == used && 1 <= |batch| <= job.batchSize
      requires Progress(start, job, begin, Now(), r.ops) && StoredSomeOf(Stored(r.ops), before)
      modifies this`staging, this`sizes, this`log
      ensures ok == Handed(r, outcomes).ok && Progress(start, job, begin, Now(), Handed(r, outcomes).ops)
      ensures ok ==> StoredSomeOf(Stored(Handed(r, outcomes).ops), before + batch)
    {
      ok := InsertBatch(job, batch, OutcomeAt(outcomes, used), begin, r.ops);
      if ok {
        InsertKeepsSome(r.ops, batch, OutcomeAt(outcomes, used), before);
      }
    }

    /** Adds row `k` of a node to the batch and hands the batch over when it is full. */
    method StageRow(job: Job, source: Source, k: nat, batch: seq<Row>, used: nat, outcomes: seq<InsertOutcome>,
                    ghost begin: Moment, ghost r: Reading, ghost given: seq<Row>, ghost before: seq<Row>)
      returns (ok: bool, batch': seq<Row>, used': nat, ghost before': seq<Row>)
      requires k < |source.rows| && |batch| < job.batchSize && r.ok && r.batch == batch && r.used == used
      requires Progress(start, job, begin, Now(), r.ops) && StoredSomeOf(Stored(r.ops), before)
      requires GivenIs(job, source, k, given, before, batch)
      modifies this`staging, this`sizes, this`log
      ensures var next := NextRow(job, source.node, source.rows[k], outcomes, r);
        && ok == next.ok && Progress(start, job, begin, Now(), next.ops)
        && (ok ==> next.batch == batch' && next.used == used' && StoredSomeOf(Stored(next.ops), before'))
      ensures ok ==> FitsColumns(job, source.rows[k]) && |batch'| < job.batchSize
      ensures ok ==> GivenIs(job, source, k + 1, given, before', batch')
    {
      batch', used', before' := batch, used, before;
      ok := FitsColumns(job, source.rows[k]);
      if !ok {
        return;
      }
      PrepareNext(job, source, k, given, before, batch);
      batch' := batch + [PrepareRow(job, source.node, source.rows[k])];
      if |batch'| >= job.batchSize {
        ok := HandBatch(job, batch', used, outcomes, begin, r.(batch := batch'), before);
        EmptyBatch(job, source, k + 1, given, before, batch');
        used', before', batch' := used + 1, before + batch', [];
      }
    }

    /** Reads the rows of a node, handing every full batch to an insert; what is left is in `batch`. */
    method StageRows(job: Job, source: Source, outcomes: seq<InsertOutcome>,
                     ghost begin: Moment, ghost ops: seq<Op>, ghost given: seq<Row>)
      returns (ok: bool, nodeRows: nat, batch: seq<Row>, used: nat, ghost before: seq<Row>)
      requires Progress(start, job, begin, Now(), ops) && StoredSomeOf(Stored(ops), given) && job.batchSize >= 1
      modifies this`staging, this`sizes, this`log
      ensures var r := ReadRows(job, source, outcomes, ops, |source.rows|);
        && r.ok == ok && Progress(start, job, begin, Now(), r.ops)
        && (ok ==> r.batch == batch && r.used == used && StoredSomeOf(Stored(r.ops), before))
      ensures ok ==> nodeRows == |source.rows| && FitAll(job, source.rows) && |batch| < job.batchSize
      ensures ok ==> GivenIs(job, source, nodeRows, given, before, batch)
    {
      ok, nodeRows, batch, used, before := true, 0, [], 0, given;
      ghost var r := Reading(ops, [], 0, true);
      while nodeRows < |source.rows|
        invariant 0 <= nodeRows <= |source.rows| && FirstFit(job, source.rows, nodeRows)
        invariant ok && r == ReadRows(job, source, outcomes, ops, nodeRows) && r.ok && r.batch == batch && r.used == used
        invariant GivenIs(job, source, nodeRows, given, before, batch)
        invariant Progress(start, job, begin, Now(), r.ops) && StoredSomeOf(Stored(r.ops), before) && |batch| < job.batchSize
      {
        ok, batch, used, before := StageRow(job, source, nodeRows, batch, used, outcomes, begin, r, given, before);
        nodeRows := nodeRows + 1;
        if !ok {
          RowsStayFailed(job, source, outcomes, ops, nodeRows, |source.rows|);
          return;
        }
        r := ReadRows(job, source, outcomes, ops, nodeRows);
      }
    }

    /** Reads one node and stages its rows in batches; the commands `ops` came before, for the rows `given`. */
    method LoadNode(job: Job, source: Source, outcomes: seq<InsertOutcome>,
                    ghost begin: Moment, ghost ops: seq<Op>, ghost given: seq<Row>)
      returns (ok: bool, nodeRows: nat)
      requires Progress(start, job, begin, Now(), ops) && StoredSomeOf(Stored(ops), given) && job.batchSize >= 1
      modifies this`staging, this`sizes, this`log
      ensures ok == ReadNode(job, source, outcomes, ops).ok
      ensures Progress(start, job, begin, Now(), ReadNode(job, source, outcomes, ops).ops)
      ensures ok ==> ReadWell(job, source) && nodeRows == |source.rows|
      ensures ok ==> StoredSomeOf(Stored(ReadNode(job, source, outcomes, ops).ops), given + PrepareAll(job, source.node, source.rows))
    {
      var batch, used;
      ghost var before;
      ok, nodeRows, batch, used, before := StageRows(job, source, outcomes, begin, ops, given);
      if !ok || source.breaks {
        return false, nodeRows;
      }
      EmptyBatch(job, source, nodeRows, given, before, batch);
      if batch != [] {
        ok := HandBatch(job, batch, used, outcomes, begin, ReadRows(job, source, outcomes, ops, |source.rows|), before);
      }
    }

    /** Reads the nodes one after another. */
    method LoadNodes(job: Job, sources: seq<Source>, outcomes: seq<seq<InsertOutcome>>, ghost begin: Moment)
      returns (ok: bool, total: nat)
      requires Progress(start, job, begin, Now(), []) && job.batchSize >= 1
      modifies this`staging, this`sizes, this`log
      ensures ok == ReadNodes(job, sources, outcomes, |sources|).ok
      ensures Progress(start, job, begin, Now(), ReadNodes(job, sources, outcomes, |sources|).ops)
      ensures ok ==> ReadInFull(job, sources) && total == |PrepareNodes(job, sources)|
      ensures ok ==> StoredSomeOf(Stored(ReadNodes(job, sources, outcomes, |sources|).ops), PrepareNodes(job, sources))
    {
      total := 0;
      ghost var given: seq<Row> := [];
      ghost var ops: seq<Op> := [];
      for n := 0 to |sources|
        invariant FirstRead(job, sources, n) && given == PrepareNodes(job, sources[..n]) && total == |given|
        invariant ReadNodes(job, sources, outcomes, n).ok && ReadNodes(job, sources, outcomes, n).ops == ops
        invariant Progress(start, job, begin, Now(), ops) && StoredSomeOf(Stored(ops), given)
      {
        NextNode(job, sources, n);
        var nodeRows;
        ok, nodeRows := LoadNode(job, sources[n], if n < |outcomes| then outcomes[n] else [], begin, ops, given);
        ops := ReadNodes(job, sources, outcomes, n + 1).ops;
        if !ok {
          NodesStayFailed(job, sources, outcomes, n + 1, |sources|);
          return false, total;
        }
        given := given + PrepareAll(job, sources[n].node, sources[n].rows);
        total := total + nodeRows;
      }
      assert sources[..|sources|] == sources;
      ok := true;
    }

    /** The table of a case with what was staged in place of the partition, or without it when nothing was read. */
    method NewTable(job: Job, total: nat) returns (table: seq<Row>)
      requires job.id in staging && |staging[job.id]| == total
      requires AllOfKey(job.kind, staging[job.id], PartitionFor(job))
      ensures table == Published(Table(job.kind), job, staging[job.id])
    {
      var key := PartitionFor(job);
      PublishingStep(World(tables, staging), job, PublishCommand(job, total));
      table := WithoutKey(job.kind, Table(job.kind), key);
      if total > 0 {
        table := table + WithKey(job.kind, staging[job.id], key);
      }
    }

    method PublishPartition(job: Job, total: nat, alter: AlterOutcome) returns (ok: bool)
      requires Valid() && job.id in staging && |staging[job.id]| == total
      requires AllOfKey(job.kind, staging[job.id], PartitionFor(job))
      modifies this`tables, this`log
      ensures Valid() && (ok <==> alter.Applied?)
      ensures log == old(log) + if alter.Refused? then [] else [Step(job.kind, job.id, PublishCommand(job, total))]
      ensures tables == if alter.Refused? then old(tables)
                        else old(tables)[job.kind := Published(old(Table(job.kind)), job, staging[job.id])]
    {
      if alter.Refused? {
        return false;
      }
      var table := NewTable(job, total);
      PublicationRuns(start, log, World(tables, staging), job);
      log := log + [Step(job.kind, job.id, PublishCommand(job, total))];
      tables := tables[job.kind := table];
      ok := alter.Applied?;
    }

    function Table(kind: Case): seq<Row>
      reads this`tables
    {
      if kind in tables then tables[kind] else []
    }

    /** Reads all nodes into the staging table and checks its row count; `counts` tells whether the query for it
        succeeds. */
    method StageNodes(job: Job, sources: seq<Source>, outcomes: seq<seq<InsertOutcome>>, counts: bool)
      returns (ok: bool, total: nat)
      requires Valid() && job.id in staging && staging[job.id] == [] && job.batchSize >= 1
      modifies this`staging, this`sizes, this`log
      ensures Valid() && SizesFit(old(sizes), sizes, job.batchSize)
      ensures var r := ReadNodes(job, sources, outcomes, |sources|);
        && log == old(log) + StepsOf(job, r.ops)
        && (ok <==> r.ok && counts && |Stored(r.ops)| == |PrepareNodes(job, sources)|)
      ensures ok ==> ReadInFull(job, sources) && total == |PrepareNodes(job, sources)|
      ensures ok ==> job.id in staging && staging[job.id] == PrepareNodes(job, sources)
      ensures staging - {job.id} == old(staging) - {job.id}
    {
      GrewNothing(staging, job.id);
      ghost var begin := Now();
      ok, total := LoadNodes(job, sources, outcomes, begin);
      ProgressStages(start, job, begin, Now(), ReadNodes(job, sources, outcomes, |sources|).ops);
      ok := ok && counts && |staging[job.id]| == total;
    }

    /** What a load does once its staging table exists. */
    method StageAndPublish(job: Job, sources: seq<Source>, outcomes: seq<seq<InsertOutcome>>,
                           counts: bool, alter: AlterOutcome)
      returns (r: LoadResult)
      requires Valid() && job.id in staging && staging[job.id] == [] && job.batchSize >= 1
      modifies this`tables, this`staging, this`sizes, this`log
      ensures Valid() && SizesFit(old(sizes), sizes, job.batchSize)
      ensures log == old(log) + StepsOf(job, StageOps(job, sources, outcomes, counts, alter))
      ensures staging - {job.id} == old(staging) - {job.id}
      ensures Outcome(job, sources, alter, old(tables), tables, r)
    {
      StageOpsEnd(job, sources, outcomes, counts, alter);
      var ok, total := StageNodes(job, sources, outcomes, counts);
      if !ok {
        return NotConfirmed;
      }
      NodesShareTheKey(job, sources);
      ok := PublishPartition(job, total, alter);
      r := if ok then Loaded(total) else NotConfirmed;
    }

    method CreateStaging(job: Job)
      requires Valid() && job.id !in staging
      modifies this`staging, this`log
      ensures Valid() && log == old(log) + [Step(job.kind, job.id, Create)]
      ensures job.id in staging && staging[job.id] == [] && staging - {job.id} == old(staging)
    {
      CreationRuns(start, log, World(tables, staging), job);
      CreateStages(World(tables, staging), Step(job.kind, job.id, Create));
      log := log + [Step(job.kind, job.id, Create)];
      staging := staging[job.id := []];
    }

    method RemoveStaging(job: Job)
      requires Valid()
      modifies this`staging, this`log
      ensures Valid() && log == old(log) + [Step(job.kind, job.id, Remove)]
      ensures staging == old(staging) - {job.id}
    {
      RemovalRuns(start, log, World(tables, staging), job);
      log := log + [Step(job.kind, job.id, Remove)];
      staging := staging - {job.id};
    }

    /** A load up to the removal of its staging table. */
    method TryLoad(load: Load) returns (r: LoadResult)
      requires Valid() && load.job.id !in staging && load.job.batchSize >= 1
      modifies this`tables, this`staging, this`sizes, this`log
      ensures Valid() && SizesFit(old(sizes), sizes, load.job.batchSize)
      ensures var staged := StageOps(load.job, load.sources, load.outcomes, load.counts, load.alter);
        log == old(log)
               + if load.creates then [Step(load.job.kind, load.job.id, Create)] + StepsOf(load.job, staged) else []
      ensures Outcome(load.job, load.sources, load.alter, old(tables), tables, r)
      ensures staging - {load.job.id} == old(staging)
    {
      if !load.creates {
        return NotConfirmed;
      }
      CreateStaging(load.job);
      ghost var created := log;
      r := StageAndPublish(load.job, load.sources, load.outcomes, load.counts, load.alter);
      ghost var staged := StepsOf(load.job, StageOps(load.job, load.sources, load.outcomes, load.counts, load.alter));
      assert created + staged == old(log) + ([Step(load.job.kind, load.job.id, Create)] + staged);
    }

    /** All or nothing: a confirmed load makes the partition exactly the prepared rows of all the nodes, and an
        unconfirmed one leaves the tables as they were unless the error was reported for the publication
        itself. Nothing else is touched, whatever the inserts lost on the way. */
    method LoadCase(load: Load) returns (r: LoadResult)
      requires Valid() && load.job.id !in staging && load.job.batchSize >= 1
      modifies this`tables, this`staging, this`sizes, this`log
      ensures Valid() && log == old(log) + LoadSteps(load) && SizesFit(old(sizes), sizes, load.job.batchSize)
      ensures Outcome(load.job, load.sources, load.alter, old(tables), tables, r)
      ensures staging - {load.job.id} == old(staging) && (load.removes ==> load.job.id !in staging)
    {
      r := TryLoad(load);
      LoadStepsEnd(load);
      if load.removes {
        RemoveStaging(load.job);
      }
    }
  }

  /** How a load may end. */
  predicate Outcome(job: Job, sources: seq<Source>, alter: AlterOutcome,
                    before: map<Case, seq<Row>>, after: map<Case, seq<Row>>, r: LoadResult) {
    var table := if job.kind in before then before[job.kind] else [];
    var published := before[job.kind := Published(table, job, PrepareNodes(job, sources))];
    match r
    case Loaded(total) => ReadInFull(job, sources) && total == |PrepareNodes(job, sources)| && after == published
    case NotConfirmed => after == before || (alter.Unclear? && ReadInFull(job, sources) && after == published)
  }
}
