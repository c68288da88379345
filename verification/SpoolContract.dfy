/** The contract between the two programs: what the collector leaves when it spools a failed batch (main.go)
    and how the replayer reads it back (reprocesador/reprocessor.go, reprocesador/clickhouse_schema.go). */
module SpoolContract {
  import opened Bytes
  import opened Options
  import opened Records
  import opened TableNames

  datatype MetaData = MetaData(schema: int, table: string, rows: int, bytes: int, format: string)

  /** A metadata file whose writing was cut short does not decode. */
  datatype MetaFile = Written(meta: MetaData) | Garbled

  datatype Batch = Batch(table: string, body: seq<byte>, rows: nat)

  const REDUCED_SCHEMA := 2

  function MetaOf(b: Batch): MetaData {
    MetaData(REDUCED_SCHEMA, b.table, b.rows, |b.body|, "RowBinary")
  }

  // ---- Reading a pair ----

  function Lower(c: char): char {
    if 'A' <= c <= 'Z' then c - 'A' + 'a' else c
  }

  predicate EqualFold(a: string, b: string) {
    |a| == |b| && forall i :: 0 <= i < |a| ==> Lower(a[i]) == Lower(b[i])
  }

  function NormalizeSchema(version: int): Option<int> {
    if version == 0 then Some(1) else if version == 1 || version == 2 then Some(version) else None
  }

  datatype Load = NoData | Incomplete | Invalid | Accepted(meta: MetaData)

  function LoadCandidate(file: Option<MetaFile>, size: nat): Load {
    if file.None? then Incomplete
    else if file.value.Garbled? then Invalid
    else
      var meta := file.value.meta;
      var schema := NormalizeSchema(meta.schema);
      if !EqualFold(meta.format, "RowBinary") || schema.None? || !ValidTableName(meta.table) then Invalid
      else if meta.rows <= 0 || meta.bytes <= 0 || size != meta.bytes then Invalid
      else Accepted(meta.(schema := schema.value))
  }

  /** Exactly which pairs are accepted, and as what. */
  lemma AcceptedPairs(file: Option<MetaFile>, size: nat)
    ensures var load := LoadCandidate(file, size);
      && (load.Accepted? <==>
            && file.Some? && file.value.Written?
            && var m := file.value.meta;
               && m.bytes == size > 0 && m.rows > 0 && 0 <= m.schema <= 2
               && EqualFold(m.format, "RowBinary") && ValidTableName(m.table))
      && (load.Accepted? ==>
            load.meta == file.value.meta.(schema := if file.value.meta.schema == 2 then 2 else 1))
      && (load.Incomplete? <==> file.None?) && !load.NoData?
  {
  }

  /** Damage is seen: of what the collector wrote, only a data file of the very size of the batch is accepted. */
  lemma OtherSizesAreRefused(b: Batch, size: nat)
    requires size != |b.body|
    ensures LoadCandidate(Some(Written(MetaOf(b))), size) == Invalid
  {
  }

  // ---- Spooling a batch ----

  /** The steps of spooling, in order. `Create` leaves an empty metadata file that `Fill` completes. */
  datatype Op = Open | Write | Sync | Close | Rename | Create | Fill

  /** Where spooling stopped: an operation failed, or the process died before it. */
  datatype Result = Done | Failed(at: Op) | Died(at: Op)

  class FailedSpool {
    /** The files under `open` and `done`, and the metadata files beside the latter. */
    var partial: map<string, seq<byte>>
    var done: map<string, seq<byte>>
    var metas: map<string, MetaFile>

    function MetaFileOf(name: string): Option<MetaFile>
      reads this`metas
    {
      if name in metas then Some(metas[name]) else None
    }

    /** What the replayer makes of a pair once it is old enough and readable. */
    function Seen(name: string): Load
      reads this`done, this`metas
    {
      if name in done then LoadCandidate(MetaFileOf(name), |done[name]|) else NoData
    }

    predicate StopsAt(op: Op, failing: set<Op>, dies: Option<Op>) {
      op in failing || dies == Some(op)
    }

    constructor ()
      ensures partial == map[] && done == map[] && metas == map[]
    {
      partial, done, metas := map[], map[], map[];
    }

    /** Writes a batch under a new name. Success means the replayer will accept exactly this table, these rows
        and these bytes; stopping before the metadata exists leaves nothing or an incomplete pair, which is
        never quarantined; only a metadata file cut short is. */
    method Spool(name: string, batch: Batch, failing: set<Op>, dies: Option<Op>) returns (r: Result)
      requires name !in partial && name !in done && name !in metas
      modifies this
      ensures forall other :: other != name ==> Seen(other) == old(Seen(other))
      ensures batch.rows == 0 || batch.body == [] ==> r.Done? && done == old(done) && metas == old(metas)
      ensures r.Done? && batch.rows > 0 && batch.body != [] ==>
        && name in done && done[name] == batch.body
        && Seen(name) == (if ValidTableName(batch.table) then Accepted(MetaOf(batch)) else Invalid)
        && (forall size: nat :: size != |batch.body| ==> LoadCandidate(MetaFileOf(name), size).Invalid?)
      ensures !r.Done? ==> Seen(name) == match r.at
        case Create => Incomplete
        case Fill => Invalid
        case _ => NoData
      ensures !r.Done? ==> StopsAt(r.at, failing, dies)
    {
      if batch.rows == 0 || batch.body == [] {
        return Done;
      }
      if dies == Some(Open) {
        return Died(Open);
      }
      if Open in failing {
        return Failed(Open);
      }
      partial := partial[name := []];
      if dies == Some(Write) {
        return Died(Write);
      }
      if Write in failing {
        partial := partial - {name};
        return Failed(Write);
      }
      partial := partial[name := batch.body];
      if dies == Some(Sync) || dies == Some(Close) {
        return Died(dies.value);
      }
      if Sync in failing || Close in failing {
        partial := partial - {name};
        return Failed(if Sync in failing then Sync else Close);
      }
      r := Publish(name, batch, failing, dies);
    }

    /** Renames the data into `done` and writes its metadata. */
    method Publish(name: string, batch: Batch, failing: set<Op>, dies: Option<Op>) returns (r: Result)
      requires name in partial && partial[name] == batch.body && name !in done && name !in metas
      requires batch.rows > 0 && batch.body != []
      modifies this
      ensures forall other :: other != name ==> Seen(other) == old(Seen(other))
      ensures r.Done? ==>
        && name in done && done[name] == batch.body
        && Seen(name) == (if ValidTableName(batch.table) then Accepted(MetaOf(batch)) else Invalid)
        && (forall size: nat :: size != |batch.body| ==> LoadCandidate(MetaFileOf(name), size).Invalid?)
      ensures !r.Done? ==> Seen(name) == match r.at
        case Create => Incomplete
        case Fill => Invalid
        case _ => NoData
      ensures !r.Done? ==> StopsAt(r.at, failing, dies)
    {
      if dies == Some(Rename) {
        return Died(Rename);
      }
      if Rename in failing {
        partial := partial - {name};
        return Failed(Rename);
      }
      done := done[name := partial[name]];
      partial := partial - {name};
      if dies == Some(Create) {
        return Died(Create);
      }
      if Create in failing {
        return Failed(Create);
      }
      metas := metas[name := Garbled];
      if dies == Some(Fill) {
        return Died(Fill);
      }
      if Fill in failing {
        return Failed(Fill);
      }
      metas := metas[name := Written(MetaOf(batch))];
      r := Done;
    }
  }

  /** Data that was cut, lengthened or replaced by data of another length after the spooling is quarantined. */
  lemma TamperedDataIsInvalid(b: Batch, done: map<string, seq<byte>>, name: string, spool: FailedSpool)
    requires spool.done == done && name in done && name in spool.metas && spool.metas[name] == Written(MetaOf(b))
    requires |done[name]| != |b.body|
    ensures spool.Seen(name) == Invalid
  {
    OtherSizesAreRefused(b, |done[name]|);
  }

  /** End to end: a batch of parsed entries for a daily table of a valid base, once spooled, is accepted with
      its table, rows and bytes, and its data decodes to the entries. */
  lemma SpooledBatchIsReplayed(base: string, daily: bool, day: string, entries: seq<NatLogEntry>)
    requires ValidTableName(base) && IsDay(day) && entries != [] && Storable(entries)
    ensures var body := EncodeAll(entries);
      var b := Batch(DailyTableName(base, daily, day), body, |entries|);
      && LoadCandidate(Some(Written(MetaOf(b))), |body|)
         == Accepted(MetaData(2, b.table, |entries|, 35 * |entries|, "RowBinary"))
      && |body| == ROW_BYTES * |entries| && DecodeAll(body) == entries
  {
    DailyNameStaysValid(base, daily, day);
    BatchRoundTrip(entries);
  }
}
