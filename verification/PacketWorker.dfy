/** A packet worker: parses packets, keeps one pending RowBinary batch per daily table and hands batches
    off (main.go). Proved to append, per table, to one stream that decodes to what was parsed. */
module PacketWorkers {
  import opened Bytes
  import opened Options
  import opened Records
  import opened PacketParser
  import opened CohortTrackers

  // ---- Daily tables ----

  const LIMA_OFFSET := 5 * 60 * 60

  /** The base table, and the civil day in Lima when tables are daily. */
  datatype Table = Table(base: string, day: Option<int>)

  function DailyTable(base: string, daily: bool, eventUnix: u32): Table {
    Table(base, if daily then Some((eventUnix - LIMA_OFFSET) / 86400) else None)
  }

  /** The table of an instant is that of its civil day in Lima: the UTC day, or before five o'clock UTC the day before. */
  lemma DayIsLimas(base: string, eventUnix: u32)
    ensures var utcDay, hour := eventUnix / 86400, eventUnix % 86400 / 3600;
      DailyTable(base, true, eventUnix) == Table(base, Some(if hour < 5 then utcDay - 1 else utcDay))
    ensures DailyTable(base, false, eventUnix) == Table(base, None)
  {
  }

  // ---- Batches ----

  datatype PendingBatch = PendingBatch(body: seq<byte>, rows: nat, cohorts: seq<InsertCohort>)

  const NewPending: PendingBatch := PendingBatch([], 0, [])

  datatype InsertBatch = InsertBatch(table: Table, body: seq<byte>, rows: nat, cohorts: seq<InsertCohort>)

  /** Where a flushed batch went: the insert queue, or after a refusal the failed spool, or nowhere. */
  datatype Outcome = Sent | Spooled | SpoolFailed

  datatype HandOff = HandOff(batch: InsertBatch, outcome: Outcome)

  /** A parsed entry and the second its packet was received. */
  datatype Logged = Logged(entry: NatLogEntry, second: int)

  // ---- The streams of one worker ----

  function HandedBytes(handed: seq<HandOff>, t: Table): seq<byte> {
    if handed == [] then []
    else
      var b := handed[|handed| - 1].batch;
      HandedBytes(handed[..|handed| - 1], t) + if b.table == t then b.body else []
  }

  function HandedRows(handed: seq<HandOff>, t: Table, lo: int, hi: int): nat {
    if handed == [] then 0
    else
      var b := handed[|handed| - 1].batch;
      HandedRows(handed[..|handed| - 1], t, lo, hi) + if b.table == t then CohortRows(b.cohorts, lo, hi) else 0
  }

  /** What was parsed for table `t`, in order. */
  function EntriesOf(log: seq<Logged>, base: string, daily: bool, t: Table): seq<NatLogEntry> {
    if log == [] then []
    else
      var e := log[|log| - 1].entry;
      EntriesOf(log[..|log| - 1], base, daily, t) + if DailyTable(base, daily, e.eventTime) == t then [e] else []
  }

  function RowsOf(log: seq<Logged>, base: string, daily: bool, t: Table, lo: int, hi: int): nat {
    if log == [] then 0
    else
      var l := log[|log| - 1];
      RowsOf(log[..|log| - 1], base, daily, t, lo, hi)
      + if DailyTable(base, daily, l.entry.eventTime) == t && lo <= l.second <= hi then 1 else 0
  }

  lemma EncodeSnoc(entries: seq<NatLogEntry>, e: NatLogEntry)
    ensures EncodeAll(entries + [e]) == EncodeAll(entries) + EncodeRow(e)
  {
    EncodeAllConcat(entries, [e]);
    assert Rows([e]) == [EncodeRow(e)];
    assert Flatten([EncodeRow(e)]) == Flatten([]) + EncodeRow(e);
  }

  lemma {:induction false} EntriesAreStorable(log: seq<Logged>, base: string, daily: bool, t: Table)
    requires forall i :: 0 <= i < |log| ==> log[i].entry.eventTime == log[i].entry.endTime
    ensures Storable(EntriesOf(log, base, daily, t))
    ensures forall e :: e in EntriesOf(log, base, daily, t) ==> DailyTable(base, daily, e.eventTime) == t
  {
    if log != [] {
      EntriesAreStorable(log[..|log| - 1], base, daily, t);
    }
  }

  /** A parsed entry extends the stream of its own table and no other. */
  lemma StreamGrows(handed: seq<HandOff>, body: seq<byte>, log: seq<Logged>, l: Logged, base: string, daily: bool, t: Table)
    requires HandedBytes(handed, t) + body == EncodeAll(EntriesOf(log, base, daily, t))
    ensures var grown := if DailyTable(base, daily, l.entry.eventTime) == t then body + EncodeRow(l.entry) else body;
      HandedBytes(handed, t) + grown == EncodeAll(EntriesOf(log + [l], base, daily, t))
  {
    assert (log + [l])[..|log|] == log;
    var before := EntriesOf(log, base, daily, t);
    if DailyTable(base, daily, l.entry.eventTime) == t {
      EncodeSnoc(before, l.entry);
      Regroup(HandedBytes(handed, t), body, EncodeRow(l.entry), EncodeAll(before));
    } else {
      assert EntriesOf(log + [l], base, daily, t) == before + [] == before;
    }
  }

  lemma Regroup(a: seq<byte>, b: seq<byte>, row: seq<byte>, c: seq<byte>)
    requires a + b == c
    ensures a + (b + row) == c + row
  {
  }

  lemma RowsGrow(log: seq<Logged>, l: Logged, base: string, daily: bool, t: Table, lo: int, hi: int)
    ensures RowsOf(log + [l], base, daily, t, lo, hi) == RowsOf(log, base, daily, t, lo, hi)
      + if DailyTable(base, daily, l.entry.eventTime) == t && lo <= l.second <= hi then 1 else 0
  {
    assert (log + [l])[..|log|] == log;
  }

  /** A hand-off of what was pending for its table, to where that table's batch goes. */
  predicate FlushedFrom(pending: map<Table, PendingBatch>, outcomes: map<Table, Outcome>, h: HandOff) {
    var t := h.batch.table;
    && t in pending && t in outcomes && pending[t].rows > 0
    && h == HandOff(InsertBatch(t, pending[t].body, pending[t].rows, pending[t].cohorts), outcomes[t])
  }

  class PacketWorker {
    const base: string
    const daily: bool
    const maxRows: nat
    const maxBytes: nat

    var pending: map<Table, PendingBatch>
    var parsed: nat
    var parseErrors: nat

    ghost var log: seq<Logged>
    ghost var handed: seq<HandOff>

    function Pending(t: Table): PendingBatch
      reads this`pending
    {
      if t in pending then pending[t] else NewPending
    }

    /** Everything handed off for `t` and what is pending make up the stream of `t`. */
    ghost predicate StreamOk(t: Table)
      reads this`pending, this`log, this`handed
    {
      HandedBytes(handed, t) + Pending(t).body == EncodeAll(EntriesOf(log, base, daily, t))
    }

    /** The cohorts of its batches count, per window of reception, the rows parsed for `t`. */
    ghost predicate CohortsOk(t: Table, lo: int, hi: int)
      reads this`pending, this`log, this`handed
    {
      HandedRows(handed, t, lo, hi) + CohortRows(Pending(t).cohorts, lo, hi) == RowsOf(log, base, daily, t, lo, hi)
    }

    ghost predicate Valid()
      reads this`pending, this`parsed, this`log, this`handed
    {
      && maxRows >= 1 && maxBytes >= 1
      && parsed == |log|
      && (forall i :: 0 <= i < |log| ==> log[i].entry.eventTime == log[i].entry.endTime)
      && (forall t :: StreamOk(t))
      && (forall t, lo, hi :: CohortsOk(t, lo, hi))
      && (forall t :: t in pending ==> |pending[t].body| == ROW_BYTES * pending[t].rows)
      && (forall i :: 0 <= i < |handed| ==>
            handed[i].batch.rows > 0 && |handed[i].batch.body| == ROW_BYTES * handed[i].batch.rows)
    }

    /** Between events every pending batch is below both limits. */
    ghost predicate BelowLimits()
      reads this`pending
    {
      forall t :: t in pending ==> pending[t].rows < maxRows && |pending[t].body| < maxBytes
    }

    /** Between flushes only a batch that has just reached a limit is handed off, by its last row. */
    predicate AtLimit(b: InsertBatch) {
      && (b.rows >= maxRows || |b.body| >= maxBytes)
      && b.rows - 1 < maxRows && |b.body| - ROW_BYTES < maxBytes
    }

    constructor (base: string, daily: bool, maxRows: nat, maxBytes: nat)
      requires maxRows >= 1 && maxBytes >= 1
      ensures Valid() && BelowLimits() && log == [] && handed == []
      ensures this.base == base && this.daily == daily && this.maxRows == maxRows && this.maxBytes == maxBytes
    {
      this.base, this.daily, this.maxRows, this.maxBytes := base, daily, maxRows, maxBytes;
      pending, parsed, parseErrors := map[], 0, 0;
      log, handed := [], [];
      new;
      assert EncodeAll([]) == [] by { assert Rows([]) == []; }
    }

    method FlushTable(t: Table, outcome: Outcome)
      requires Valid()
      modifies this`pending, this`handed
      ensures Valid()
      ensures var b := old(Pending(t));
        && handed == old(handed) + (if b.rows == 0 then [] else [HandOff(InsertBatch(t, b.body, b.rows, b.cohorts), outcome)])
        && pending == if b.rows == 0 then old(pending) else old(pending)[t := NewPending]
    {
      var batch := Pending(t);
      if batch.rows == 0 {
        return;
      }
      handed := handed + [HandOff(InsertBatch(t, batch.body, batch.rows, batch.cohorts), outcome)];
      pending := pending[t := NewPending];
      assert handed[..|handed| - 1] == old(handed);
      forall u ensures StreamOk(u) {
        assert old(StreamOk(u));
      }
      forall u, lo, hi ensures CohortsOk(u, lo, hi) {
        assert old(CohortsOk(u, lo, hi));
      }
    }

    /** Flushes every table; `outcomes` tells where the batch of each goes. */
    method FlushAll(outcomes: map<Table, Outcome>)
      requires Valid() && pending.Keys <= outcomes.Keys
      modifies this`pending, this`handed
      ensures Valid()
      ensures forall t :: Pending(t).rows == 0
      ensures |handed| >= |old(handed)| && handed[..|old(handed)|] == old(handed)
      ensures forall i :: |old(handed)| <= i < |handed| ==> FlushedFrom(old(pending), outcomes, handed[i])
    {
      var tables := pending.Keys;
      while tables != {}
        invariant Valid()
        invariant forall t :: t !in tables ==> Pending(t).rows == 0
        invariant |handed| >= |old(handed)| && handed[..|old(handed)|] == old(handed)
        invariant tables <= old(pending).Keys && forall t :: t in tables ==> t in pending && pending[t] == old(pending)[t]
        invariant forall i :: |old(handed)| <= i < |handed| ==> FlushedFrom(old(pending), outcomes, handed[i])
        decreases tables
      {
        var t :| t in tables;
        FlushTable(t, outcomes[t]);
        tables := tables - {t};
      }
    }

    method AppendEntry(entry: NatLogEntry, second: int) returns (t: Table)
      requires Valid() && entry.eventTime == entry.endTime
      modifies this`pending, this`parsed, this`log
      ensures Valid() && log == old(log) + [Logged(entry, second)]
      ensures t == DailyTable(base, daily, entry.eventTime)
      ensures pending == old(pending)[t := Pending(t)] && Pending(t).rows == old(Pending(t)).rows + 1
    {
      t := DailyTable(base, daily, entry.eventTime);
      var batch := Pending(t);
      var cohorts := AddInsertCohort(batch.cohorts, second, 1);
      pending := pending[t := PendingBatch(batch.body + EncodeRow(entry), batch.rows + 1, cohorts)];
      parsed := parsed + 1;
      ghost var l := Logged(entry, second);
      log := log + [l];
      forall u ensures StreamOk(u) {
        assert old(StreamOk(u));
        StreamGrows(handed, old(Pending(u)).body, old(log), l, base, daily, u);
      }
      forall u, lo, hi ensures CohortsOk(u, lo, hi) {
        assert old(CohortsOk(u, lo, hi));
        RowsGrow(old(log), l, base, daily, u, lo, hi);
      }
    }

    /** Adds every entry of a packet, flushing a table's batch as soon as it reaches a limit. */
    method AddEntries(entries: seq<NatLogEntry>, second: int, outcomes: seq<Outcome>)
      requires Valid() && BelowLimits() && Storable(entries) && |outcomes| == |entries|
      modifies this`pending, this`parsed, this`log, this`handed
      ensures Valid() && BelowLimits()
      ensures log == old(log) + seq(|entries|, i requires 0 <= i < |entries| => Logged(entries[i], second))
      ensures |handed| >= |old(handed)| && handed[..|old(handed)|] == old(handed)
      ensures forall i :: |old(handed)| <= i < |handed| ==> AtLimit(handed[i].batch)
    {
      for i := 0 to |entries|
        invariant Valid() && BelowLimits()
        invariant log == old(log) + seq(i, j requires 0 <= j < i => Logged(entries[j], second))
        invariant |handed| >= |old(handed)| && handed[..|old(handed)|] == old(handed)
        invariant forall i :: |old(handed)| <= i < |handed| ==> AtLimit(handed[i].batch)
      {
        assert entries[i] in entries;
        var t := AppendEntry(entries[i], second);
        if Pending(t).rows >= maxRows || |Pending(t).body| >= maxBytes {
          FlushTable(t, outcomes[i]);
        }
      }
    }

    /** One packet: what it parses to is added, or the error is counted. */
    method HandlePacket(data: seq<byte>, from: Source, outcomes: seq<Outcome>)
      requires Valid() && BelowLimits()
      requires Parsed(data, from).Some? ==> |outcomes| == |Parsed(data, from).value|
      modifies this
      ensures Valid() && BelowLimits()
      ensures var entries := if Parsed(data, from).Some? then Parsed(data, from).value else [];
        log == old(log) + seq(|entries|, i requires 0 <= i < |entries| => Logged(entries[i], from.receivedUnixNano / 1_000_000_000))
      ensures parseErrors == old(parseErrors) + if Parsed(data, from).None? then 1 else 0
      ensures |handed| >= |old(handed)| && handed[..|old(handed)|] == old(handed)
      ensures forall i :: |old(handed)| <= i < |handed| ==> AtLimit(handed[i].batch)
    {
      var entries := ParsePacket(data, from);
      ParseOutcome(data, from);
      if entries.None? {
        parseErrors := parseErrors + 1;
      } else {
        AddEntries(entries.value, from.receivedUnixNano / 1_000_000_000, outcomes);
      }
    }

    /** Decoding everything handed off for a table followed by its pending body gives exactly what was
        parsed for that table's day: in order, nothing lost, repeated or mixed in. */
    lemma StreamDecodes(t: Table)
      requires Valid()
      ensures var stream := HandedBytes(handed, t) + Pending(t).body; var entries := EntriesOf(log, base, daily, t);
        && |stream| == ROW_BYTES * |entries| && DecodeAll(stream) == entries
        && (forall e :: e in entries ==> DailyTable(base, daily, e.eventTime) == t)
    {
      assert StreamOk(t);
      EntriesAreStorable(log, base, daily, t);
      BatchRoundTrip(EntriesOf(log, base, daily, t));
      assert StoredFaithfully(EntriesOf(log, base, daily, t));
    }
  }
}
