/** NAT log entries and their RowBinary encoding (main.go). */
module Records {
  import opened Bytes

  datatype NatLogEntry = NatLogEntry(
    eventTime: u32, startTime: u32, endTime: u32, routerIp: u32, routerPort: u16, protocolId: byte,
    privateIp: u32, privatePort: u16, publicIp: u32, publicPort: u16,
    destinationIp: u32, destinationPort: u16, packetSize: u16)

  const ROW_BYTES := 35

  /** One row, little-endian, columns in table order; the event time is not stored. */
  function EncodeRow(e: NatLogEntry): (row: seq<byte>)
    ensures |row| == ROW_BYTES
  {
    Le32(e.startTime) + Le32(e.endTime) + Le32(e.routerIp) + Le16(e.routerPort) + [e.protocolId]
    + Le32(e.privateIp) + Le16(e.privatePort) + Le32(e.publicIp) + Le16(e.publicPort)
    + Le32(e.destinationIp) + Le16(e.destinationPort) + Le16(e.packetSize)
  }

  /** The entry a reader of the table's columns gets back; its event time is its end time. */
  function DecodeRow(row: seq<byte>): NatLogEntry
    requires |row| == ROW_BYTES
  {
    NatLogEntry(
      ReadLe32(row, 4), ReadLe32(row, 0), ReadLe32(row, 4), ReadLe32(row, 8), ReadLe16(row, 12), row[14],
      ReadLe32(row, 15), ReadLe16(row, 19), ReadLe32(row, 21), ReadLe16(row, 25),
      ReadLe32(row, 27), ReadLe16(row, 31), ReadLe16(row, 33))
  }

  predicate AreRows(rows: seq<seq<byte>>) {
    forall i :: 0 <= i < |rows| ==> |rows[i]| == ROW_BYTES
  }

  function Flatten(rows: seq<seq<byte>>): seq<byte> {
    if rows == [] then [] else Flatten(rows[..|rows| - 1]) + rows[|rows| - 1]
  }

  /** The rows a body consists of. */
  function Chunks(body: seq<byte>): (rows: seq<seq<byte>>)
    requires |body| % ROW_BYTES == 0
    ensures AreRows(rows)
    decreases |body|
  {
    if body == [] then []
    else
      var cut := |body| - ROW_BYTES;
      Chunks(body[..cut]) + [body[cut..]]
  }

  function Rows(entries: seq<NatLogEntry>): (rows: seq<seq<byte>>)
    ensures AreRows(rows)
  {
    seq(|entries|, i requires 0 <= i < |entries| => EncodeRow(entries[i]))
  }

  /** The body of a batch: its rows one after another. */
  function EncodeAll(entries: seq<NatLogEntry>): seq<byte> {
    Flatten(Rows(entries))
  }

  function DecodeAll(body: seq<byte>): seq<NatLogEntry>
    requires |body| % ROW_BYTES == 0
  {
    var rows := Chunks(body);
    seq(|rows|, i requires 0 <= i < |rows| => DecodeRow(rows[i]))
  }

  lemma Read32(row: seq<byte>, at: nat, n: u32)
    requires at + 4 <= |row| && row[at..at + 4] == Le32(n)
    ensures ReadLe32(row, at) == n
  {
    var word := row[at..at + 4];
    assert row[at] == word[0] && row[at + 1] == word[1] && row[at + 2] == word[2] && row[at + 3] == word[3];
    assert row[at] == Byte(n) && row[at + 1] == Byte(n / 0x100);
    assert row[at + 2] == Byte(n / 0x1_0000) && row[at + 3] == Byte(n / 0x100_0000);
    Split32(n);
  }

  lemma Read16(row: seq<byte>, at: nat, n: u16)
    requires at + 2 <= |row| && row[at..at + 2] == Le16(n)
    ensures ReadLe16(row, at) == n
  {
    var word := row[at..at + 2];
    assert row[at] == word[0] && row[at + 1] == word[1];
    assert row[at] == Byte(n) && row[at + 1] == Byte(n / 0x100);
  }

  lemma LeftColumns(e: NatLogEntry)
    ensures var row := EncodeRow(e);
      && row[0..4] == Le32(e.startTime) && row[4..8] == Le32(e.endTime) && row[8..12] == Le32(e.routerIp)
      && row[12..14] == Le16(e.routerPort) && row[14] == e.protocolId && row[15..19] == Le32(e.privateIp)
  {
  }

  lemma RightColumns(e: NatLogEntry)
    ensures var row := EncodeRow(e);
      && row[19..21] == Le16(e.privatePort) && row[21..25] == Le32(e.publicIp) && row[25..27] == Le16(e.publicPort)
      && row[27..31] == Le32(e.destinationIp) && row[31..33] == Le16(e.destinationPort)
      && row[33..35] == Le16(e.packetSize)
  {
  }

  /** A stored row read back is the entry, up to the event time. */
  lemma RowRoundTrip(e: NatLogEntry)
    ensures DecodeRow(EncodeRow(e)) == e.(eventTime := e.endTime)
  {
    var row := EncodeRow(e);
    LeftColumns(e);
    RightColumns(e);
    Read32(row, 0, e.startTime);
    Read32(row, 4, e.endTime);
    Read32(row, 8, e.routerIp);
    Read16(row, 12, e.routerPort);
    Read32(row, 15, e.privateIp);
    Read16(row, 19, e.privatePort);
    Read32(row, 21, e.publicIp);
    Read16(row, 25, e.publicPort);
    Read32(row, 27, e.destinationIp);
    Read16(row, 31, e.destinationPort);
    Read16(row, 33, e.packetSize);
  }

  predicate Storable(entries: seq<NatLogEntry>) {
    forall e :: e in entries ==> e.eventTime == e.endTime
  }

  lemma {:induction false} FlattenLength(rows: seq<seq<byte>>)
    requires AreRows(rows)
    ensures |Flatten(rows)| == ROW_BYTES * |rows|
  {
    if rows != [] {
      FlattenLength(rows[..|rows| - 1]);
    }
  }

  lemma {:induction false} ChunksOfFlatten(rows: seq<seq<byte>>)
    requires AreRows(rows)
    ensures |Flatten(rows)| % ROW_BYTES == 0 && Chunks(Flatten(rows)) == rows
    decreases |rows|
  {
    FlattenLength(rows);
    if rows != [] {
      var init, last := rows[..|rows| - 1], rows[|rows| - 1];
      ChunksOfFlatten(init);
      var body := Flatten(rows);
      assert body[..|body| - ROW_BYTES] == Flatten(init) && body[|body| - ROW_BYTES..] == last;
    }
  }

  /** The stored body has one row per entry and decodes to the entries, in order. */
  predicate StoredFaithfully(entries: seq<NatLogEntry>) {
    var body := EncodeAll(entries);
    |body| == ROW_BYTES * |entries| && DecodeAll(body) == entries
  }

  lemma BatchRoundTrip(entries: seq<NatLogEntry>)
    requires Storable(entries)
    ensures StoredFaithfully(entries)
  {
    FlattenLength(Rows(entries));
    ChunksOfFlatten(Rows(entries));
    forall i | 0 <= i < |entries|
      ensures DecodeRow(Rows(entries)[i]) == entries[i]
    {
      assert entries[i] in entries;
      RowRoundTrip(entries[i]);
    }
  }

  lemma {:induction false} FlattenConcat(a: seq<seq<byte>>, b: seq<seq<byte>>)
    ensures Flatten(a + b) == Flatten(a) + Flatten(b)
    decreases |b|
  {
    if b == [] {
      assert a + b == a;
    } else {
      assert (a + b)[..|a + b| - 1] == a + b[..|b| - 1];
      FlattenConcat(a, b[..|b| - 1]);
    }
  }

  lemma EncodeAllConcat(a: seq<NatLogEntry>, b: seq<NatLogEntry>)
    ensures EncodeAll(a + b) == EncodeAll(a) + EncodeAll(b)
  {
    assert Rows(a + b) == Rows(a) + Rows(b);
    FlattenConcat(Rows(a), Rows(b));
  }
}
