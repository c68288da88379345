/** Decoding of NAT log packets (main.go). */
module PacketParser {
  import opened Options
  import opened Bytes
  import opened Records

  const GENERAL_HEADER_SIZE := 16
  const RECORD_SIZE := 64

  /** Where a packet came from and when; `now` is the clock read when no time is known. */
  datatype Source = Source(routerIp: u32, routerPort: u16, receivedUnixNano: int, now: u32)

  function TimestampWithFallback(primary: u32, packetTimestamp: u32, from: Source): u32 {
    if primary != 0 then primary
    else if packetTimestamp != 0 then packetTimestamp
    else if from.receivedUnixNano > 0 then from.receivedUnixNano / 1_000_000_000 % 0x1_0000_0000
    else from.now
  }

  /** The entry of record `i` of a multi-record packet. */
  function RecordEntry(data: seq<byte>, i: nat, from: Source): NatLogEntry
    requires GENERAL_HEADER_SIZE + (i + 1) * RECORD_SIZE <= |data|
  {
    var at := GENERAL_HEADER_SIZE + i * RECORD_SIZE;
    var packetTimestamp := ReadBe32(data, 4);
    var start := TimestampWithFallback(ReadBe32(data, at + 28), packetTimestamp, from);
    var end := TimestampWithFallback(ReadBe32(data, at + 32), packetTimestamp, from);
    NatLogEntry(end, start, end, from.routerIp, from.routerPort, 0,
                ReadBe32(data, at + 4), ReadBe16(data, at + 20), ReadBe32(data, at + 8), ReadBe16(data, at + 22),
                ReadBe32(data, at + 12), ReadBe16(data, at + 24), |data| % 0x1_0000)
  }

  predicate IsMultiRecord(size: nat) {
    size >= GENERAL_HEADER_SIZE + RECORD_SIZE && (size - GENERAL_HEADER_SIZE) % RECORD_SIZE == 0
  }

  method ParseMultiRecordPacket(data: seq<byte>, from: Source) returns (r: Option<seq<NatLogEntry>>)
    ensures r.Some? <==> IsMultiRecord(|data|)
    ensures r.Some? ==>
      && |data| == GENERAL_HEADER_SIZE + |r.value| * RECORD_SIZE
      && forall i :: 0 <= i < |r.value| ==> r.value[i] == RecordEntry(data, i, from)
  {
    var recordsBytes := |data| - GENERAL_HEADER_SIZE;
    if recordsBytes <= 0 || recordsBytes % RECORD_SIZE != 0 {
      return None;
    }
    var packetTimestamp := ReadBe32(data, 4);
    var totalRecords := recordsBytes / RECORD_SIZE;
    var entries: seq<NatLogEntry> := [];
    for i := 0 to totalRecords
      invariant |entries| == i
      invariant forall j :: 0 <= j < i ==> entries[j] == RecordEntry(data, j, from)
    {
      var at := GENERAL_HEADER_SIZE + i * RECORD_SIZE;
      var record := data[at..at + RECORD_SIZE];
      var start := TimestampWithFallback(ReadBe32(record, 28), packetTimestamp, from);
      var end := TimestampWithFallback(ReadBe32(record, 32), packetTimestamp, from);
      var entry := NatLogEntry(end, start, end, from.routerIp, from.routerPort, 0,
                               ReadBe32(record, 4), ReadBe16(record, 20), ReadBe32(record, 8), ReadBe16(record, 22),
                               ReadBe32(record, 12), ReadBe16(record, 24), |data| % 0x1_0000);
      entries := entries + [entry];
    }
    r := Some(entries);
  }

  function ParseLegacyPacket(data: seq<byte>, from: Source): Option<seq<NatLogEntry>> {
    if |data| < 42 then None
    else
      var time := TimestampWithFallback(ReadBe32(data, 4), 0, from);
      Some([NatLogEntry(time, time, time, from.routerIp, from.routerPort, data[11],
                        ReadBe32(data, 20), ReadBe16(data, 36), ReadBe32(data, 24), ReadBe16(data, 38),
                        ReadBe32(data, 28), ReadBe16(data, 40), |data| % 0x1_0000)])
  }

  /** The entries of a packet, or None where the source reports an error. */
  function Parsed(data: seq<byte>, from: Source): Option<seq<NatLogEntry>> {
    if IsMultiRecord(|data|) then
      Some(seq((|data| - GENERAL_HEADER_SIZE) / RECORD_SIZE,
               i requires 0 <= i < (|data| - GENERAL_HEADER_SIZE) / RECORD_SIZE => RecordEntry(data, i, from)))
    else ParseLegacyPacket(data, from)
  }

  method ParsePacket(data: seq<byte>, from: Source) returns (r: Option<seq<NatLogEntry>>)
    ensures r == Parsed(data, from)
  {
    if |data| < 4 {
      return None;
    }
    if |data| >= GENERAL_HEADER_SIZE + RECORD_SIZE && (|data| - GENERAL_HEADER_SIZE) % RECORD_SIZE == 0 {
      r := ParseMultiRecordPacket(data, from);
      assert r.value == Parsed(data, from).value;
    } else {
      r := ParseLegacyPacket(data, from);
    }
  }

  /** Parsing fails exactly on packets shorter than 42 bytes; any other packet gives one entry per
      64-byte record after the header if it consists of such records, and one entry otherwise. Each
      entry's event time is its end time, so storing it loses nothing. */
  lemma ParseOutcome(data: seq<byte>, from: Source)
    ensures var r := Parsed(data, from);
      && (r.None? <==> |data| < 42)
      && (r.Some? ==>
           Storable(r.value) && |r.value| == if IsMultiRecord(|data|) then (|data| - 16) / 64 else 1)
  {
    if IsMultiRecord(|data|) {
      var entries := Parsed(data, from).value;
      forall e | e in entries ensures e.eventTime == e.endTime {
        var i :| 0 <= i < |entries| && entries[i] == e;
        assert e == RecordEntry(data, i, from);
      }
    }
  }
}
