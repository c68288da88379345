/** The traffic simulator (cmd/udp-simulator/main.go) against the collector's parser and encoder. */
module Simulator {
  import opened Bytes
  import opened Options
  import opened Records
  import opened PacketParser

  datatype Mode = Legacy | Multi

  datatype Config = Config(mode: Mode, header: seq<byte>, records: nat, protocol: byte)

  function PacketSize(cfg: Config): nat {
    if cfg.mode.Multi? then GENERAL_HEADER_SIZE + cfg.records * RECORD_SIZE else 42
  }

  const SEQUENCES := 0x1_0000_0000_0000_0000

  /** The addresses and ports of one generated translation. */
  datatype Flow = Flow(privateIp: u32, privatePort: u16, publicIp: u32, publicPort: u16)

  const DestinationIp: u32 := Be32(8, 8, 8, 8)

  /** What a sequence number stands for. */
  function FlowOf(sequence: nat): Flow {
    Flow(Be32(10, Byte(sequence / 0x1_0000), Byte(sequence / 0x100), Byte(sequence)), 1024 + sequence % 50000,
         Be32(200, 1, Byte(sequence / 0x100), Byte(sequence)), 20000 + sequence % 40000)
  }

  lemma LowBits(n: nat, q: nat, r: nat)
    ensures r < 65536 && n == 65536 * q + r ==> n % 65536 == r
    ensures r < 16777216 && n == 16777216 * q + r ==> n % 16777216 == r
  {
  }

  lemma LowBytes(n: nat, a: nat, b: nat, c: nat, rest: nat)
    requires a < 256 && b < 256 && c < 256 && n == rest * 16777216 + a * 65536 + b * 256 + c
    ensures n % 16777216 == a * 65536 + b * 256 + c && n % 65536 == b * 256 + c
  {
    LowBits(n, rest, a * 65536 + b * 256 + c);
    LowBits(n, rest * 256 + a, b * 256 + c);
  }

  /** The three low bytes of a number, and what is above them. */
  lemma BytesOf(n: nat)
    ensures n % 16777216 == Byte(n / 0x1_0000) * 65536 + Byte(n / 0x100) * 256 + Byte(n)
    ensures n % 65536 == Byte(n / 0x100) * 256 + Byte(n)
  {
    assert n / 0x1_0000 == n / 0x100 / 0x100;
    LowBytes(n, Byte(n / 0x1_0000), Byte(n / 0x100), Byte(n), n / 0x1_0000 / 0x100);
  }

  /** The addresses of a flow: a private one in 10.0.0.0/8 with the low 24 bits of the sequence number and a public one in
      200.1.0.0/16 with the low 16. */
  lemma AddressesAreNumbered(sequence: nat)
    ensures FlowOf(sequence).privateIp == 167772160 + sequence % 16777216
    ensures FlowOf(sequence).publicIp == 3355508736 + sequence % 65536
  {
    BytesOf(sequence);
  }

  lemma PortsAreNumbered(sequence: nat)
    ensures 1024 <= FlowOf(sequence).privatePort < 51024 && FlowOf(sequence).privatePort - 1024 == sequence % 50000
    ensures 20000 <= FlowOf(sequence).publicPort < 60000 && FlowOf(sequence).publicPort - 20000 == sequence % 40000
  {
  }

  lemma NumbersApart(a: nat, b: nat)
    requires a < b < a + 16777216
    ensures a % 16777216 != b % 16777216
  {
  }

  /** Different private addresses for any two sequence numbers less than 2^24 apart. */
  lemma FlowsAreDistinct(a: nat, b: nat)
    requires a < b < a + 16777216
    ensures FlowOf(a).privateIp != FlowOf(b).privateIp
  {
    AddressesAreNumbered(a);
    AddressesAreNumbered(b);
    NumbersApart(a, b);
  }

  /** The flow of record `i` of a packet; sequence numbers wrap at 64 bits. */
  function RecordFlow(sequence: nat, i: nat): Flow {
    FlowOf((sequence + i) % SEQUENCES)
  }

  /** The entry the collector should store for one generated translation. */
  function Expected(flow: Flow, now: u32, protocol: byte, size: u16, from: Source): NatLogEntry {
    NatLogEntry(now, now, now, from.routerIp, from.routerPort, protocol, flow.privateIp, flow.privatePort,
                flow.publicIp, flow.publicPort, DestinationIp, 443, size)
  }

  // ---- Writing into the shared buffer ----

  method WriteIpv4(packet: array<byte>, at: nat, a: byte, b: byte, c: byte, d: byte)
    requires at + 4 <= packet.Length
    modifies packet
    ensures ReadBe32(packet[..], at) == Be32(a, b, c, d)
    ensures forall j :: 0 <= j < packet.Length && !(at <= j < at + 4) ==> packet[j] == old(packet[j])
  {
    packet[at], packet[at + 1], packet[at + 2], packet[at + 3] := a, b, c, d;
  }

  method PutBe16(packet: array<byte>, at: nat, n: u16)
    requires at + 2 <= packet.Length
    modifies packet
    ensures ReadBe16(packet[..], at) == n
    ensures forall j :: 0 <= j < packet.Length && !(at <= j < at + 2) ==> packet[j] == old(packet[j])
  {
    packet[at], packet[at + 1] := Byte(n / 0x100), Byte(n);
  }

  method PutBe32(packet: array<byte>, at: nat, n: u32)
    requires at + 4 <= packet.Length
    modifies packet
    ensures ReadBe32(packet[..], at) == n
    ensures forall j :: 0 <= j < packet.Length && !(at <= j < at + 4) ==> packet[j] == old(packet[j])
  {
    Split32(n);
    WriteIpv4(packet, at, Byte(n / 0x100_0000), Byte(n / 0x1_0000), Byte(n / 0x100), Byte(n));
  }

  /** Addresses and ports stand at `at`, `at + 4`, `at + 8` and at `ports`, `ports + 2`, `ports + 4`. */
  predicate Describes(data: seq<byte>, at: nat, ports: nat, flow: Flow)
    requires at + 12 <= |data| && ports + 6 <= |data|
  {
    && ReadBe32(data, at) == flow.privateIp
    && ReadBe32(data, at + 4) == flow.publicIp
    && ReadBe32(data, at + 8) == DestinationIp
    && ReadBe16(data, ports) == flow.privatePort
    && ReadBe16(data, ports + 2) == flow.publicPort
    && ReadBe16(data, ports + 4) == 443
  }

  method WriteAddresses(packet: array<byte>, at: nat, ports: nat, sequence: nat)
    requires at + 12 <= ports && ports + 6 <= packet.Length
    modifies packet
    ensures Describes(packet[..], at, ports, FlowOf(sequence))
    ensures forall j :: 0 <= j < packet.Length && !(at <= j < at + 12) && !(ports <= j < ports + 6)
              ==> packet[j] == old(packet[j])
  {
    WriteIpv4(packet, at, 10, Byte(sequence / 0x1_0000), Byte(sequence / 0x100), Byte(sequence));
    WriteIpv4(packet, at + 4, 200, 1, Byte(sequence / 0x100), Byte(sequence));
    WriteIpv4(packet, at + 8, 8, 8, 8, 8);
    PutBe16(packet, ports, 1024 + sequence % 50000);
    PutBe16(packet, ports + 2, 20000 + sequence % 40000);
    PutBe16(packet, ports + 4, 443);
  }

  predicate IsRecord(data: seq<byte>, at: nat, flow: Flow, now: u32)
    requires at + RECORD_SIZE <= |data|
  {
    && Describes(data, at + 4, at + 20, flow)
    && ReadBe32(data, at + 28) == now && ReadBe32(data, at + 32) == now
  }

  method FillNatRecord(packet: array<byte>, at: nat, sequence: nat, now: u32)
    requires at + RECORD_SIZE <= packet.Length
    modifies packet
    ensures IsRecord(packet[..], at, FlowOf(sequence), now)
    ensures forall j :: 0 <= j < packet.Length && !(at <= j < at + RECORD_SIZE) ==> packet[j] == old(packet[j])
  {
    for i := 0 to RECORD_SIZE
      invariant forall j :: 0 <= j < packet.Length && !(at <= j < at + RECORD_SIZE) ==> packet[j] == old(packet[j])
    {
      packet[at + i] := 0;
    }
    WriteAddresses(packet, at + 4, at + 20, sequence);
    PutBe32(packet, at + 28, now);
    PutBe32(packet, at + 32, now);
  }

  /** What the parser relies on in a generated packet. */
  predicate IsPacket(cfg: Config, data: seq<byte>, sequence: nat, now: u32)
    requires |data| == PacketSize(cfg)
  {
    && ReadBe32(data, 4) == now
    && (cfg.mode.Multi? ==> forall i: nat :: i < cfg.records ==>
          IsRecord(data, GENERAL_HEADER_SIZE + i * RECORD_SIZE, RecordFlow(sequence, i), now))
    && (cfg.mode.Legacy? ==> data[11] == cfg.protocol && Describes(data, 20, 36, FlowOf(sequence)))
  }

  lemma RecordFrame(a: seq<byte>, b: seq<byte>, at: nat, flow: Flow, now: u32)
    requires at + RECORD_SIZE <= |a| == |b| && a[at..at + RECORD_SIZE] == b[at..at + RECORD_SIZE]
    ensures IsRecord(a, at, flow, now) == IsRecord(b, at, flow, now)
  {
    assert forall j :: at <= j < at + RECORD_SIZE ==> a[j] == a[at..at + RECORD_SIZE][j - at];
    assert forall j :: at <= j < at + RECORD_SIZE ==> b[j] == b[at..at + RECORD_SIZE][j - at];
  }

  method FillRecords(packet: array<byte>, records: nat, sequence: nat, now: u32)
    requires packet.Length == GENERAL_HEADER_SIZE + records * RECORD_SIZE
    modifies packet
    ensures packet[..8] == old(packet[..8])
    ensures forall k: nat :: k < records ==>
      IsRecord(packet[..], GENERAL_HEADER_SIZE + k * RECORD_SIZE, RecordFlow(sequence, k), now)
  {
    for i := 0 to records
      invariant packet[..8] == old(packet[..8])
      invariant forall k: nat :: k < i ==>
        IsRecord(packet[..], GENERAL_HEADER_SIZE + k * RECORD_SIZE, RecordFlow(sequence, k), now)
    {
      ghost var before := packet[..];
      FillNatRecord(packet, GENERAL_HEADER_SIZE + i * RECORD_SIZE, (sequence + i) % SEQUENCES, now);
      forall k: nat | k < i
        ensures IsRecord(packet[..], GENERAL_HEADER_SIZE + k * RECORD_SIZE, RecordFlow(sequence, k), now)
      {
        RecordFrame(before, packet[..], GENERAL_HEADER_SIZE + k * RECORD_SIZE, RecordFlow(sequence, k), now);
      }
    }
  }

  method FillLegacy(packet: array<byte>, protocol: byte, sequence: nat)
    requires packet.Length == 42
    modifies packet
    ensures packet[..8] == old(packet[..8])
    ensures packet[11] == protocol && Describes(packet[..], 20, 36, FlowOf(sequence))
  {
    for i := 8 to packet.Length
      invariant packet[..8] == old(packet[..8])
    {
      packet[i] := 0;
    }
    packet[11] := protocol;
    WriteAddresses(packet, 20, 36, sequence);
  }

  method BuildPacket(packet: array<byte>, cfg: Config, sequence: nat, now: u32)
    requires packet.Length == PacketSize(cfg) && |cfg.header| == 4 && sequence < SEQUENCES
    modifies packet
    ensures packet[..4] == cfg.header
    ensures IsPacket(cfg, packet[..], sequence, now)
  {
    for i := 0 to 4
      invariant packet[..i] == cfg.header[..i]
    {
      packet[i] := cfg.header[i];
    }
    PutBe32(packet, 4, now);
    assert packet[..4] == cfg.header;
    ghost var start := packet[..8];
    assert forall j :: 0 <= j < 8 ==> packet[j] == start[j];
    if cfg.mode.Multi? {
      FillRecords(packet, cfg.records, sequence, now);
    } else {
      FillLegacy(packet, cfg.protocol, sequence);
    }
    assert forall j :: 0 <= j < 8 ==> packet[j] == start[j];
  }

  // ---- Round trip ----

  lemma RecordParses(data: seq<byte>, flow: Flow, now: u32, from: Source, i: nat)
    requires GENERAL_HEADER_SIZE + (i + 1) * RECORD_SIZE <= |data| && now != 0
    requires IsRecord(data, GENERAL_HEADER_SIZE + i * RECORD_SIZE, flow, now)
    ensures RecordEntry(data, i, from) == Expected(flow, now, 0, |data| % 0x1_0000, from)
  {
  }

  lemma LegacyParses(data: seq<byte>, flow: Flow, protocol: byte, now: u32, from: Source)
    requires |data| == 42 && now != 0 && ReadBe32(data, 4) == now
    requires data[11] == protocol && Describes(data, 20, 36, flow)
    ensures ParseLegacyPacket(data, from) == Some([Expected(flow, now, protocol, 42, from)])
  {
  }

  /** The entries the generator meant. */
  function Meant(cfg: Config, sequence: nat, now: u32, from: Source): seq<NatLogEntry> {
    if cfg.mode.Multi?
    then seq(cfg.records, i requires 0 <= i < cfg.records =>
               Expected(RecordFlow(sequence, i), now, 0, PacketSize(cfg) % 0x1_0000, from))
    else [Expected(FlowOf(sequence), now, cfg.protocol, 42, from)]
  }

  lemma MultiParses(cfg: Config, data: seq<byte>, sequence: nat, now: u32, from: Source)
    requires cfg.mode.Multi? && |data| == PacketSize(cfg) && cfg.records > 0 && now != 0
    requires IsPacket(cfg, data, sequence, now)
    ensures Parsed(data, from).Some? && Parsed(data, from).value == Meant(cfg, sequence, now, from)
  {
    var parsed, meant := Parsed(data, from), Meant(cfg, sequence, now, from);
    RecordCount(cfg.records);
    assert parsed.Some? && |parsed.value| == |meant|;
    forall i: nat | i < cfg.records ensures parsed.value[i] == meant[i] {
      RecordParses(data, RecordFlow(sequence, i), now, from, i);
    }
  }

  lemma RecordCount(records: nat)
    ensures var size := GENERAL_HEADER_SIZE + records * RECORD_SIZE;
      (size - GENERAL_HEADER_SIZE) % RECORD_SIZE == 0 && (size - GENERAL_HEADER_SIZE) / RECORD_SIZE == records
  {
  }

  /** Parsing a generated packet yields exactly what the generator meant, record by record, and a reader
      of the stored RowBinary rows gets it back. */
  lemma GeneratedPacketRoundTrip(cfg: Config, data: seq<byte>, sequence: nat, now: u32, from: Source)
    requires |data| == PacketSize(cfg) <= 65535 && cfg.records > 0 && now != 0
    requires IsPacket(cfg, data, sequence, now)
    ensures Parsed(data, from).Some? && Parsed(data, from).value == Meant(cfg, sequence, now, from)
    ensures StoredFaithfully(Parsed(data, from).value)
  {
    if cfg.mode.Multi? {
      MultiParses(cfg, data, sequence, now, from);
    } else {
      LegacyParses(data, FlowOf(sequence), cfg.protocol, now, from);
    }
    ParseOutcome(data, from);
    BatchRoundTrip(Parsed(data, from).value);
  }
}
