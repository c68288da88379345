/** The layouts of the packets on the wire, written out byte by byte, and that the parser reads them back (main.go). */
module PacketLayouts {
  import opened Bytes
  import opened Records
  import opened PacketParser

  /** Words in network order. */
  function Big16(n: u16): (s: seq<byte>)
    ensures |s| == 2
  {
    [n / 256, n % 256]
  }

  function Big32(n: u32): (s: seq<byte>)
    ensures |s| == 4
  {
    [n / 16777216, n / 65536 % 256, n / 256 % 256, n % 256]
  }

  lemma Big32IsRead(data: seq<byte>, at: nat, n: u32)
    requires at + 4 <= |data| && data[at..at + 4] == Big32(n)
    ensures ReadBe32(data, at) == n
  {
    var word := data[at..at + 4];
    assert data[at] == word[0] && data[at + 1] == word[1] && data[at + 2] == word[2] && data[at + 3] == word[3];
    assert n / 65536 == n / 16777216 * 256 + n / 65536 % 256;
    assert n / 256 == n / 65536 * 256 + n / 256 % 256;
  }

  lemma Big16IsRead(data: seq<byte>, at: nat, n: u16)
    requires at + 2 <= |data| && data[at..at + 2] == Big16(n)
    ensures ReadBe16(data, at) == n
  {
    var word := data[at..at + 2];
    assert data[at] == word[0] && data[at + 1] == word[1];
  }

  /** The fields of a translation and, in `head`, `gap`, `pad` and `tail`, the bytes of a record that have no known use. */
  datatype WireRecord = WireRecord(
    head: seq<byte>, privateIp: u32, publicIp: u32, destinationIp: u32,
    gap: seq<byte>, privatePort: u16, publicPort: u16, destinationPort: u16,
    pad: seq<byte>, start: u32, end: u32, tail: seq<byte>)

  predicate WellSized(r: WireRecord) {
    |r.head| == 4 && |r.gap| == 4 && |r.pad| == 2 && |r.tail| == 28
  }

  function RecordBytes(r: WireRecord): (s: seq<byte>)
    requires WellSized(r)
    ensures |s| == 64
  {
    r.head + Big32(r.privateIp) + Big32(r.publicIp) + Big32(r.destinationIp)
    + r.gap + Big16(r.privatePort) + Big16(r.publicPort) + Big16(r.destinationPort)
    + r.pad + Big32(r.start) + Big32(r.end) + r.tail
  }

  predicate AllWellSized(rs: seq<WireRecord>) {
    forall i :: 0 <= i < |rs| ==> WellSized(rs[i])
  }

  function AllBytes(rs: seq<WireRecord>): (s: seq<byte>)
    requires AllWellSized(rs)
    ensures |s| == 64 * |rs|
  {
    if rs == [] then [] else AllBytes(rs[..|rs| - 1]) + RecordBytes(rs[|rs| - 1])
  }

  /** The header: four bytes, the time of the packet, eight bytes. */
  datatype Header = Header(first: seq<byte>, time: u32, rest: seq<byte>)

  predicate HeaderFits(h: Header) {
    |h.first| == 4 && |h.rest| == 8
  }

  function PacketBytes(h: Header, rs: seq<WireRecord>): (s: seq<byte>)
    requires HeaderFits(h) && AllWellSized(rs)
    ensures |s| == 16 + 64 * |rs|
  {
    h.first + Big32(h.time) + h.rest + AllBytes(rs)
  }

  // ---- What a reader must find ----

  /** The time of a field: its own word; if that is zero the packet's; then the time of reception; then the clock. */
  predicate IsTime(t: u32, word: u32, packetTime: u32, from: Source) {
    && (word != 0 ==> t == word)
    && (word == 0 && packetTime != 0 ==> t == packetTime)
    && (word == 0 && packetTime == 0 && from.receivedUnixNano > 0 ==>
          t == from.receivedUnixNano / 1000000000 % 4294967296)
    && (word == 0 && packetTime == 0 && from.receivedUnixNano <= 0 ==> t == from.now)
  }

  predicate Tells(e: NatLogEntry, r: WireRecord, packetTime: u32, size: nat, from: Source) {
    && IsTime(e.startTime, r.start, packetTime, from) && IsTime(e.endTime, r.end, packetTime, from)
    && e.eventTime == e.endTime && e.routerIp == from.routerIp && e.routerPort == from.routerPort && e.protocolId == 0
    && e.privateIp == r.privateIp && e.privatePort == r.privatePort && e.publicIp == r.publicIp && e.publicPort == r.publicPort
    && e.destinationIp == r.destinationIp && e.destinationPort == r.destinationPort && e.packetSize == size % 65536
  }

  lemma LeftOfRecord(r: WireRecord)
    requires WellSized(r)
    ensures var s := RecordBytes(r);
      && s[4..8] == Big32(r.privateIp) && s[8..12] == Big32(r.publicIp) && s[12..16] == Big32(r.destinationIp)
      && s[20..22] == Big16(r.privatePort) && s[22..24] == Big16(r.publicPort) && s[24..26] == Big16(r.destinationPort)
  {
  }

  lemma RightOfRecord(r: WireRecord)
    requires WellSized(r)
    ensures var s := RecordBytes(r); s[28..32] == Big32(r.start) && s[32..36] == Big32(r.end)
  {
  }

  lemma {:induction false} RecordStands(rs: seq<WireRecord>, i: nat)
    requires AllWellSized(rs) && i < |rs|
    ensures AllBytes(rs)[64 * i..64 * i + 64] == RecordBytes(rs[i])
  {
    if i < |rs| - 1 {
      RecordStands(rs[..|rs| - 1], i);
      assert AllBytes(rs)[64 * i..64 * i + 64] == AllBytes(rs[..|rs| - 1])[64 * i..64 * i + 64];
    }
  }

  lemma Inner(data: seq<byte>, at: nat, s: seq<byte>, lo: nat, hi: nat)
    requires at + |s| <= |data| && data[at..at + |s|] == s && lo <= hi <= |s|
    ensures data[at + lo..at + hi] == s[lo..hi]
  {
    forall k | 0 <= k < hi - lo ensures data[at + lo..at + hi][k] == s[lo..hi][k] {
      assert data[at + (lo + k)] == data[at..at + |s|][lo + k];
    }
  }

  /** Reading the fields of a record at its place. */
  lemma FieldsAreRead(data: seq<byte>, at: nat, r: WireRecord)
    requires WellSized(r) && at + 64 <= |data| && data[at..at + 64] == RecordBytes(r)
    ensures ReadBe32(data, at + 4) == r.privateIp && ReadBe32(data, at + 8) == r.publicIp
    ensures ReadBe32(data, at + 12) == r.destinationIp && ReadBe16(data, at + 20) == r.privatePort
    ensures ReadBe16(data, at + 22) == r.publicPort && ReadBe16(data, at + 24) == r.destinationPort
    ensures ReadBe32(data, at + 28) == r.start && ReadBe32(data, at + 32) == r.end
  {
    LeftOfRecord(r);
    RightOfRecord(r);
    WordIsRead(data, at, r, 4, r.privateIp);
    WordIsRead(data, at, r, 8, r.publicIp);
    WordIsRead(data, at, r, 12, r.destinationIp);
    PortIsRead(data, at, r, 20, r.privatePort);
    PortIsRead(data, at, r, 22, r.publicPort);
    PortIsRead(data, at, r, 24, r.destinationPort);
    WordIsRead(data, at, r, 28, r.start);
    WordIsRead(data, at, r, 32, r.end);
  }

  lemma WordIsRead(data: seq<byte>, at: nat, r: WireRecord, lo: nat, n: u32)
    requires WellSized(r) && at + 64 <= |data| && data[at..at + 64] == RecordBytes(r)
    requires lo + 4 <= 64 && RecordBytes(r)[lo..lo + 4] == Big32(n)
    ensures ReadBe32(data, at + lo) == n
  {
    Inner(data, at, RecordBytes(r), lo, lo + 4);
    Big32IsRead(data, at + lo, n);
  }

  lemma PortIsRead(data: seq<byte>, at: nat, r: WireRecord, lo: nat, n: u16)
    requires WellSized(r) && at + 64 <= |data| && data[at..at + 64] == RecordBytes(r)
    requires lo + 2 <= 64 && RecordBytes(r)[lo..lo + 2] == Big16(n)
    ensures ReadBe16(data, at + lo) == n
  {
    Inner(data, at, RecordBytes(r), lo, lo + 2);
    Big16IsRead(data, at + lo, n);
  }

  lemma RecordIsParsed(h: Header, rs: seq<WireRecord>, i: nat, from: Source)
    requires HeaderFits(h) && AllWellSized(rs) && i < |rs|
    ensures Tells(RecordEntry(PacketBytes(h, rs), i, from), rs[i], h.time, 16 + 64 * |rs|, from)
  {
    var data, at := PacketBytes(h, rs), 16 + 64 * i;
    RecordStands(rs, i);
    assert data[16..] == AllBytes(rs);
    assert data[at..at + 64] == AllBytes(rs)[64 * i..64 * i + 64];
    FieldsAreRead(data, at, rs[i]);
    assert data[4..8] == Big32(h.time);
    Big32IsRead(data, 4, h.time);
  }

  /** Whatever the bytes between the fields: a packet of one or more records parses to one entry a record, in order, with
      exactly the fields written, start and end times each from their own word. */
  lemma WrittenPacketParses(h: Header, rs: seq<WireRecord>, from: Source)
    requires HeaderFits(h) && AllWellSized(rs) && rs != []
    ensures var parsed := Parsed(PacketBytes(h, rs), from);
      && parsed.Some? && |parsed.value| == |rs|
      && forall i :: 0 <= i < |rs| ==> Tells(parsed.value[i], rs[i], h.time, 16 + 64 * |rs|, from)
  {
    var data := PacketBytes(h, rs);
    assert (|data| - 16) % 64 == 0 && (|data| - 16) / 64 == |rs|;
    forall i | 0 <= i < |rs| ensures Tells(Parsed(data, from).value[i], rs[i], h.time, 16 + 64 * |rs|, from) {
      RecordIsParsed(h, rs, i, from);
    }
  }

  /** A record for an entry, with any bytes between the fields. */
  function WireOf(e: NatLogEntry, filler: WireRecord): WireRecord {
    filler.(privateIp := e.privateIp, publicIp := e.publicIp, destinationIp := e.destinationIp,
            privatePort := e.privatePort, publicPort := e.publicPort, destinationPort := e.destinationPort,
            start := e.startTime, end := e.endTime)
  }

  /** An entry a multi-record packet of this size from this router can carry. */
  predicate Carries(e: NatLogEntry, size: nat, from: Source) {
    && e.startTime != 0 && e.endTime != 0 && e.eventTime == e.endTime && e.protocolId == 0
    && e.routerIp == from.routerIp && e.routerPort == from.routerPort && e.packetSize == size % 65536
  }

  /** Writing any entries and parsing the packet gives the entries. */
  lemma EntriesRoundTrip(h: Header, entries: seq<NatLogEntry>, filler: WireRecord, from: Source)
    requires HeaderFits(h) && WellSized(filler) && entries != []
    requires forall i :: 0 <= i < |entries| ==> Carries(entries[i], 16 + 64 * |entries|, from)
    ensures var rs := seq(|entries|, i requires 0 <= i < |entries| => WireOf(entries[i], filler));
      Parsed(PacketBytes(h, rs), from).Some? && Parsed(PacketBytes(h, rs), from).value == entries
  {
    var rs := seq(|entries|, i requires 0 <= i < |entries| => WireOf(entries[i], filler));
    WrittenPacketParses(h, rs, from);
    var parsed := Parsed(PacketBytes(h, rs), from).value;
    forall i | 0 <= i < |entries| ensures parsed[i] == entries[i] {
      assert Tells(parsed[i], rs[i], h.time, 16 + 64 * |rs|, from) && Carries(entries[i], 16 + 64 * |entries|, from);
    }
  }

  // ---- The legacy layout ----

  /** `first`, `second`, `third`, `fourth` and `rest` are bytes without a known use. */
  datatype WireLegacy = WireLegacy(
    first: seq<byte>, time: u32, second: seq<byte>, protocol: byte, third: seq<byte>,
    privateIp: u32, publicIp: u32, destinationIp: u32, fourth: seq<byte>,
    privatePort: u16, publicPort: u16, destinationPort: u16, rest: seq<byte>)

  predicate LegacyFits(p: WireLegacy) {
    |p.first| == 4 && |p.second| == 3 && |p.third| == 8 && |p.fourth| == 4
  }

  function LegacyBytes(p: WireLegacy): (s: seq<byte>)
    requires LegacyFits(p)
    ensures |s| == 42 + |p.rest|
  {
    p.first + Big32(p.time) + p.second + [p.protocol] + p.third
    + Big32(p.privateIp) + Big32(p.publicIp) + Big32(p.destinationIp)
    + p.fourth + Big16(p.privatePort) + Big16(p.publicPort) + Big16(p.destinationPort) + p.rest
  }

  lemma LegacyFields(p: WireLegacy)
    requires LegacyFits(p)
    ensures var s := LegacyBytes(p);
      && s[4..8] == Big32(p.time) && s[11] == p.protocol && s[20..24] == Big32(p.privateIp)
      && s[24..28] == Big32(p.publicIp) && s[28..32] == Big32(p.destinationIp)
  {
  }

  lemma LegacyPorts(p: WireLegacy)
    requires LegacyFits(p)
    ensures var s := LegacyBytes(p);
      s[36..38] == Big16(p.privatePort) && s[38..40] == Big16(p.publicPort) && s[40..42] == Big16(p.destinationPort)
  {
  }

  /** A legacy packet is one entry whose three times are one. */
  lemma WrittenLegacyParses(p: WireLegacy, from: Source)
    requires LegacyFits(p) && !IsMultiRecord(42 + |p.rest|)
    ensures var parsed := Parsed(LegacyBytes(p), from);
      && parsed.Some? && |parsed.value| == 1
      && var e := parsed.value[0];
         && IsTime(e.startTime, p.time, 0, from) && e.endTime == e.startTime && e.eventTime == e.startTime
         && e == NatLogEntry(e.startTime, e.startTime, e.startTime, from.routerIp, from.routerPort, p.protocol,
                             p.privateIp, p.privatePort, p.publicIp, p.publicPort, p.destinationIp, p.destinationPort,
                             (42 + |p.rest|) % 65536)
  {
    var s := LegacyBytes(p);
    LegacyFields(p);
    LegacyPorts(p);
    Big32IsRead(s, 4, p.time);
    Big32IsRead(s, 20, p.privateIp);
    Big32IsRead(s, 24, p.publicIp);
    Big32IsRead(s, 28, p.destinationIp);
    Big16IsRead(s, 36, p.privatePort);
    Big16IsRead(s, 38, p.publicPort);
    Big16IsRead(s, 40, p.destinationPort);
  }
}
