/** The columns of the log table, as its declaration and the insert list them (main.go), and where a stored row holds them. */
module TableColumns {
  import opened Bytes
  import opened Records

  datatype Column = StartTime | EndTime | RouterIp | RouterPort | ProtocolId | PrivateIp | PrivatePort
    | PublicIp | PublicPort | DestinationIp | DestinationPort | PacketSize

  const COLUMNS: seq<Column> :=
    [StartTime, EndTime, RouterIp, RouterPort, ProtocolId, PrivateIp, PrivatePort,
     PublicIp, PublicPort, DestinationIp, DestinationPort, PacketSize]

  /** Bytes a column takes in RowBinary: a DateTime or an IPv4 four, a UInt16 two, a UInt8 one. */
  function Width(c: Column): nat {
    match c
    case StartTime | EndTime | RouterIp | PrivateIp | PublicIp | DestinationIp => 4
    case RouterPort | PrivatePort | PublicPort | DestinationPort | PacketSize => 2
    case ProtocolId => 1
  }

  /** Where column `k` begins: after the columns before it. */
  function Offset(k: nat): nat
    requires k <= |COLUMNS|
  {
    if k == 0 then 0 else Offset(k - 1) + Width(COLUMNS[k - 1])
  }

  function FieldOf(e: NatLogEntry, c: Column): nat {
    match c
    case StartTime => e.startTime
    case EndTime => e.endTime
    case RouterIp => e.routerIp
    case RouterPort => e.routerPort
    case ProtocolId => e.protocolId
    case PrivateIp => e.privateIp
    case PrivatePort => e.privatePort
    case PublicIp => e.publicIp
    case PublicPort => e.publicPort
    case DestinationIp => e.destinationIp
    case DestinationPort => e.destinationPort
    case PacketSize => e.packetSize
  }

  /** A RowBinary number: the least significant byte first. */
  function LittleEndian(s: seq<byte>): nat {
    if s == [] then 0
    else
      var first: nat := s[0];
      first + 256 * LittleEndian(s[1..])
  }

  lemma WordIsLittleEndian(n: u32)
    ensures LittleEndian(Le32(n)) == n
  {
    var s := Le32(n);
    assert s[1..] == [s[1], s[2], s[3]] && [s[1], s[2], s[3]][1..] == [s[2], s[3]] && [s[2], s[3]][1..] == [s[3]];
    var a: nat, b: nat, c: nat, d: nat := s[0], s[1], s[2], s[3];
    assert LittleEndian([s[3]]) == d && LittleEndian([s[2], s[3]]) == c + 256 * d;
    assert LittleEndian([s[1], s[2], s[3]]) == b + 256 * (c + 256 * d);
    Split32(n);
  }

  lemma HalfIsLittleEndian(n: u16)
    ensures LittleEndian(Le16(n)) == n
  {
    var s := Le16(n);
    assert s[1..] == [s[1]] && [s[1]][1..] == [];
    var a: nat, b: nat := s[0], s[1];
    assert LittleEndian([s[1]]) == b && LittleEndian(s) == a + 256 * b;
  }

  lemma Offsets()
    ensures Offset(0) == 0 && Offset(1) == 4 && Offset(2) == 8 && Offset(3) == 12 && Offset(4) == 14 && Offset(5) == 15
    ensures Offset(6) == 19 && Offset(7) == 21 && Offset(8) == 25 && Offset(9) == 27 && Offset(10) == 31 && Offset(11) == 33
    ensures Offset(12) == ROW_BYTES
  {
    assert Offset(2) == 8;
    assert Offset(4) == 14;
    assert Offset(6) == 19;
    assert Offset(8) == 25;
    assert Offset(10) == 31;
  }

  function ColumnBytes(row: seq<byte>, k: nat): seq<byte>
    requires k < |COLUMNS| && |row| == ROW_BYTES
  {
    Offsets();
    row[Offset(k)..Offset(k) + Width(COLUMNS[k])]
  }

  /** A RowBinary reader that knows only the columns, their order and their types finds every field of the entry in its
      column. */
  lemma RowFillsColumns(e: NatLogEntry, k: nat)
    requires k < |COLUMNS|
    ensures LittleEndian(ColumnBytes(EncodeRow(e), k)) == FieldOf(e, COLUMNS[k])
  {
    Offsets();
    LeftColumns(e);
    RightColumns(e);
    var bytes := ColumnBytes(EncodeRow(e), k);
    match COLUMNS[k]
    case StartTime => WordIsLittleEndian(e.startTime);
    case EndTime => WordIsLittleEndian(e.endTime);
    case RouterIp => WordIsLittleEndian(e.routerIp);
    case RouterPort => HalfIsLittleEndian(e.routerPort);
    case ProtocolId => assert bytes == [e.protocolId] && bytes[1..] == [];
    case PrivateIp => WordIsLittleEndian(e.privateIp);
    case PrivatePort => HalfIsLittleEndian(e.privatePort);
    case PublicIp => WordIsLittleEndian(e.publicIp);
    case PublicPort => HalfIsLittleEndian(e.publicPort);
    case DestinationIp => WordIsLittleEndian(e.destinationIp);
    case DestinationPort => HalfIsLittleEndian(e.destinationPort);
    case PacketSize => HalfIsLittleEndian(e.packetSize);
  }
}
