/** The packet builder of src/core/packet.h: a byte vector that grows by appends and learns its length last. */
module Packets {
  import opened Bytes
  import opened Messages

  const U16 := 0x1_0000

  /** `Complete`: the length of what follows the header, as its 16-bit field holds it. */
  function Sized(buffer: Bytes): (packet: Bytes)
    requires |buffer| >= HEADER_SIZE
    ensures |packet| == |buffer| && packet[HEADER_SIZE..] == buffer[HEADER_SIZE..]
  {
    buffer[..2] + LittleEndian(|buffer| - HEADER_SIZE, 2) + buffer[HEADER_SIZE..]
  }

  function GetDataSize(packet: Bytes): nat
    requires |packet| >= HEADER_SIZE
  {
    SizeOf(packet)
  }

  /** `GetSize` returns a `uint16_t`. */
  function GetSize(packet: Bytes): nat
    requires |packet| >= HEADER_SIZE
  {
    (SizeOf(packet) + HEADER_SIZE) % U16
  }

  /** One `Append`; the size of a raw append is a `uint16_t`. */
  datatype Part =
    | Raw(data: Bytes, size: nat)
    | Number(n: nat)
    | CString(chars: Bytes)
    | View(chars: Bytes)

  predicate Readable(p: Part) {
    p.Raw? ==> p.size % U16 <= |p.data|
  }

  /** The bytes an append adds. */
  function Added(p: Part): Bytes
    requires Readable(p)
  {
    match p
    case Raw(data, size) => data[..size % U16]
    case Number(n) => LittleEndian(n, 8)
    case CString(chars) => (chars + [0])[..(|chars| + 1) % U16]
    case View(chars) => chars[..|chars| % U16] + [0]
  }

  class BuildProxy {
    var buffer: Bytes

    constructor (opcode: Byte)
      ensures buffer == [opcode, 0, 0, 0]
    {
      buffer := [opcode, 0, 0, 0];
    }

    method Append(p: Part)
      requires Readable(p)
      modifies this
      ensures buffer == old(buffer) + Added(p)
    {
      match p {
        case Raw(data, size) =>
          buffer := buffer + data[..size % U16];
        case Number(n) =>
          buffer := buffer + LittleEndian(n, 8);
        case CString(chars) =>
          buffer := buffer + (chars + [0])[..(|chars| + 1) % U16];
        case View(chars) =>
          buffer := buffer + chars[..|chars| % U16];
          buffer := buffer + [0];
      }
    }

    method Complete() returns (packet: Bytes)
      requires |buffer| >= HEADER_SIZE
      modifies this
      ensures packet == buffer == Sized(old(buffer))
    {
      buffer := buffer[..2] + LittleEndian(|buffer| - HEADER_SIZE, 2) + buffer[HEADER_SIZE..];
      packet := buffer;
    }
  }

  /** Length arithmetic, whatever has been appended: the field holds the total modulo 2^16, so it is right
      exactly up to 65535 bytes, and `GetSize` is right exactly up to 65531. */
  lemma LengthField(op: Byte, body: Bytes)
    ensures var packet := Sized([op, 0, 0, 0] + body);
      && OpOf(packet) == op && packet[HEADER_SIZE..] == body
      && GetDataSize(packet) == |body| % U16
      && (GetDataSize(packet) == |body| <==> |body| <= 65535)
      && (GetSize(packet) == |packet| <==> |body| <= 65531)
  {
    var packet := Sized([op, 0, 0, 0] + body);
    assert packet[2..4] == LittleEndian(|body|, 2);
    StoreLoad(|body|, 2);
    Capacities();
  }

  /** A body that fits its length field makes the frame the protocol calls for. */
  lemma SizedIsFrame(op: Byte, body: Bytes)
    requires |body| < U16
    ensures Sized([op, 0, 0, 0] + body) == Header(op, |body|) + body
    ensures GetDataSize(Sized([op, 0, 0, 0] + body)) == |body|
  {
    var buffer := [op, 0, 0, 0] + body;
    assert buffer[..2] == [op, 0] && buffer[HEADER_SIZE..] == body;
    HeaderRoundTrip(op, |body|, body);
  }

  /** A number and a NUL-free name built into a packet come back from it, opcode included: Download appends the
      name as a view, Upload and DownloadRecovery as a C string. */
  lemma PacketRoundTrip(op: Byte, n: nat, name: Name, named: Part)
    requires n < U64 && 0 !in name && 9 + |name| <= 65535
    requires named == CString(name) || named == View(name)
    ensures var packet := Sized([op, 0, 0, 0] + Added(Number(n)) + Added(named));
      var body := packet[HEADER_SIZE..];
      && packet == Header(op, 9 + |name|) + NumberAndName(n, name)
      && OpOf(packet) == op && GetDataSize(packet) == |body| == 9 + |name|
      && NumberOf(body) == n && NameOf(body) == name
  {
    assert (name + [0])[..|name| + 1] == name + [0] && name[..|name|] == name;
    var body := NumberAndName(n, name);
    assert [op, 0, 0, 0] + Added(Number(n)) + Added(named) == [op, 0, 0, 0] + body;
    SizedIsFrame(op, body);
    NumberAndNameRoundTrip(n, name, []);
    assert body + [] == body;
    HeaderRoundTrip(op, |body|, body);
  }

  /** A packet that goes out as its header and then its body. */
  lemma TwoSends(out: Bytes, packet: Bytes)
    requires |packet| >= HEADER_SIZE
    ensures out + packet[..HEADER_SIZE] + packet[HEADER_SIZE..] == out + packet
    ensures out <= out + packet[..HEADER_SIZE] <= out + packet
  {
    assert packet[..HEADER_SIZE] + packet[HEADER_SIZE..] == packet;
  }
}
