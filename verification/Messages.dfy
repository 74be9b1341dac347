/** The layouts of src/core/message.h and the frames src/core/packet.h builds from them. */
module Messages {
  import opened Bytes

  type Name = Bytes

  const NONE: Byte := 0
  const ECHO: Byte := 1
  const TIME: Byte := 2
  const DOWNLOAD: Byte := 3
  const UPLOAD: Byte := 4
  const CLOSE: Byte := 5
  const DOWNLOAD_RECOVERY: Byte := 6

  const HEADER_SIZE := 4
  /** Both ends keep one buffer of this size (src/server/server.h:16, src/client/client.h:18). */
  const BUFFER_SIZE := 8192
  /** The largest body the server's buffer holds behind a header. */
  const MAX_BODY := BUFFER_SIZE - HEADER_SIZE
  const RESPONSE_SIZE := 16
  const TIME_SIZE := 8
  const MAC_SIZE := 6

  /** `Packet::Header`: opcode, a padding byte, a 16-bit body length. */
  function Header(op: Byte, size: nat): (h: Bytes)
    ensures |h| == HEADER_SIZE
  {
    [op, 0] + LittleEndian(size, 2)
  }

  function OpOf(h: Bytes): Byte
    requires |h| >= HEADER_SIZE
  {
    h[0]
  }

  function SizeOf(h: Bytes): nat
    requires |h| >= HEADER_SIZE
  {
    FromLittleEndian(h[2..4])
  }

  lemma HeaderRoundTrip(op: Byte, size: nat, tail: Bytes)
    requires size < 0x1_0000
    ensures OpOf(Header(op, size) + tail) == op
    ensures SizeOf(Header(op, size) + tail) == size
  {
    assert (Header(op, size) + tail)[2..4] == LittleEndian(size, 2);
    LoadU16(size);
  }

  /** A 64-bit number followed by a NUL-terminated name: the body of Download, Upload and DownloadRecovery. */
  function NumberAndName(n: nat, name: Name): (b: Bytes)
    ensures |b| == 9 + |name|
  {
    LittleEndian(n, 8) + name + [0]
  }

  predicate HasNumberAndName(b: Bytes) {
    |b| >= 9 && 0 in b[8..]
  }

  function NumberOf(b: Bytes): nat
    requires |b| >= 8
  {
    FromLittleEndian(b[..8])
  }

  function NameOf(b: Bytes): Name
    requires |b| >= 8
  {
    UntilNul(b[8..])
  }

  lemma NumberAndNameRoundTrip(n: nat, name: Name, tail: Bytes)
    requires n < U64 && 0 !in name
    ensures HasNumberAndName(NumberAndName(n, name) + tail)
    ensures NumberOf(NumberAndName(n, name) + tail) == n
    ensures NameOf(NumberAndName(n, name) + tail) == name
  {
    var b := NumberAndName(n, name) + tail;
    assert b[..8] == LittleEndian(n, 8);
    LoadU64(n);
    assert b[8..] == name + [0] + tail;
    assert b[8..][|name|] == 0;
    UntilNulFinds(name, tail);
  }

  /** Everything a client can ask of the server, with the upload's content. */
  datatype Request =
    | Echo(data: Bytes)
    | Time
    | Download(position: nat, name: Name)
    | Upload(name: Name, content: Bytes)
    | Close

  /** The request fits the fields and the buffers it travels through. */
  predicate WellFormed(r: Request) {
    match r
    case Echo(data) => 1 <= |data| <= MAX_BODY
    case Download(position, name) => position < U64 && 0 !in name && 9 + |name| <= MAX_BODY
    case Upload(name, content) => |content| < U64 && 0 !in name && 9 + |name| <= MAX_BODY
    case _ => true
  }

  predicate AllWellFormed(rs: seq<Request>) {
    forall r | r in rs :: WellFormed(r)
  }

  function OpCode(r: Request): Byte {
    match r
    case Echo(_) => ECHO
    case Time => TIME
    case Download(_, _) => DOWNLOAD
    case Upload(_, _) => UPLOAD
    case Close => CLOSE
  }

  function Body(r: Request): Bytes {
    match r
    case Echo(data) => data
    case Download(position, name) => NumberAndName(position, name)
    case Upload(name, content) => NumberAndName(|content|, name)
    case _ => []
  }

  /** What follows the packet: only an upload has any. */
  function Content(r: Request): Bytes {
    if r.Upload? then r.content else []
  }

  function Encode(r: Request): Bytes {
    Header(OpCode(r), |Body(r)|) + Body(r) + Content(r)
  }

  function EncodeAll(rs: seq<Request>): Bytes {
    if rs == [] then [] else Encode(rs[0]) + EncodeAll(rs[1..])
  }

  lemma {:induction false} EncodeAllAppend(rs: seq<Request>, r: Request)
    ensures EncodeAll(rs + [r]) == EncodeAll(rs) + Encode(r)
  {
    if rs == [] {
      assert (rs + [r])[1..] == [];
    } else {
      assert (rs + [r])[1..] == rs[1..] + [r];
      EncodeAllAppend(rs[1..], r);
    }
  }

  /** What the dispatcher reads out of an opcode and a body (src/server/server.cpp:119-136). */
  datatype Order =
    | EchoOrder(data: Bytes)
    | TimeOrder
    | DownloadOrder(position: nat, name: Name)
    | UploadOrder(size: nat, name: Name)
    | Unknown
    | Malformed   // a Download or Upload body without its number or its terminating NUL

  function Decode(op: Byte, body: Bytes): Order {
    if op == ECHO then EchoOrder(body)
    else if op == TIME then TimeOrder
    else if op == DOWNLOAD then
      if HasNumberAndName(body) then DownloadOrder(NumberOf(body), NameOf(body)) else Malformed
    else if op == UPLOAD then
      if HasNumberAndName(body) then UploadOrder(NumberOf(body), NameOf(body)) else Malformed
    else Unknown
  }

  function OrderOf(r: Request): Order {
    match r
    case Echo(data) => EchoOrder(data)
    case Time => TimeOrder
    case Download(position, name) => DownloadOrder(position, name)
    case Upload(name, content) => UploadOrder(|content|, name)
    case Close => Unknown
  }

  lemma FrameParts(op: Byte, body: Bytes, tail: Bytes)
    requires |body| <= MAX_BODY
    ensures var s := Header(op, |body|) + (body + tail);
      OpOf(s) == op && SizeOf(s) == |body| && s[HEADER_SIZE..] == body + tail
  {
    HeaderRoundTrip(op, |body|, body + tail);
  }

  lemma DecodeInverts(r: Request)
    requires WellFormed(r)
    ensures Decode(OpCode(r), Body(r)) == OrderOf(r)
  {
    if r.Download? {
      NumberAndNameRoundTrip(r.position, r.name, []);
      assert NumberAndName(r.position, r.name) + [] == Body(r);
    } else if r.Upload? {
      NumberAndNameRoundTrip(|r.content|, r.name, []);
      assert NumberAndName(|r.content|, r.name) + [] == Body(r);
    }
  }

  /** Building a request and decoding it gives back its opcode, its number and its name. */
  lemma RequestRoundTrip(r: Request, tail: Bytes)
    requires WellFormed(r)
    ensures |Body(r)| <= MAX_BODY
    ensures |Encode(r)| == HEADER_SIZE + |Body(r)| + |Content(r)|
    ensures OpOf(Encode(r) + tail) == OpCode(r) && SizeOf(Encode(r) + tail) == |Body(r)|
    ensures (Encode(r) + tail)[HEADER_SIZE..] == Body(r) + Content(r) + tail
    ensures Decode(OpCode(r), Body(r)) == OrderOf(r)
  {
    FrameParts(OpCode(r), Body(r), Content(r) + tail);
    assert Encode(r) + tail == Header(OpCode(r), |Body(r)|) + (Body(r) + (Content(r) + tail));
    assert Body(r) + (Content(r) + tail) == Body(r) + Content(r) + tail;
    DecodeInverts(r);
  }

  /** `Response::Download::Status`. */
  datatype Status = Ready | NoSuchFile | IsNotFile

  function StatusCode(s: Status): nat {
    match s
    case Ready => 0
    case NoSuchFile => 1
    case IsNotFile => 2
  }

  /** The 16-byte `Response::Download`; `padding` is the alignment gap the compiler leaves. */
  function Response(status: Status, padding: Bytes, total: nat): (b: Bytes)
    requires |padding| == 4
    ensures |b| == RESPONSE_SIZE
  {
    LittleEndian(StatusCode(status), 4) + padding + LittleEndian(total, 8)
  }

  function StatusOf(b: Bytes): nat
    requires |b| >= RESPONSE_SIZE
  {
    FromLittleEndian(b[..4])
  }

  function TotalOf(b: Bytes): nat
    requires |b| >= RESPONSE_SIZE
  {
    FromLittleEndian(b[8..16])
  }

  lemma ResponseFields(status: Status, padding: Bytes, total: nat, tail: Bytes)
    requires |padding| == 4
    ensures var b := Response(status, padding, total) + tail;
      && StatusOf(b) == StatusCode(status)
      && (total < U64 ==> TotalOf(b) == total)
      && b[RESPONSE_SIZE..] == tail
  {
    var b := Response(status, padding, total) + tail;
    assert b[..4] == LittleEndian(StatusCode(status), 4);
    assert b[8..16] == LittleEndian(total, 8);
    StoreLoad(StatusCode(status), 4);
    assert Capacity(4) == 256 * 256 * Capacity(2);
    Capacities();
    StoreLoad(total, 8);
  }

  /** The fields of a response are in its first sixteen bytes. */
  lemma ResponseRead(due: Bytes, reply: Bytes)
    requires |due| >= RESPONSE_SIZE && reply == due[..RESPONSE_SIZE]
    ensures StatusOf(reply) == StatusOf(due) && TotalOf(reply) == TotalOf(due)
  {
    assert reply[..4] == due[..4] && reply[8..16] == due[8..16];
  }

  // ---------------------------------------------------------------- the bytes themselves

  lemma TwoBytes(n: nat)
    requires n < 0x1_0000
    ensures LittleEndian(n, 2) == [n % 256, n / 256]
  {
    assert LittleEndian(n / 256, 1) == [n / 256 % 256] + LittleEndian(n / 256 / 256, 0);
  }

  /** Every request on the wire, byte by byte. */
  lemma RequestBytes(r: Request)
    requires WellFormed(r)
    ensures Encode(r) == match r
      case Echo(data) => [1, 0, |data| % 256, |data| / 256] + data
      case Time => [2, 0, 0, 0]
      case Download(position, name) =>
        [3, 0, (9 + |name|) % 256, (9 + |name|) / 256] + LittleEndian(position, 8) + name + [0]
      case Upload(name, content) =>
        [4, 0, (9 + |name|) % 256, (9 + |name|) / 256] + LittleEndian(|content|, 8) + name + [0] + content
      case Close => [5, 0, 0, 0]
  {
    var n := |Body(r)|;
    TwoBytes(n);
    hide LittleEndian;
    assert Header(OpCode(r), n) == [OpCode(r), 0, n % 256, n / 256];
  }

  /** Which requests fit. */
  lemma FittingRequests(r: Request)
    ensures WellFormed(r) <==> match r
      case Echo(data) => 1 <= |data| <= 8188
      case Download(position, name) => position < 0x1_0000_0000_0000_0000 && 0 !in name && |name| <= 8179
      case Upload(name, content) => |content| < 0x1_0000_0000_0000_0000 && 0 !in name && |name| <= 8179
      case _ => true
  {
  }

  /** The 16 bytes in front of a file. */
  lemma ResponseBytes(status: Status, padding: Bytes, total: nat)
    requires |padding| == 4
    ensures Response(status, padding, total) ==
      [if status.Ready? then 0 else if status.NoSuchFile? then 1 else 2, 0, 0, 0] + padding + LittleEndian(total, 8)
  {
    var code := StatusCode(status);
    assert code / 256 == 0 && code % 256 == code;
    assert LittleEndian(0, 1) == [0] && LittleEndian(0, 2) == [0, 0] && LittleEndian(0, 3) == [0, 0, 0];
  }

  /** What an opcode makes of a body; 1 to 4 are the only ones that mean anything. */
  lemma OpcodesMean(op: Byte, body: Bytes, n: nat, name: Name, tail: Bytes)
    ensures op == 1 ==> Decode(op, body) == EchoOrder(body)
    ensures op == 2 ==> Decode(op, body) == TimeOrder
    ensures op == 0 || op >= 5 ==> Decode(op, body) == Unknown
    ensures n < 0x1_0000_0000_0000_0000 && 0 !in name && body == LittleEndian(n, 8) + name + [0] + tail ==>
      && (op == 3 ==> Decode(op, body) == DownloadOrder(n, name))
      && (op == 4 ==> Decode(op, body) == UploadOrder(n, name))
    ensures (op == 3 || op == 4) && (|body| < 9 || 0 !in body[8..]) ==> Decode(op, body) == Malformed
  {
    hide LittleEndian, FromLittleEndian;
    if n < U64 && 0 !in name && body == LittleEndian(n, 8) + name + [0] + tail {
      NumberAndNameRoundTrip(n, name, tail);
      assert body == NumberAndName(n, name) + tail;
    }
  }
}
