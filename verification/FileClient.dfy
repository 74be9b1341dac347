/** The client of src/client/client.cpp and the commands of src/client/clientConsole.cpp that drive it. */
module FileClient {
  import opened Bytes
  import opened Messages
  import opened Exchange
  import opened Framing
  import opened Connections
  import opened Packets
  import FileStreams

  type Disk = map<Name, Bytes>

  datatype LoadResult =
    | Success
    | InvalidSavePath
    | NoSuchFile
    | NotRegularFile
    | NetworkError

  /** What the file a download writes to holds at first: starting at zero truncates it. */
  function Kept(disk: Disk, name: Name, start: nat): Bytes {
    if start > 0 && name in disk then disk[name] else []
  }

  /** What the first `n` bytes of the buffer show after a `ReceiveAll` of `n`: where the stream ends early,
      the rest is what the buffer held before. */
  function Seen(incoming: Bytes, stale: Bytes, n: nat): (front: Bytes)
    requires n <= |stale|
    ensures |front| == n
    ensures n <= |incoming| ==> front == incoming[..n]
  {
    var m := Min(n, |incoming|);
    incoming[..m] + stale[m..n]
  }

  function BehindHeader(incoming: Bytes): Bytes {
    incoming[Min(RESPONSE_SIZE, |incoming|)..]
  }

  /** What `Client::Download` returns once its request is out, given all that will still arrive. */
  function Verdict(incoming: Bytes, header: Bytes): LoadResult
    requires |header| == RESPONSE_SIZE
  {
    if incoming == [] then NetworkError
    else if StatusOf(header) == StatusCode(Status.NoSuchFile) then LoadResult.NoSuchFile
    else if StatusOf(header) != StatusCode(Ready) then NotRegularFile
    else if TotalOf(header) <= |BehindHeader(incoming)| then LoadResult.Success
    else NetworkError
  }

  /** The download directory after `Client::Download` has sent its request. */
  function DiskAfter(disk: Disk, name: Name, start: nat, incoming: Bytes, stale: Bytes): Disk
    requires RESPONSE_SIZE <= |stale|
  {
    var header := Seen(incoming, stale, RESPONSE_SIZE);
    if Verdict(incoming, header).Success?
    then disk[name := Kept(disk, name, start) + BehindHeader(incoming)[..TotalOf(header)]]
    else disk - {name}
  }

  /** What it leaves unread. */
  function StreamAfter(incoming: Bytes, stale: Bytes): Bytes
    requires RESPONSE_SIZE <= |stale|
  {
    var header := Seen(incoming, stale, RESPONSE_SIZE);
    match Verdict(incoming, header)
    case Success => BehindHeader(incoming)[TotalOf(header)..]
    case NetworkError => []
    case _ => BehindHeader(incoming)
  }

  /** A 64-bit field read as a signed number. */
  function Signed(n: nat): (i: int)
    ensures n < U64 ==> -(U64 / 2) <= i < U64 / 2 && (i - n) % U64 == 0
  {
    if n < U64 / 2 then n else n - U64
  }

  /** The number and the name fit the packet, whose length is a 16-bit field. */
  predicate Buildable(n: nat, name: Name) {
    n < U64 && 0 !in name && 9 + |name| < U16
  }

  /** What a stream greets a client with. */
  datatype Hello =
    | Broken
    | NoOffer(rest: Bytes)
    | Offer(body: Bytes, rest: Bytes)

  function Greeted(stream: Bytes): Hello {
    if |stream| < HEADER_SIZE then Broken
    else if OpOf(stream) != DOWNLOAD_RECOVERY then NoOffer(stream[HEADER_SIZE..])
    else
      var end := HEADER_SIZE + SizeOf(stream);
      if |stream| < end then Broken else Offer(stream[HEADER_SIZE..end], stream[end..])
  }

  lemma HeaderKnown(header: Bytes, stream: Bytes)
    requires |stream| >= HEADER_SIZE && header == stream[..HEADER_SIZE]
    ensures header[0] == OpOf(stream) && SizeOf(header) == SizeOf(stream)
  {
    assert header[2..4] == stream[2..4];
  }

  /** A name that ends within what was received does not depend on what the buffer holds behind it. */
  lemma NameInBuffer(buffer: Bytes, body: Bytes)
    requires |body| <= |buffer| && buffer[..|body|] == body && |buffer| >= 8
    ensures HasNumberAndName(body) ==> UntilNul(buffer[8..]) == NameOf(body)
  {
    if HasNumberAndName(body) {
      assert buffer[8..] == body[8..] + buffer[|body|..];
      UntilNulWithin(body[8..], buffer[|body|..]);
    }
  }

  lemma SeenIs(buffer: Bytes, incoming: Bytes, stale: Bytes, n: nat)
    requires n <= |stale|
    requires var m := Min(n, |incoming|); buffer == incoming[..m] + stale[m..]
    ensures n <= |buffer| && buffer[..n] == Seen(incoming, stale, n)
  {
  }

  function SizeIn(disk: Disk, name: Name): nat {
    if name in disk then |disk[name]| else 0
  }

  lemma LengthOfEmpty(op: Byte)
    ensures Sized([op, 0, 0, 0]) == Header(op, 0) && GetSize(Header(op, 0)) == HEADER_SIZE
    ensures Header(op, 0) + [] + [] == Header(op, 0)
  {
    SizedIsFrame(op, []);
    LengthField(op, []);
    assert [op, 0, 0, 0] + [] == [op, 0, 0, 0];
  }

  class Client {
    var connection: Connection
    /** Never cleared: a short read leaves what was there. */
    const buffer: array<Byte>
    /** The download directory. */
    var disk: Disk
    /** A packet has overrun the buffer: nothing is claimed then. */
    var undefined: bool

    constructor (connection: Connection, disk: Disk)
      ensures this.connection == connection && this.disk == disk && buffer.Length == BUFFER_SIZE && fresh(buffer)
      ensures !undefined
    {
      this.connection := connection;
      this.disk := disk;
      buffer := new Byte[BUFFER_SIZE](_ => 0);
      undefined := false;
    }

    /** A packet goes out in two sends: its header, then its body. */
    method SendPacket(packet: Bytes) returns (sent: bool)
      requires HEADER_SIZE < |packet| == HEADER_SIZE + GetDataSize(packet)
      modifies connection
      ensures sent == !connection.down && connection.incoming == old(connection.incoming)
      ensures old(connection.outgoing) <= connection.outgoing <= old(connection.outgoing) + packet
      ensures sent ==>
        && connection.outgoing == old(connection.outgoing) + packet && connection.status == old(connection.status)
        && connection.pieces == old(connection.pieces) + [packet[..HEADER_SIZE], packet[HEADER_SIZE..]]
    {
      hide GetDataSize;
      TwoSends(connection.outgoing, packet);
      var n := connection.Send(packet[..HEADER_SIZE]);
      if n == 0 {
        return false;
      }
      n := connection.Send(packet[HEADER_SIZE..HEADER_SIZE + GetDataSize(packet)]);
      sent := n != 0;
      assert packet[HEADER_SIZE..HEADER_SIZE + GetDataSize(packet)] == packet[HEADER_SIZE..];
      assert old(connection.pieces) + [packet[..HEADER_SIZE]] + [packet[HEADER_SIZE..]]
          == old(connection.pieces) + [packet[..HEADER_SIZE], packet[HEADER_SIZE..]];
    }

    /** Connects and says who the client is (src/client/client.cpp:41-58); the connection is given. */
    method Connect(connection: Connection, mac: Mac) returns (connected: bool)
      modifies this`connection, connection
      ensures this.connection == connection && connection.incoming == old(connection.incoming)
      ensures connected ==>
        !connection.down && connection.status.Success? && connection.outgoing == old(connection.outgoing) + mac
      ensures !connected ==>
        connection.outgoing == old(connection.outgoing) && (connection.down || !old(connection.status).Success?)
    {
      this.connection := connection;
      var failure := connection.Fail();
      if !failure.Success? {
        return false;
      }
      var n := connection.Send(mac);
      connected := n != 0;
    }

    /** Reads what the server offers (src/client/client.cpp:28-39). */
    method HandleDownloadRecovery() returns (result: LoadResult, outFileName: Name)
      requires buffer.Length == BUFFER_SIZE
      modifies this`undefined, connection, buffer
      ensures connection.outgoing == old(connection.outgoing) && connection.down == old(connection.down)
      ensures match Greeted(old(connection.incoming))
        case Broken => result.NetworkError?
        case NoOffer(rest) => result.NoSuchFile? && connection.incoming == rest && undefined == old(undefined)
        case Offer(body, rest) =>
          if |body| <= BUFFER_SIZE
          then
            && result.Success? && connection.incoming == rest && undefined == old(undefined)
            && buffer[..] == body + old(buffer[..])[|body|..]
            && (HasNumberAndName(body) ==> outFileName == NameOf(body))
          else undefined
      ensures 0 !in outFileName && |outFileName| <= BUFFER_SIZE
    {
      hide FromLittleEndian, UntilNul, HasNumberAndName, NameOf, SizeOf;
      ghost var stream := connection.incoming;
      var packet := new Byte[HEADER_SIZE](_ => 0);
      var received := connection.ReceiveAll(packet, 0, HEADER_SIZE);
      outFileName := [];
      if received < HEADER_SIZE {
        return NetworkError, outFileName;
      }
      assert packet[..] == stream[..HEADER_SIZE];
      HeaderKnown(packet[..], stream);
      if packet[0] != DOWNLOAD_RECOVERY {
        return LoadResult.NoSuchFile, outFileName;
      }
      var dataSize := GetDataSize(packet[..]);
      assert dataSize == SizeOf(stream);
      if dataSize > BUFFER_SIZE {
        undefined := true;
        return NetworkError, outFileName;
      }
      received := connection.ReceiveAll(buffer, 0, dataSize);
      if received < dataSize {
        return NetworkError, outFileName;
      }
      ghost var body := stream[HEADER_SIZE..HEADER_SIZE + dataSize];
      assert buffer[..dataSize] == stream[HEADER_SIZE..][..dataSize] == body;
      outFileName := UntilNul(buffer[8..]);
      NameInBuffer(buffer[..], body);
      assert buffer[..][8..] == buffer[8..];
      result := LoadResult.Success;
    }

    method DownloadPacket(fileName: Name, startPos: nat) returns (packet: Bytes)
      requires Buildable(startPos, fileName)
      ensures packet == Encode(Request.Download(startPos, fileName))
      ensures HEADER_SIZE < |packet| == HEADER_SIZE + GetDataSize(packet)
    {
      hide Header, NumberAndName, Sized, UntilNul, GetDataSize;
      PacketRoundTrip(DOWNLOAD, startPos, fileName, View(fileName));
      var builder := new BuildProxy(DOWNLOAD);
      builder.Append(Number(startPos));
      builder.Append(View(fileName));
      packet := builder.Complete();
      assert packet + [] == packet;
    }

    /** The receive loop of `Client::Download`, over the file just opened. */
    method ReceiveFile(fileName: Name, totalSize: nat) returns (whole: bool)
      requires buffer.Length == BUFFER_SIZE && fileName in disk
      modifies this`disk, connection, buffer
      ensures connection.outgoing == old(connection.outgoing) && connection.down == old(connection.down)
      ensures var stream := old(connection.incoming);
        && whole == (totalSize <= |stream|)
        && (if whole
            then
              && connection.incoming == stream[totalSize..]
              && disk == old(disk)[fileName := old(disk)[fileName] + stream[..totalSize]]
            else connection.incoming == [] && disk - {fileName} == old(disk) - {fileName})
    {
      ghost var stream, kept := connection.incoming, disk[fileName];
      var bytesToReceive: nat := totalSize;
      ghost var n: nat := 0;
      assert kept + stream[..0] == kept;
      while bytesToReceive > 0
        invariant n + bytesToReceive == totalSize && n <= |stream|
        invariant connection.incoming == stream[n..] && disk == old(disk)[fileName := kept + stream[..n]]
        invariant connection.outgoing == old(connection.outgoing) && connection.down == old(connection.down)
        decreases bytesToReceive
      {
        var chunkSize := Min(BUFFER_SIZE, bytesToReceive);
        var received := connection.Receive(buffer, 0, chunkSize);
        if received == 0 {
          return false;
        }
        TakenInTwo(stream, n, received);
        AddedInTwo(kept, stream[..n], buffer[..received]);
        disk := disk[fileName := disk[fileName] + buffer[..received]];
        bytesToReceive := bytesToReceive - received;
        n := n + received;
      }
      whole := true;
    }

    /** What `Client::Download` does once its request is out. */
    method ReceiveReply(fileName: Name) returns (result: LoadResult)
      requires buffer.Length == BUFFER_SIZE && fileName in disk
      modifies this`disk, connection, buffer
      ensures connection.outgoing == old(connection.outgoing) && connection.down == old(connection.down)
      ensures var stream := old(connection.incoming);
        var header := Seen(stream, old(buffer[..]), RESPONSE_SIZE);
        && result == Verdict(stream, header)
        && (if result.Success?
            then
              && disk == old(disk)[fileName := old(disk)[fileName] + BehindHeader(stream)[..TotalOf(header)]]
              && connection.incoming == BehindHeader(stream)[TotalOf(header)..]
            else
              && disk - {fileName} == old(disk) - {fileName}
              && connection.incoming == if result.NetworkError? then [] else BehindHeader(stream))
    {
      ghost var stream := connection.incoming;
      var received := connection.ReceiveAll(buffer, 0, RESPONSE_SIZE);
      if received == 0 {
        return NetworkError;
      }
      var header := buffer[..RESPONSE_SIZE];
      SeenIs(buffer[..], stream, old(buffer[..]), RESPONSE_SIZE);
      assert header == buffer[..][..RESPONSE_SIZE];
      hide StatusOf, TotalOf, Seen;
      if StatusOf(header) != StatusCode(Ready) {
        return if StatusOf(header) == StatusCode(Status.NoSuchFile) then LoadResult.NoSuchFile else NotRegularFile;
      }
      var whole := ReceiveFile(fileName, TotalOf(header));
      result := if whole then LoadResult.Success else NetworkError;
    }

    /** Downloads a file, from `startPos` of it on, to the file of the same name; `canOpen` is whether that opens. */
    method Download(fileName: Name, startPos: nat, canOpen: bool) returns (result: LoadResult)
      requires buffer.Length == BUFFER_SIZE && Buildable(startPos, fileName)
      modifies this`disk, connection, buffer
      ensures !canOpen ==> result.InvalidSavePath? && unchanged(this) && unchanged(connection) && unchanged(buffer)
      ensures canOpen ==>
        var request := Encode(Request.Download(startPos, fileName));
        var stream, stale := old(connection.incoming), old(buffer[..]);
        if connection.down
        then
          && result.NetworkError? && disk == old(disk) - {fileName} && connection.incoming == stream
          && old(connection.outgoing) <= connection.outgoing <= old(connection.outgoing) + request
        else
          && result == Verdict(stream, Seen(stream, stale, RESPONSE_SIZE))
          && disk == DiskAfter(old(disk), fileName, startPos, stream, stale)
          && connection.outgoing == old(connection.outgoing) + request
          && connection.incoming == StreamAfter(stream, stale)
    {
      hide Encode, Seen, TotalOf, StatusOf, GetDataSize;
      if !canOpen {
        return InvalidSavePath;
      }
      disk := disk[fileName := if startPos > 0 && fileName in disk then disk[fileName] else []];

      result := NetworkError;
      var packet := DownloadPacket(fileName, startPos);
      var sent := SendPacket(packet);
      if sent {
        result := ReceiveReply(fileName);
      }
      if !result.Success? {
        disk := disk - {fileName};
      }
    }

    method EchoPacket(message: Bytes, after: Byte) returns (packet: Bytes)
      requires |message| < BUFFER_SIZE
      ensures packet == Encode(Request.Echo(message + [after]))
      ensures HEADER_SIZE < |packet| == HEADER_SIZE + GetDataSize(packet)
    {
      hide Header, GetDataSize, Sized;
      var data := message + [after];
      SizedIsFrame(ECHO, data);
      var builder := new BuildProxy(ECHO);
      builder.Append(Raw(data, |message| + 1));
      assert data[..|message| + 1] == data;
      packet := builder.Complete();
      assert packet + [] == packet;
    }

    /** Echoes a message; `after` is the character the view is followed by, which goes along. */
    method Echo(message: Bytes, after: Byte) returns (reply: Bytes)
      requires buffer.Length == BUFFER_SIZE && |message| < BUFFER_SIZE
      modifies connection, buffer
      ensures var data, stream := message + [after], old(connection.incoming);
        if connection.down
        then reply == [] && connection.incoming == stream
        else
          && connection.outgoing == old(connection.outgoing) + Encode(Request.Echo(data))
          && connection.incoming == stream[Min(|data|, |stream|)..]
          && reply == if stream == [] then [] else Seen(stream, old(buffer[..]), |data|)[..|message|]
    {
      hide Encode, GetDataSize, Header, FromLittleEndian;
      ghost var data := message + [after];
      var packet := EchoPacket(message, after);
      var sent := SendPacket(packet);
      if !sent {
        return [];
      }
      ghost var stream, stale := connection.incoming, buffer[..];
      var received := connection.ReceiveAll(buffer, 0, |message| + 1);
      if received == 0 {
        return [];
      }
      SeenIs(buffer[..], stream, stale, |data|);
      reply := buffer[..|message|];
      assert reply == buffer[..][..|data|][..|message|];
    }

    /** Asks for the server's time, a signed number, zero when that fails. */
    method Time() returns (time: int)
      requires buffer.Length == BUFFER_SIZE
      modifies connection, buffer
      ensures var stream := old(connection.incoming);
        if connection.down
        then time == 0 && connection.incoming == stream
        else
          && connection.outgoing == old(connection.outgoing) + Encode(Request.Time)
          && connection.incoming == stream[Min(TIME_SIZE, |stream|)..]
          && time == if stream == [] then 0 else Signed(FromLittleEndian(Seen(stream, old(buffer[..]), TIME_SIZE)))
    {
      hide Header, GetSize, GetDataSize, Sized, FromLittleEndian;
      LengthOfEmpty(TIME);
      var builder := new BuildProxy(TIME);
      var packet := builder.Complete();
      var n := connection.Send(packet[..GetSize(packet)]);
      if n == 0 {
        return 0;
      }
      assert packet[..HEADER_SIZE] == packet;
      ghost var stream, stale := connection.incoming, buffer[..];
      var received := connection.ReceiveAll(buffer, 0, TIME_SIZE);
      if received == 0 {
        return 0;
      }
      SeenIs(buffer[..], stream, stale, TIME_SIZE);
      assert buffer[..TIME_SIZE] == buffer[..][..TIME_SIZE];
      time := Signed(FromLittleEndian(buffer[..TIME_SIZE]));
    }

    method Close() returns (closed: bool)
      modifies connection
      ensures closed == !connection.down && connection.incoming == old(connection.incoming)
      ensures connection.outgoing == old(connection.outgoing) + if closed then Encode(Request.Close) else []
    {
      hide Header, GetSize, Sized;
      LengthOfEmpty(CLOSE);
      var builder := new BuildProxy(CLOSE);
      var packet := builder.Complete();
      assert packet[..HEADER_SIZE] == packet;
      var n := connection.Send(packet[..GetSize(packet)]);
      closed := n == GetSize(packet);
    }

    method UploadPacket(fileName: Name, fileSize: nat) returns (packet: Bytes)
      requires Buildable(fileSize, fileName)
      ensures packet == Header(UPLOAD, 9 + |fileName|) + NumberAndName(fileSize, fileName)
      ensures HEADER_SIZE < |packet| == HEADER_SIZE + GetDataSize(packet)
    {
      hide Header, NumberAndName, Sized, UntilNul, GetDataSize;
      PacketRoundTrip(UPLOAD, fileSize, fileName, CString(fileName));
      var builder := new BuildProxy(UPLOAD);
      builder.Append(Number(fileSize));
      builder.Append(CString(fileName));
      packet := builder.Complete();
    }

    /** The send loop of `Client::Upload`. */
    method SendFile(content: Bytes) returns (whole: bool)
      requires buffer.Length == BUFFER_SIZE && !connection.down
      modifies connection, buffer
      ensures whole == !connection.down && connection.incoming == old(connection.incoming)
      ensures old(connection.outgoing) <= connection.outgoing <= old(connection.outgoing) + content
      ensures if whole
        then
          && connection.outgoing == old(connection.outgoing) + content
          && connection.pieces == old(connection.pieces) + Chunks(content)
        else |connection.outgoing| < |old(connection.outgoing)| + |content|
    {
      hide SentSoFar;
      var bytesToSend: nat := |content|;
      ghost var out, pieces, n: nat := connection.outgoing, connection.pieces, 0;
      SendStarts(content, out, pieces);
      while bytesToSend > 0
        invariant n + bytesToSend == |content| && !connection.down
        invariant connection.incoming == old(connection.incoming)
        invariant SentSoFar(content, n, out, connection.outgoing, pieces, connection.pieces)
        decreases bytesToSend
      {
        var chunkSize := Min(BUFFER_SIZE, bytesToSend);
        SendGoesOn(content, n, out, connection.outgoing, pieces, connection.pieces);
        SentIs(content, n, out, connection.outgoing, pieces, connection.pieces);
        PartSent(out, content, n);
        var ok := FileStreams.SendNext(connection, buffer, content, |content| - bytesToSend, chunkSize);
        if !ok {
          return false;
        }
        n := n + chunkSize;
        bytesToSend := bytesToSend - chunkSize;
      }
      SendEnds(content, out, connection.outgoing, pieces, connection.pieces);
      whole := true;
    }

    /** Uploads the file at `path`, which holds `content` if it opens. */
    method Upload(path: Name, canOpen: bool, content: Bytes) returns (result: LoadResult)
      requires buffer.Length == BUFFER_SIZE && Buildable(|content|, FileName(path))
      modifies connection, buffer
      ensures connection.incoming == old(connection.incoming)
      ensures !canOpen ==> result.NoSuchFile? && unchanged(connection) && unchanged(buffer)
      ensures canOpen ==>
        var code := Encode(Request.Upload(FileName(path), content));
        if connection.down
        then
          && result.NetworkError?
          && old(connection.outgoing) <= connection.outgoing <= old(connection.outgoing) + code
        else
          && result.Success?
          && connection.outgoing == old(connection.outgoing) + code
          && connection.pieces == old(connection.pieces)
              + [code[..HEADER_SIZE], code[HEADER_SIZE..|code| - |content|]] + Chunks(content)
    {
      hide Header, NumberAndName, GetDataSize, Chunks;
      if !canOpen {
        return LoadResult.NoSuchFile;
      }
      var packet := UploadPacket(FileName(path), |content|);
      ghost var code := Encode(Request.Upload(FileName(path), content));
      assert code == packet + content;
      assert packet[..HEADER_SIZE] == code[..HEADER_SIZE] && packet[HEADER_SIZE..] == code[HEADER_SIZE..|packet|];
      var sent := SendPacket(packet);
      SentInTwo(old(connection.outgoing), packet, content, connection.outgoing);
      if !sent {
        return NetworkError;
      }
      var whole := SendFile(content);
      SentInTwo(old(connection.outgoing), packet, content, connection.outgoing);
      result := if whole then LoadResult.Success else NetworkError;
    }

    /** `connect` (src/client/clientConsole.cpp:39-82): connects and, offered a download it left behind and told so,
        goes on with it from the size of the file it has. `answer` is the first line typed that is not empty. */
    method ConnectCmd(connection: Connection, mac: Mac, answer: string, canOpen: bool)
      requires buffer.Length == BUFFER_SIZE && !undefined && forall n | n in disk :: |disk[n]| < U64
      modifies this, connection, buffer
      ensures var stream := old(connection.incoming);
        !undefined && old(connection.status).Success? && !connection.down ==>
          match Greeted(stream)
          case Offer(body, rest) =>
            HasNumberAndName(body) ==>
              if answer in {"y", "Y"} && canOpen
              then
                var name := NameOf(body);
                && connection.outgoing
                    == old(connection.outgoing) + mac + Encode(Request.Download(SizeIn(old(disk), name), name))
                && var stale := body + old(buffer[..])[Min(|body|, BUFFER_SIZE)..];
                   && disk == DiskAfter(old(disk), name, SizeIn(old(disk), name), rest, stale)
                   && connection.incoming == StreamAfter(rest, stale)
              else
                && connection.outgoing == old(connection.outgoing) + mac
                && disk == old(disk) && connection.incoming == rest
          case _ => connection.outgoing == old(connection.outgoing) + mac && disk == old(disk)
      ensures !undefined && connection.down ==>
        || (connection.outgoing == old(connection.outgoing) && disk == old(disk))
        || (match Greeted(old(connection.incoming))
            case Offer(body, rest) =>
              HasNumberAndName(body) ==>
                var name, sent := NameOf(body), old(connection.outgoing) + mac;
                && answer in {"y", "Y"} && canOpen && disk == old(disk) - {name} && connection.incoming == rest
                && sent <= connection.outgoing <= sent + Encode(Request.Download(SizeIn(old(disk), name), name))
            case _ => false)
      ensures undefined ==>
        match Greeted(old(connection.incoming)) case Offer(body, _) => |body| > BUFFER_SIZE case _ => true
    {
      hide Encode, Greeted, DiskAfter, StreamAfter, HasNumberAndName, NameOf, Seen;
      var connected := Connect(connection, mac);
      if !connected {
        return;
      }
      var result, fileName := HandleDownloadRecovery();
      if !result.Success? {
        return;
      }
      assert |answer| == 1 ==> answer == [answer[0]];
      if |answer| != 1 || (answer[0] != 'y' && answer[0] != 'Y') {
        return;
      }
      var downloadedSize := if fileName in disk then |disk[fileName]| else 0;
      var _ := Download(fileName, downloadedSize, canOpen);
    }
  }

  /** The body of an offer: the position and the part of the path behind the last slash. */
  lemma OfferBody(stamp: Stamp, dir: Bytes, base: Name)
    requires StampOk(stamp) && 47 !in base && (stamp.path == base || stamp.path == dir + [47] + base)
    ensures var body := StampBody(stamp);
      && body == LittleEndian(stamp.position, 8) + base + [0] && |body| <= 8188
      && HasNumberAndName(body) && NumberOf(body) == stamp.position && NameOf(body) == base
  {
    hide LittleEndian, HasNumberAndName, NameOf, NumberOf;
    BaseName(dir, base);
    NumberAndNameRoundTrip(stamp.position, base, []);
    assert NumberAndName(stamp.position, base) + [] == StampBody(stamp);
  }

  lemma OfferRead(body: Bytes, rest: Bytes)
    requires |body| <= MAX_BODY
    ensures Header(DOWNLOAD_RECOVERY, |body|) + body == [6, 0, |body| % 256, |body| / 256] + body
    ensures Greeted(Header(DOWNLOAD_RECOVERY, |body|) + body + rest) == Offer(body, rest)
  {
    TwoBytes(|body|);
    FrameParts(DOWNLOAD_RECOVERY, body, rest);
    hide Header;
    var stream := Header(DOWNLOAD_RECOVERY, |body|) + body + rest;
    assert stream == Header(DOWNLOAD_RECOVERY, |body|) + (body + rest);
    PacketThenRest(stream, body, rest);
  }

  /** A client is offered exactly the stamp the server holds for it, under the part of its path behind the last slash;
      the bytes of that offer, and of its absence, are these. */
  lemma OfferReceived(stamps: map<Mac, Stamp>, mac: Mac, padding: Byte, rest: Bytes, dir: Bytes, base: Name)
    requires mac in stamps ==>
      StampOk(stamps[mac]) && 47 !in base && (stamps[mac].path == base || stamps[mac].path == dir + [47] + base)
    ensures if mac in stamps
      then
        var body := LittleEndian(stamps[mac].position, 8) + base + [0];
        && Greeting(stamps, mac, padding) == [6, 0, |body| % 256, |body| / 256] + body
        && Greeted(Greeting(stamps, mac, padding) + rest) == Offer(body, rest)
        && |body| <= 8188 && HasNumberAndName(body)
        && NumberOf(body) == stamps[mac].position && NameOf(body) == base
      else
        && Greeting(stamps, mac, padding) == [0, padding, 0, 0]
        && Greeted(Greeting(stamps, mac, padding) + rest) == NoOffer(rest)
  {
    hide Header, LittleEndian, StampBody, StampOk, HasNumberAndName, NameOf, NumberOf;
    if mac in stamps {
      OfferBody(stamps[mac], dir, base);
      OfferRead(StampBody(stamps[mac]), rest);
      hide Greeted;
    } else {
      assert ([0, padding, 0, 0] + rest)[HEADER_SIZE..] == rest;
    }
  }

  lemma StatusByEntry(files: Files, name: Name)
    ensures DownloadStatus(files, name) ==
      match (if name == [] then Special else if name in files then files[name] else Absent)
      case Absent => Status.NoSuchFile
      case Special => IsNotFile
      case Regular(_, readable, _) => if readable then Ready else Status.NoSuchFile
  {
  }

  /** The reply the server owes for a download, arrived whole, is read to its last byte and no further, and the result
      is what the status says. An offered file is appended to the copy from where it was asked for: that makes the copy
      the hosted file if and only if it was a first part of it. A refused download leaves no copy. */
  lemma DownloadCompletes(files: Files, disk: Disk, name: Name, start: nat, reply: Bytes, rest: Bytes, stale: Bytes)
    requires AnswersDownload(files, name, start, reply) && RESPONSE_SIZE <= |stale|
    requires |Kept(disk, name, start)| == start
    ensures var stream := reply + rest;
      var disk' := DiskAfter(disk, name, start, stream, stale);
      var kept, hosted := Kept(disk, name, start), Hosted(files, name);
      && StreamAfter(stream, stale) == rest
      && Verdict(stream, Seen(stream, stale, RESPONSE_SIZE))
          == (match (if name == [] then Special else if name in files then files[name] else Absent)
              case Absent => LoadResult.NoSuchFile
              case Special => NotRegularFile
              case Regular(_, readable, _) => if readable then LoadResult.Success else LoadResult.NoSuchFile)
      && (if DownloadStatus(files, name).Ready?
          then
            && disk' == disk[name := kept + Tail(hosted, start)]
            && (disk'[name] == hosted <==> kept <= hosted)
          else disk' == disk - {name})
  {
    hide StatusOf, TotalOf, Hosted, DownloadStatus;
    StatusByEntry(files, name);
    var stream := reply + rest;
    var header := Seen(stream, stale, RESPONSE_SIZE);
    ResponseRead(reply, header);
    assert BehindHeader(stream) == reply[RESPONSE_SIZE..] + rest;
    if DownloadStatus(files, name).Ready? {
      Appended(Kept(disk, name, start), Hosted(files, name));
      assert BehindHeader(stream)[..TotalOf(header)] == Tail(Hosted(files, name), start);
      assert BehindHeader(stream)[TotalOf(header)..] == rest;
    } else {
      assert [] + rest == rest;
    }
  }

  /** A stream that breaks inside the reply: exactly when it breaks inside the header, after at least one byte, and
      what the buffer held before completes it to a Ready header of size zero, is Success reported. The copy is then
      as it was, and so the whole file exactly if the request asked for nothing more. */
  lemma BrokenReply(files: Files, disk: Disk, name: Name, start: nat, reply: Bytes, arrived: Bytes, stale: Bytes)
    requires AnswersDownload(files, name, start, reply) && DownloadStatus(files, name).Ready?
    requires RESPONSE_SIZE <= |stale| && arrived < reply
    requires |Kept(disk, name, start)| == start && Kept(disk, name, start) <= Hosted(files, name)
    ensures var header := Seen(arrived, stale, RESPONSE_SIZE);
      var disk' := DiskAfter(disk, name, start, arrived, stale);
      && (Verdict(arrived, header).Success? <==>
            0 < |arrived| < RESPONSE_SIZE && StatusOf(header) == StatusCode(Ready) && TotalOf(header) == 0)
      && (if Verdict(arrived, header).Success?
          then
            && disk' == disk[name := Kept(disk, name, start)]
            && (disk'[name] == Hosted(files, name) <==> start >= |Hosted(files, name)|)
          else disk' == disk - {name})
  {
    hide StatusOf, TotalOf, Hosted;
    var header := Seen(arrived, stale, RESPONSE_SIZE);
    if |arrived| >= RESPONSE_SIZE {
      ResponseRead(reply, header);
    } else {
      assert BehindHeader(arrived) == [];
    }
    assert Kept(disk, name, start) + [] == Kept(disk, name, start);
  }

  /** It takes no more than a buffer that is still blank and one byte of a Ready reply. */
  lemma BlankBufferReportsSuccess()
    ensures var stale := seq(BUFFER_SIZE, _ => 0);
      Verdict([0], Seen([0], stale, RESPONSE_SIZE)).Success?
  {
    var header := Seen([0], seq(BUFFER_SIZE, _ => 0), RESPONSE_SIZE);
    assert forall i | 0 <= i < RESPONSE_SIZE :: header[i] == 0;
    LoadZeros(header[..4]);
    LoadZeros(header[8..16]);
  }

  /** Recovery: an interrupted download, offered again under its file name and accepted, ends with the whole file. */
  lemma RecoveryCompletes(files: Files, disk: Disk, stamps: map<Mac, Stamp>, mac: Mac, padding: Byte, reply: Bytes,
                          dir: Bytes, base: Name)
    requires mac in stamps && StampOk(stamps[mac])
    requires 47 !in base && (stamps[mac].path == base || stamps[mac].path == dir + [47] + base)
    requires DownloadStatus(files, base).Ready?
    requires base in disk ==> disk[base] <= Hosted(files, base)
    requires AnswersDownload(files, base, SizeIn(disk, base), reply)
    ensures match Greeted(Greeting(stamps, mac, padding) + reply)
      case Offer(body, rest) => HasNumberAndName(body) && NameOf(body) == base && rest == reply
      case _ => false
    ensures DiskAfter(disk, base, SizeIn(disk, base), reply, reply) == disk[base := Hosted(files, base)]
  {
    hide DiskAfter, Greeting, NameOf, HasNumberAndName, Greeted, StampBody, Hosted, StatusOf, TotalOf, LittleEndian;
    OfferReceived(stamps, mac, padding, reply, dir, base);
    assert reply + [] == reply;
    DownloadCompletes(files, disk, base, SizeIn(disk, base), reply, [], reply);
    Appended(Kept(disk, base, SizeIn(disk, base)), Hosted(files, base));
  }
}
