/** The machine's server, call by call, carries out the session the methods are proved against: the same files, the same
    replies, the same unread stream as serving the requests of the stream one after another. */
module Refinement {
  import opened Bytes
  import opened Messages
  import opened Exchange
  import opened Framing
  import opened Machine
  import opened Conversation
  import opened ServerCalls
  import opened Wrappers
  import FileServer
  import World

  /** Where a session began: the files, all that is left of the stream, and what has been sent before. */
  datatype Start = Start(files: Files, stream: Bytes, out: Bytes)

  /** What a session has come to: the files before the request in hand, the part of that request already taken off the
      stream, everything sent, and the requests served with their replies. */
  datatype Account = Account(files: Files, read: Bytes, out: Bytes, served: seq<Request>, replies: seq<Bytes>)

  /** The packet of a request is all there. */
  predicate Packet(read: Bytes) {
    |read| >= HEADER_SIZE && |read| >= HEADER_SIZE + SizeOf(read)
  }

  function OrderIn(read: Bytes): Order
    requires Packet(read)
  {
    Decode(OpOf(read), read[HEADER_SIZE..HEADER_SIZE + SizeOf(read)])
  }

  /** What has been read of the content behind the packet. */
  function ContentIn(read: Bytes): Bytes
    requires Packet(read)
  {
    read[HEADER_SIZE + SizeOf(read)..]
  }

  /** An upload is in hand of which `left` bytes are still to come. */
  predicate UploadIn(read: Bytes, left: nat) {
    Packet(read) && OrderIn(read).UploadOrder? && left > 0 && |ContentIn(read)| + left == OrderIn(read).size
  }

  predicate InLoop(pc: Pc, files: Files)
    requires pc.Sending?
  {
    && DownloadStatus(files, pc.name).Ready?
    && pc.start + pc.total == |Hosted(files, pc.name)| && 0 < pc.left <= pc.total
  }

  /** The server's state, given the files before the request in hand and what has been read of it. */
  predicate At(s: Server, files: Files, read: Bytes) {
    match s.pc
    case ReadingBody(_, op, size) =>
      s.files == files && |read| == HEADER_SIZE && op == OpOf(read) && size == SizeOf(read) > 0
    case Storing(_, name, size, left) =>
      && UploadIn(read, left) && OrderIn(read) == UploadOrder(size, name)
      && Accepted(files, name) && s.files == Written(files, name, ContentIn(read))
    case Ignoring(_, left) => UploadIn(read, left) && !Accepted(files, OrderIn(read).name) && s.files == files
    case Sending(_, _, _, _, _) => read == [] && s.files == files && InLoop(s.pc, files)
    case Replying(_, _, next) =>
      && read == [] && s.files == files
      && (next.ReadingHeader? || (next.Sending? && InLoop(next, files) && next.left == next.total))
    case ReadingHeader(_) => read == [] && s.files == files
    case Accepting => read == [] && s.files == files
    case _ => false
  }

  /** What is being sent is the reply to the request served last. */
  predicate InReply(pc: Pc, files: Files, a: Account) {
    match pc
    case Replying(_, _, next) =>
      && a.served != [] && a.replies != [] && Unsent(pc, files) == Last(a.replies)
      && !Last(a.served).Upload? && !Last(a.served).Close?
      && (next.Sending? ==> Last(a.served) == Request.Download(next.start, next.name))
    case Sending(_, name, start, _, _) =>
      a.served != [] && a.replies != [] && Last(a.served) == Request.Download(start, name)
    case _ => true
  }

  /** The account `a` is that of the session begun at `b`, as it stands in the server's state; what the server has
      promised and not yet sent counts as sent. */
  predicate Simulates(s: Server, k: Link, a: Account, b: Start) {
    && At(s, a.files, a.read) && InReply(s.pc, s.files, a) && Sizable(a.files) && (!k.cut ==> a.out == k.down)
    && SoFar(b.files, b.stream, b.out, a.files, a.read + k.up, a.out + Unsent(s.pc, s.files), a.served, a.replies,
             !s.pc.Accepting?)
  }

  /** On a connection that has broken, what is sent is lost unnoticed. */
  predicate Calm(call: ServerCall) {
    match call
    case Reply(accepted, _) => accepted
    case SendChunk(accepted) => accepted
    case _ => true
  }

  lemma PacketGrows(read: Bytes, more: Bytes)
    requires Packet(read)
    ensures Packet(read + more) && OrderIn(read + more) == OrderIn(read)
    ensures ContentIn(read + more) == ContentIn(read) + more
  {
    assert (read + more)[2..4] == read[2..4];
    var end := HEADER_SIZE + SizeOf(read);
    assert (read + more)[HEADER_SIZE..end] == read[HEADER_SIZE..end];
  }

  /** The request in hand is the one at the front of the stream. */
  lemma InHand(read: Bytes, up: Bytes)
    requires Packet(read) && (Parse(read + up).Parsed? || OutOfRequests(read + up))
    ensures var end := HEADER_SIZE + SizeOf(read);
      var p := Parse(read + up);
      && p.Parsed? && p == WithContent(OrderIn(read), ContentIn(read) + up, end)
      && p.size >= end && (read + up)[p.size..] == (ContentIn(read) + up)[p.size - end..]
  {
    hide Decode;
    var stream, end := read + up, HEADER_SIZE + SizeOf(read);
    PacketGrows(read, up);
    assert stream[2..4] == read[2..4];
    ParseAtContent(stream, end);
  }

  /** The session goes on behind a request that has been served. */
  lemma Answered(a: Account, b: Start, up: Bytes, reply: Bytes) returns (a': Account)
    requires SoFar(b.files, b.stream, b.out, a.files, a.read + up, a.out, a.served, a.replies, true)
    requires Packet(a.read) && ContentIn(a.read) == []
    requires OrderIn(a.read).UploadOrder? ==> OrderIn(a.read).size == 0
    requires Parse(a.read + up).Parsed? ==> Answers(a.files, Parse(a.read + up).request, reply)
    ensures Parse(a.read + up).Parsed?
    ensures var r := Parse(a.read + up).request;
      && a' == Account(FilesAfter(a.files, r), [], a.out, a.served + [r], a.replies + [reply])
      && SoFar(b.files, b.stream, b.out, a'.files, [] + up, a.out + reply, a'.served, a'.replies, Continues(a.files, r))
  {
    hide SoFar, FilesAfter, Continues, Decode, Answers, OrderIn, OutOfRequests, Parse;
    CleanSoFar(b.files, b.stream, b.out, a.files, a.read + up, a.out, a.served, a.replies);
    InHand(a.read, up);
    ServedOneMore(b.files, b.stream, b.out, a.files, a.read + up, a.out, a.served, a.replies, reply);
    var Parsed(r, n) := Parse(a.read + up);
    a' := Account(FilesAfter(a.files, r), [], a.out, a.served + [r], a.replies + [reply]);
    assert [] + up == up;
  }

  lemma PlainInHand(read: Bytes, up: Bytes, r: Request)
    requires Packet(read) && (Parse(read + up).Parsed? || OutOfRequests(read + up))
    requires OrderIn(read) == OrderOf(r) && (!r.Upload? || r.content == [])
    ensures Parse(read + up).Parsed? && Parse(read + up).request == r
  {
    hide Parse, OutOfRequests, Packet, OrderIn, ContentIn;
    InHand(read, up);
  }

  /** The request in hand has no content and its reply is known. */
  lemma AnsweredPlain(a: Account, b: Start, up: Bytes, r: Request, reply: Bytes) returns (a': Account)
    requires SoFar(b.files, b.stream, b.out, a.files, a.read + up, a.out, a.served, a.replies, true)
    requires Packet(a.read) && ContentIn(a.read) == [] && OrderIn(a.read) == OrderOf(r)
    requires !r.Upload? && !r.Close? && Answers(a.files, r, reply)
    ensures a' == Account(a.files, [], a.out, a.served + [r], a.replies + [reply])
    ensures SoFar(b.files, b.stream, b.out, a'.files, [] + up, a.out + reply, a'.served, a'.replies, true)
  {
    hide SoFar, Decode, Answers, Packet, OrderIn, ContentIn, Parse;
    CleanSoFar(b.files, b.stream, b.out, a.files, a.read + up, a.out, a.served, a.replies);
    PlainInHand(a.read, up, r);
    a' := Answered(a, b, up, reply);
  }

  lemma NotMalformed(read: Bytes, up: Bytes)
    requires Packet(read) && (Parse(read + up).Parsed? || OutOfRequests(read + up))
    ensures !OrderIn(read).Malformed?
  {
    hide Parse, OutOfRequests, Packet, OrderIn, ContentIn;
    InHand(read, up);
  }

  /** A reply promised and a session that goes on. */
  lemma ReplyPromised(s: Server, k: Link, a: Account, b: Start, r: Request, reply: Bytes, next: Pc, rest: Bytes)
    returns (a': Account)
    requires SoFar(b.files, b.stream, b.out, a.files, a.read + k.up, a.out, a.served, a.replies, true)
    requires Packet(a.read) && ContentIn(a.read) == [] && OrderIn(a.read) == OrderOf(r)
    requires !r.Upload? && !r.Close? && Answers(a.files, r, reply + rest)
    requires s.files == a.files && Sizable(a.files) && (!k.cut ==> a.out == k.down)
    requires next.ReadingHeader? || (next.Sending? && InLoop(next, a.files) && next.left == next.total)
    requires rest == if next.Sending? then Tail(Hosted(a.files, next.name), next.start) else []
    requires next.Sending? ==> r == Request.Download(next.start, next.name)
    ensures var (s', k') := Answer(s, k, r, reply, next, rest); Simulates(s', k', a', b)
  {
    hide SoFar, Decode, Answers, Packet, OrderIn, ContentIn, Hosted, Sizable, InLoop, Tail;
    a' := AnsweredPlain(a, b, k.up, r, reply + rest);
  }

  lemma DownloadSimulates(s: Server, k: Link, a: Account, b: Start, mac: Mac, start: nat, name: Name,
                          gap: Bytes, junk: nat)
    returns (a': Account)
    requires SoFar(b.files, b.stream, b.out, a.files, a.read + k.up, a.out, a.served, a.replies, true)
    requires Packet(a.read) && ContentIn(a.read) == [] && OrderIn(a.read) == DownloadOrder(start, name)
    requires s.files == a.files && Sizable(a.files) && (!k.cut ==> a.out == k.down)
    ensures var (s', k') := StartDownload(s, k, mac, start, name, gap, junk); Simulates(s', k', a', b)
  {
    hide SoFar, Decode, Packet, OrderIn, ContentIn, Response, AnswersDownload, Simulates;
    var status := DownloadStatus(s.files, name);
    var total := if status.Ready? then Remaining(Hosted(s.files, name), start) else junk;
    var padding := if |gap| == 4 then gap else [0, 0, 0, 0];
    var next := if status.Ready? && total > 0 then Sending(mac, name, start, total, total) else ReadingHeader(mac);
    var rest := if status.Ready? then Tail(Hosted(s.files, name), start) else [];
    ReplyAnswers(s.files, name, start, padding, total);
    a' := ReplyPromised(s, k, a, b, Request.Download(start, name), Response(status, padding, total), next, rest);
  }

  lemma UploadSimulates(s: Server, k: Link, a: Account, b: Start, mac: Mac, size: nat, name: Name)
    returns (a': Account)
    requires SoFar(b.files, b.stream, b.out, a.files, a.read + k.up, a.out, a.served, a.replies, true)
    requires Packet(a.read) && ContentIn(a.read) == [] && OrderIn(a.read) == UploadOrder(size, name)
    requires s.files == a.files && Sizable(a.files) && (!k.cut ==> a.out == k.down)
    ensures var (s', k') := StartUpload(s, k, mac, size, name); Simulates(s', k', a', b)
  {
    hide SoFar, Decode, Packet, OrderIn, ContentIn, Accepted;
    a' := a;
    if size == 0 {
      CleanSoFar(b.files, b.stream, b.out, a.files, a.read + k.up, a.out, a.served, a.replies);
      PlainInHand(a.read, k.up, Request.Upload(name, []));
      a' := Answered(a, b, k.up, []);
    }
    assert a.out + [] == a.out;
  }

  lemma CloseSimulates(s: Server, k: Link, a: Account, b: Start) returns (a': Account)
    requires SoFar(b.files, b.stream, b.out, a.files, a.read + k.up, a.out, a.served, a.replies, true)
    requires Packet(a.read) && ContentIn(a.read) == [] && (OrderIn(a.read).Unknown? || OrderIn(a.read).Malformed?)
    requires s.files == a.files && Sizable(a.files) && (!k.cut ==> a.out == k.down)
    ensures OrderIn(a.read).Unknown? && Simulates(s.(pc := Accepting), k, a', b)
  {
    hide SoFar, Decode, Packet, OrderIn, ContentIn, Parse;
    CleanSoFar(b.files, b.stream, b.out, a.files, a.read + k.up, a.out, a.served, a.replies);
    NotMalformed(a.read, k.up);
    PlainInHand(a.read, k.up, Request.Close);
    a' := Answered(a, b, k.up, []);
    assert a.out + [] == a.out;
  }

  /** Handling the packet of the request in hand. */
  lemma DispatchSimulates(s: Server, k: Link, a: Account, b: Start, mac: Mac, op: Byte, body: Bytes,
                          clock: Bytes, gap: Bytes, junk: nat)
    returns (a': Account)
    requires SoFar(b.files, b.stream, b.out, a.files, a.read + k.up, a.out, a.served, a.replies, true)
    requires Packet(a.read) && ContentIn(a.read) == [] && OrderIn(a.read) == Decode(op, body)
    requires s.files == a.files && Sizable(a.files) && (!k.cut ==> a.out == k.down)
    ensures var (s', k') := Dispatch(s, k, mac, op, body, clock, gap, junk);
      Simulates(s', k', a', b)
  {
    hide SoFar, Decode, Packet, OrderIn, ContentIn, Simulates, StartUpload, StartDownload, Parse;
    match Decode(op, body)
    case EchoOrder(data) =>
      assert data + [] == data;
      a' := ReplyPromised(s, k, a, b, Request.Echo(data), data, ReadingHeader(mac), []);
    case TimeOrder =>
      var time := if |clock| == TIME_SIZE then clock else LittleEndian(0, 8);
      assert time + [] == time;
      a' := ReplyPromised(s, k, a, b, Request.Time, time, ReadingHeader(mac), []);
    case DownloadOrder(start, name) => a' := DownloadSimulates(s, k, a, b, mac, start, name, gap, junk);
    case UploadOrder(size, name) => a' := UploadSimulates(s, k, a, b, mac, size, name);
    case _ => a' := CloseSimulates(s, k, a, b);
  }

  lemma HeaderSplit(up: Bytes)
    requires |up| >= HEADER_SIZE
    ensures var (packet, rest) := (up[..HEADER_SIZE], up[HEADER_SIZE..]);
      && packet + rest == up && [] + up == up
      && OpOf(packet) == OpOf(up) && SizeOf(packet) == SizeOf(up)
      && (SizeOf(up) == 0 ==>
            Packet(packet) && ContentIn(packet) == [] && OrderIn(packet) == Decode(OpOf(up), []))
  {
    hide Decode;
    assert up[..HEADER_SIZE][2..4] == up[2..4] && up[..HEADER_SIZE][HEADER_SIZE..HEADER_SIZE] == [];
  }

  /** A stream that has ended before a header is complete has ended for the session. */
  lemma NoHeader(s: Server, k: Link, a: Account, b: Start)
    requires s.pc.ReadingHeader? && Simulates(s, k, a, b) && |k.up| < HEADER_SIZE
    ensures Simulates(s.(pc := Accepting), TakeUp(k, |k.up|), a, b)
  {
    hide SoFar, Sizable;
    assert a.out + [] == a.out;
    OutOfStream(b.files, b.stream, b.out, a.files, a.read + k.up, a.out, a.served, a.replies);
    assert k.up[|k.up|..] == [] && [] + k.up[|k.up|..] == [];
  }

  lemma HeaderSimulates(s: Server, k: Link, a: Account, b: Start, clock: Bytes) returns (a': Account)
    requires s.pc.ReadingHeader? && Simulates(s, k, a, b)
    ensures var (s', k') := ReadHeader(s, k, s.pc.mac, clock); Simulates(s', k', a', b)
  {
    hide SoFar, Decode, Dispatch, Sizable, Packet, OrderIn, ContentIn, SizeOf, OpOf;
    assert a.out + [] == a.out;
    a' := a;
    if |k.up| >= HEADER_SIZE {
      HeaderSplit(k.up);
      a' := a.(read := k.up[..HEADER_SIZE]);
      assert a'.read + TakeUp(k, HEADER_SIZE).up == a.read + k.up;
      if SizeOf(k.up) == 0 {
        a' := DispatchSimulates(s, TakeUp(k, HEADER_SIZE), a', b, s.pc.mac, OpOf(k.up), [], clock, [], 0);
      } else {
        assert Simulates(s.(pc := ReadingBody(s.pc.mac, OpOf(k.up), SizeOf(k.up))), TakeUp(k, HEADER_SIZE), a', b);
      }
    } else if k.cut {
      NoHeader(s, k, a, b);
    }
  }

  lemma BodyRead(header: Bytes, body: Bytes)
    requires |header| == HEADER_SIZE && SizeOf(header) == |body|
    ensures Packet(header + body) && ContentIn(header + body) == []
    ensures OrderIn(header + body) == Decode(OpOf(header), body)
  {
    assert (header + body)[2..4] == header[2..4];
    assert (header + body)[HEADER_SIZE..HEADER_SIZE + |body|] == body;
  }

  /** A clean stream that has ended within a packet has ended right behind its header. */
  lemma NoBody(s: Server, k: Link, a: Account, b: Start)
    requires s.pc.ReadingBody? && Simulates(s, k, a, b) && |k.up| < s.pc.size
    ensures k.up == [] && Simulates(s.(pc := Accepting), k, a.(read := []), b)
  {
    hide SoFar, Decode, Hosted;
    var stream := a.read + k.up;
    assert a.out + [] == a.out;
    assert stream[2..4] == a.read[2..4];
    CleanSoFar(b.files, b.stream, b.out, a.files, stream, a.out, a.served, a.replies);
    OutOfStream(b.files, b.stream, b.out, a.files, stream, a.out, a.served, a.replies);
    assert [] + k.up == [];
  }

  lemma BodySimulates(s: Server, k: Link, a: Account, b: Start, clock: Bytes, gap: Bytes, junk: nat)
    returns (a': Account)
    requires s.pc.ReadingBody? && Simulates(s, k, a, b)
    ensures var (s', k') := ReadBody(s, k, s.pc.mac, s.pc.op, s.pc.size, clock, gap, junk); Simulates(s', k', a', b)
  {
    hide SoFar, Decode, Dispatch;
    assert a.out + [] == a.out;
    var size := s.pc.size;
    assert k.up[|k.up|..] == [];
    if |k.up| >= size {
      var packet, body := a.read + k.up[..size], k.up[..size];
      BodyRead(a.read, body);
      assert packet + k.up[size..] == a.read + k.up;
      a' := DispatchSimulates(s, TakeUp(k, size), a.(read := packet), b, s.pc.mac, s.pc.op, body, clock, gap, junk);
    } else {
      a' := a;
      if k.cut {
        NoBody(s, k, a, b);
        a' := a.(read := []);
      }
    }
  }

  lemma WholeLoop(pc: Pc, files: Files)
    requires pc.Sending? && InLoop(pc, files) && pc.left == pc.total
    ensures pc.left <= |Hosted(files, pc.name)|
    ensures Tail(Hosted(files, pc.name), pc.start) == LastOf(Hosted(files, pc.name), pc.left)
  {
  }

  lemma ReplySimulates(s: Server, k: Link, a: Account, b: Start, accepted: bool, failure: Failure) returns (a': Account)
    requires s.pc.Replying? && Simulates(s, k, a, b) && (k.cut ==> accepted)
    ensures var (s', k') := SendReply(s, k, s.pc.reply, s.pc.next, accepted, failure); Simulates(s', k', a', b)
  {
    hide SoFar, Hosted, Sizable, LastOf, Tail, InLoop;
    var reply, next := s.pc.reply, s.pc.next;
    a' := a.(out := a.out + reply);
    if next.Sending? {
      WholeLoop(next, s.files);
      AddedInTwo(a.out, reply, LastOf(Hosted(s.files, next.name), next.left));
    } else {
      AddedInTwo(a.out, reply, []);
    }
  }

  lemma ChunkSimulates(s: Server, k: Link, a: Account, b: Start, accepted: bool) returns (a': Account)
    requires s.pc.Sending? && Simulates(s, k, a, b) && (k.cut ==> accepted)
    ensures var Sending(mac, name, start, total, left) := s.pc;
      var (s', k') := SendNextChunk(s, k, mac, name, start, total, left, accepted);
      Simulates(s', k', a', b)
  {
    hide SoFar, Hosted;
    var Sending(mac, name, start, total, left) := s.pc;
    var hosted := Hosted(s.files, name);
    var chunk := Min(BUFFER_SIZE, left);
    var data := hosted[|hosted| - left..|hosted| - left + chunk];
    ChunkUnsent(hosted, left, chunk);
    AddedInTwo(a.out, data, LastOf(hosted, left - chunk));
    a' := a.(out := a.out + data);
  }

  /** An upload in hand is all there. */
  lemma ContentThere(s: Server, k: Link, a: Account, b: Start)
    requires (s.pc.Storing? || s.pc.Ignoring?) && Simulates(s, k, a, b)
    ensures s.pc.left <= |k.up|
    ensures var UploadOrder(size, name) := OrderIn(a.read);
      var p := Parse(a.read + k.up);
      && p.Parsed? && p.request == Request.Upload(name, ContentIn(a.read) + k.up[..s.pc.left])
      && (a.read + k.up)[p.size..] == k.up[s.pc.left..]
      && |p.request.content| == size > 0
  {
    hide SoFar, Decode, Hosted, Packet, OrderIn, ContentIn, Written;
    assert a.out + [] == a.out;
    CleanSoFar(b.files, b.stream, b.out, a.files, a.read + k.up, a.out, a.served, a.replies);
    InHand(a.read, k.up);
    var content := ContentIn(a.read);
    assert (content + k.up)[..|content| + s.pc.left] == content + k.up[..s.pc.left];
    assert (content + k.up)[|content| + s.pc.left..] == k.up[s.pc.left..];
  }

  lemma SizeFits(read: Bytes)
    requires Packet(read) && OrderIn(read).UploadOrder?
    ensures OrderIn(read).size < U64
  {
    var body := read[HEADER_SIZE..HEADER_SIZE + SizeOf(read)];
    assert HasNumberAndName(body);
    LoadBounded(body[..8]);
    Capacities();
  }

  /** The last of the content has been read: the upload in hand is served. */
  lemma UploadServed(s: Server, k: Link, a: Account, b: Start) returns (a': Account)
    requires (s.pc.Storing? || s.pc.Ignoring?) && Simulates(s, k, a, b)
    ensures s.pc.left <= |k.up|
    ensures var name, content := OrderIn(a.read).name, ContentIn(a.read) + k.up[..s.pc.left];
      && content != [] && a'.read == [] && a'.out == a.out && Sizable(a'.files)
      && a'.files == (if Accepted(a.files, name) then Written(a.files, name, content) else a.files)
      && SoFar(b.files, b.stream, b.out, a'.files, k.up[s.pc.left..], a.out + [], a'.served, a'.replies,
               Accepted(a.files, name))
  {
    hide SoFar, Decode, Hosted, Packet, OrderIn, ContentIn, Written, Accepted, Sizable;
    ContentThere(s, k, a, b);
    SizeFits(a.read);
    assert a.out + [] == a.out;
    ServedOneMore(b.files, b.stream, b.out, a.files, a.read + k.up, a.out, a.served, a.replies, []);
    var r := Parse(a.read + k.up).request;
    a' := Account(FilesAfter(a.files, r), [], a.out, a.served + [r], a.replies + [[]]);
    WrittenSizable(a.files, r.name, r.content);
  }

  lemma NamedIfAccepted(files: Files, name: Name)
    requires Accepted(files, name)
    ensures name != []
  {
    assert Writable(files, name);
  }

  lemma StoreSimulates(s: Server, k: Link, a: Account, b: Start, wanted: nat, failure: Failure) returns (a': Account)
    requires s.pc.Storing? && Simulates(s, k, a, b)
    ensures var (s', k') := Store(s, k, s.pc.mac, s.pc.name, s.pc.size, s.pc.left, wanted, failure);
      Simulates(s', k', a', b)
  {
    hide SoFar, Decode, Packet, OrderIn, ContentIn, Written, Hosted, Sizable, Accepted;
    ContentThere(s, k, a, b);
    var name, left, n := s.pc.name, s.pc.left, Received(wanted, s.pc.left, |k.up|);
    var content := ContentIn(a.read);
    NamedIfAccepted(a.files, name);
    WrittenFound(a.files, name, content);
    WrittenAgain(a.files, name, content, content + k.up[..n]);
    if n < left {
      PacketGrows(a.read, k.up[..n]);
      assert a.read + k.up[..n] + k.up[n..] == a.read + k.up;
      a' := a.(read := a.read + k.up[..n]);
    } else {
      a' := UploadServed(s, k, a, b);
      assert [] + k.up[left..] == k.up[left..];
    }
  }

  lemma IgnoreSimulates(s: Server, k: Link, a: Account, b: Start, wanted: nat, failure: Failure) returns (a': Account)
    requires s.pc.Ignoring? && Simulates(s, k, a, b)
    ensures var (s', k') := Ignore(s, k, s.pc.mac, s.pc.left, wanted, failure); Simulates(s', k', a', b)
  {
    hide SoFar, Decode, Packet, OrderIn, ContentIn, Written, Hosted, Accepted;
    ContentThere(s, k, a, b);
    var left, n := s.pc.left, Received(wanted, s.pc.left, |k.up|);
    if n < left {
      PacketGrows(a.read, k.up[..n]);
      assert a.read + k.up[..n] + k.up[n..] == a.read + k.up;
      a' := a.(read := a.read + k.up[..n]);
    } else {
      a' := UploadServed(s, k, a, b);
      assert [] + k.up[left..] == k.up[left..];
    }
  }

  lemma NotReadingMac(s: Server, k: Link, a: Account, b: Start)
    requires Simulates(s, k, a, b)
    ensures !s.pc.ReadingMac? && !s.pc.Undefined?
  {
  }

  /** Whatever a call of the server returns, the session it leaves is still the one begun: the files, what has been
      sent and what is left of the stream are those of serving the same script. */
  lemma ServerSimulates(s: Server, k: Link, a: Account, b: Start, call: ServerCall) returns (a': Account)
    requires Simulates(s, k, a, b) && (k.cut ==> Calm(call))
    ensures var (s', k') := ServerStep(s, k, call); Simulates(s', k', a', b)
  {
    hide Simulates, ReadHeader, ReadBody, SendReply, SendNextChunk, Store, Ignore;
    a' := a;
    match (s.pc, call)
    case (ReadingMac, _) => assert false by { NotReadingMac(s, k, a, b); }
    case (Replying(_, _, _), Reply(accepted, failure)) => a' := ReplySimulates(s, k, a, b, accepted, failure);
    case (ReadingHeader(_), TakeHeader(clock)) => a' := HeaderSimulates(s, k, a, b, clock);
    case (ReadingBody(_, _, _), TakeBody(clock, gap, junk)) => a' := BodySimulates(s, k, a, b, clock, gap, junk);
    case (Sending(_, _, _, _, _), SendChunk(accepted)) => a' := ChunkSimulates(s, k, a, b, accepted);
    case (Storing(_, _, _, _), TakeContent(wanted, failure)) => a' := StoreSimulates(s, k, a, b, wanted, failure);
    case (Ignoring(_, _), TakeContent(wanted, failure)) => a' := IgnoreSimulates(s, k, a, b, wanted, failure);
    case _ =>
  }

  lemma {:induction false} JoinedLast(front: seq<Bytes>, last: Bytes)
    ensures Joined(front + [last]) == Joined(front) + last
  {
    if front == [] {
      assert [] + [last] == [last] && [last][1..] == [];
    } else {
      assert (front + [last])[1..] == front[1..] + [last];
      JoinedLast(front[1..], last);
    }
  }

  /** What is not sent of the last reply is what was sent without it. */
  lemma LastSplit(out: Bytes, replies: seq<Bytes>, sent: Bytes, unsent: Bytes, n: nat)
    requires replies != [] && sent + unsent == out + Joined(replies) && |Last(replies)| == n + |unsent|
    ensures sent == out + Joined(replies[..|replies| - 1]) + Last(replies)[..n]
  {
    var front := replies[..|replies| - 1];
    assert replies == front + [Last(replies)];
    JoinedLast(front, Last(replies));
    var whole := out + Joined(front) + Last(replies);
    assert sent + unsent == whole;
    assert sent == whole[..|sent|];
  }

  /** The requests served before the last one, and what the last one was answered with. */
  lemma {:induction false} LastAnswered(files: Files, served: seq<Request>, replies: seq<Bytes>)
    requires AnswersAll(files, served, replies) && served != []
    ensures |replies| == |served|
    ensures var n := |served| - 1;
      && AnswersAll(files, served[..n], replies[..n])
      && Answers(FilesAfterAll(files, served[..n]), served[n], replies[n])
      && FilesAfterAll(files, served) == FilesAfter(FilesAfterAll(files, served[..n]), served[n])
    decreases |served|
  {
    hide FilesAfter, Answers;
    if |served| > 1 {
      LastAnswered(FilesAfter(files, served[0]), served[1..], replies[1..]);
      var n := |served| - 1;
      assert served[..n][1..] == served[1..][..n - 1] && replies[..n][1..] == replies[1..][..n - 1];
    }
  }

  lemma ReplyBroke(files: Files, r: Request, mac: Mac, out: Bytes, stamps: map<Mac, Stamp>)
    requires !r.Upload? && !r.Close?
    ensures FileServer.BrokeOff(files, r, mac, out, out, stamps, stamps)
  {
  }

  lemma ChunkBroke(files: Files, pc: Pc, out: Bytes, sent: Bytes, reply: Bytes, stamps: map<Mac, Stamp>)
    requires pc.Sending? && InLoop(pc, files) && AnswersDownload(files, pc.name, pc.start, reply)
    requires sent == out + reply[..RESPONSE_SIZE + (pc.total - pc.left)]
    ensures FileServer.BrokeOff(files, Request.Download(pc.start, pc.name), pc.mac, out, sent, stamps,
                                stamps[pc.mac := Stamp(pc.name, pc.start + pc.total - pc.left)])
  {
    hide Hosted, StatusOf, TotalOf;
    assert FileServer.IsPart(files, pc.name, pc.start, reply, out, sent, pc.total - pc.left);
  }

  /** What the refused send leaves, in the machine's terms. */
  lemma RefusedSend(s: Server, k: Link, call: ServerCall)
    requires k.cut
    requires (s.pc.Replying? && call == Reply(false, Reported))
      || (s.pc.Sending? && InLoop(s.pc, s.files) && call == SendChunk(false))
    ensures ServerStep(s, k, call).0 == s.(pc := Accepting,
      stamps := if s.pc.Replying? then s.stamps
                else s.stamps[s.pc.mac := Stamp(s.pc.name, s.pc.start + s.pc.total - s.pc.left)],
      ledger := ServerStep(s, k, call).0.ledger)
  {
    hide Hosted, DownloadStatus;
  }

  lemma LastLength(s: Server, reply: Bytes)
    requires s.pc.Sending? && InLoop(s.pc, s.files) && AnswersDownload(s.files, s.pc.name, s.pc.start, reply)
    ensures |reply| == RESPONSE_SIZE + s.pc.total && |Unsent(s.pc, s.files)| == s.pc.left
  {
    hide Hosted, StatusOf, TotalOf;
  }

  /** A send that is refused on a broken connection ends the session the way the method's ends: of the reply in hand
      nothing has gone out, or a download has been interrupted and the stamp records how much of the file has. */
  lemma BreakRefinesMethod(s: Server, k: Link, a: Account, b: Start, call: ServerCall)
    requires Simulates(s, k, a, b) && k.cut
    requires (s.pc.Replying? && call == Reply(false, Reported)) || (s.pc.Sending? && call == SendChunk(false))
    ensures var s' := ServerStep(s, k, call).0;
      && s'.pc.Accepting? && |a.served| == |a.replies| > 0
      && FileServer.SessionBroke(b.files, b.stream, s.pc.mac, b.out, s.stamps, a.served[..|a.served| - 1],
                                 a.replies[..|a.replies| - 1], s'.files, a.out, s'.stamps)
  {
    hide FileServer.BrokeOff, Script, FilesAfterAll, Joined, Unserved, EndsCleanly, AnswersDownload, Sizable;
    hide ServerStep, DownloadStatus, Hosted, Unsent;
    LastAnswered(b.files, a.served, a.replies);
    RefusedSend(s, k, call);
    var n := |a.served| - 1;
    var out := b.out + Joined(a.replies[..n]);
    if s.pc.Replying? {
      LastSplit(b.out, a.replies, a.out, Unsent(s.pc, s.files), 0);
      assert out + a.replies[n][..0] == out;
      ReplyBroke(s.files, a.served[n], s.pc.mac, out, s.stamps);
    } else {
      LastLength(s, a.replies[n]);
      LastSplit(b.out, a.replies, a.out, Unsent(s.pc, s.files), RESPONSE_SIZE + (s.pc.total - s.pc.left));
      ChunkBroke(s.files, s.pc, out, a.out, a.replies[n], s.stamps);
    }
  }

  function Calls(s: Server, k: Link, calls: seq<ServerCall>): (Server, Link)
    decreases |calls|
  {
    if calls == [] then (s, k)
    else
      var (s', k') := ServerStep(s, k, calls[0]);
      Calls(s', k', calls[1..])
  }

  lemma {:induction false} CallsSimulate(s: Server, k: Link, a: Account, b: Start, calls: seq<ServerCall>)
    returns (a': Account)
    requires Simulates(s, k, a, b) && (k.cut ==> forall call | call in calls :: Calm(call))
    ensures var (s', k') := Calls(s, k, calls); Simulates(s', k', a', b) && k'.cut == k.cut
    decreases |calls|
  {
    hide ServerStep, Simulates;
    a' := a;
    if calls != [] {
      assert calls[0] in calls;
      World.ServerFrame(s, k, calls[0]);
      a' := ServerSimulates(s, k, a, b, calls[0]);
      var (s', k') := ServerStep(s, k, calls[0]);
      a' := CallsSimulate(s', k', a', b, calls[1..]);
    }
  }

  /** Nothing more is served: the session is over, or waits for a request that has not arrived. */
  predicate AtRest(pc: Pc, up: Bytes) {
    pc.Accepting? || (pc.ReadingHeader? && !Parse(up).Parsed?)
  }

  lemma RestIsEnd(s: Server, k: Link, a: Account, b: Start)
    requires Simulates(s, k, a, b)
    ensures !s.pc.Undefined? && a.served <= Script(b.files, b.stream) && AnswersAll(b.files, a.served, a.replies)
    ensures !k.cut ==> k.down <= b.out + Joined(a.replies)
    ensures AtRest(s.pc, k.up) ==>
      && a.served == Script(b.files, b.stream) && s.files == FilesAfterAll(b.files, a.served)
      && (!k.cut ==> k.down == b.out + Joined(a.replies))
    ensures s.pc.Accepting? ==> k.up == Unserved(b.files, b.stream)
  {
    hide Parse, FilesAfterAll, AnswersAll, Joined, Script, Unserved, EndsCleanly, Hosted, Decode, Written;
    if AtRest(s.pc, k.up) {
      assert [] + k.up == k.up && a.out + [] == a.out;
      if s.pc.ReadingHeader? {
        FirstOfScript(a.files, k.up);
      }
    }
  }

  /** Refinement: whatever the server's calls return and however they cut the stream into pieces, they serve the
      requests of the stream in order, each with the reply it is owed; when the session comes to rest, that is the whole
      script, and files, replies and unread stream are those the script leaves. */
  lemma SessionRefinesScript(s: Server, k: Link, calls: seq<ServerCall>)
    returns (served: seq<Request>, replies: seq<Bytes>)
    requires s.pc.ReadingHeader? && Sizable(s.files) && EndsCleanly(s.files, k.up)
    requires k.cut ==> forall call | call in calls ::
      (call.Reply? ==> call.accepted) && (call.SendChunk? ==> call.accepted)
    ensures var script := Script(s.files, k.up);
      var (s', k') := Calls(s, k, calls);
      && !s'.pc.Undefined? && served <= script && AnswersAll(s.files, served, replies)
      && (!k.cut ==> k'.down <= k.down + Joined(replies))
      && (s'.pc.Accepting? || (s'.pc.ReadingHeader? && !Parse(k'.up).Parsed?) ==>
            && served == script && s'.files == FilesAfterAll(s.files, script)
            && (!k.cut ==> k'.down == k.down + Joined(replies)))
      && (s'.pc.Accepting? ==> k'.up == Unserved(s.files, k.up))
  {
    hide Calls, Parse, FilesAfterAll, AnswersAll, Joined, Script, Unserved, EndsCleanly;
    var a, b := Account(s.files, [], k.down, [], []), Start(s.files, k.up, k.down);
    SessionStarts(s.files, k.up, k.down);
    assert [] + k.up == k.up && k.down + [] == k.down;
    a := CallsSimulate(s, k, a, b, calls);
    var (s', k') := Calls(s, k, calls);
    RestIsEnd(s', k', a, b);
    served, replies := a.served, a.replies;
  }

  /** The machine's greeting is the method's: the identifier it reads, what it sends, the stamps it leaves. */
  lemma GreetRefinesMethod(s: Server, k: Link, padding: Byte, failure: Failure)
    requires s.pc.ReadingMac? && (|k.up| >= 6 || (k.cut && failure.EndOfStream?))
    ensures var (s', k') := ServerStep(s, k, TakeMac(padding, failure));
      var mac := FileServer.Identifier(k.up);
      && s'.pc == Replying(mac, Greeting(s.stamps, mac, padding), ReadingHeader(mac))
      && s'.files == s.files && s'.stamps == StampsAfterGreeting(s.stamps, mac)
      && k' == k.(up := k.up[Min(6, |k.up|)..], due := Greeting(s.stamps, mac, padding),
                  offer := if mac in s.stamps then Some(s.stamps[mac]) else None)
  {
    hide Greeting;
  }

  /** An upload that breaks off takes its file with it here as well, however much of it has been stored. */
  lemma BrokenUploadRefinesMethod(s: Server, k: Link, files: Files, size: nat, wanted: nat)
    requires s.pc.Storing? && s.pc.left > 0 && k.cut && k.up == []
    requires s.pc.name != [] && Accepted(files, s.pc.name)
    requires s.files == Written(files, s.pc.name, Hosted(s.files, s.pc.name))
    ensures var (s', k') := ServerStep(s, k, TakeContent(wanted, Reported));
      s'.pc.Accepting? && s'.files == files - {s.pc.name} && s'.stamps == s.stamps && k' == k
    ensures FileServer.FilesWithout(files, UploadOrder(size, s.pc.name)) == files - {s.pc.name}
  {
    hide Received;
    WrittenAgain(files, s.pc.name, Hosted(s.files, s.pc.name), []);
  }
}
