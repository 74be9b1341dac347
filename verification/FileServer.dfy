/** The server of src/server/server.cpp and src/server/server.h, and the loop of src/server/main.cpp that drives it. */
module FileServer {
  import opened Bytes
  import opened Messages
  import opened Exchange
  import opened Framing
  import opened Connections
  import opened Packets
  import FileStreams

  function NumberAt(buffer: array<Byte>, at: nat): nat
    requires at + 8 <= buffer.Length
    reads buffer
  {
    FromLittleEndian(buffer[at..at + 8])
  }

  /** What a `const char*` into the buffer denotes at this moment. */
  function CStringAt(buffer: array<Byte>, at: nat): Bytes
    requires at <= buffer.Length
    reads buffer
  {
    UntilNul(buffer[at..])
  }

  class ClientHandle {
    const connection: Connection
    var identifier: Mac
    /** Holds a request first and then, in the same bytes, the file data. */
    var buffer: array<Byte>

    constructor (connection: Connection)
      ensures this.connection == connection && fresh(buffer) && buffer.Length == BUFFER_SIZE
      ensures identifier == [0, 0, 0, 0, 0, 0]
    {
      this.connection := connection;
      identifier := [0, 0, 0, 0, 0, 0];
      buffer := new Byte[BUFFER_SIZE](_ => 0);
    }
  }

  predicate Holds(clients: seq<ClientHandle>, connection: Connection) {
    exists i :: 0 <= i < |clients| && clients[i].connection == connection
  }

  /** What an eviction drops is the failing connection exactly if that is the last client's. */
  lemma EvictedLast(clients: seq<ClientHandle>, client: ClientHandle)
    requires client in clients
    ensures (forall i, j | 0 <= i < j < |clients| :: clients[i].connection != clients[j].connection) ==>
      (Holds(clients[..|clients| - 1], client.connection) <==> client != clients[|clients| - 1])
  {
    var i :| 0 <= i < |clients| && clients[i] == client;
    assert i < |clients| - 1 ==> clients[..|clients| - 1][i].connection == client.connection;
  }

  /** The first `n` bytes of the stream have been taken off. */
  predicate TakenOff(stream: Bytes, n: nat, incoming: Bytes) {
    n <= |stream| && incoming == stream[n..]
  }

  lemma NothingTakenOff(stream: Bytes)
    ensures TakenOff(stream, 0, stream)
  {
  }

  lemma MoreTakenOff(stream: Bytes, n: nat, incoming: Bytes, received: nat)
    requires TakenOff(stream, n, incoming) && received <= |incoming|
    ensures TakenOff(stream, n + received, incoming[received..])
  {
    TakenInTwo(stream, n, received);
  }

  lemma TakenOffIs(stream: Bytes, n: nat, incoming: Bytes)
    requires TakenOff(stream, n, incoming)
    ensures n <= |stream| && incoming == stream[n..] && (incoming == [] ==> n == |stream|)
  {
  }

  /** Of the reply a download is owed, the header and `sent` bytes of the file have gone out. */
  predicate IsPart(files: Files, name: Name, start: nat, reply: Bytes, out: Bytes, out': Bytes, sent: nat) {
    && AnswersDownload(files, name, start, reply)
    && RESPONSE_SIZE + sent < |reply| && out' == out + reply[..RESPONSE_SIZE + sent]
  }

  /** A download whose stream broke: either nothing was sent, or a stamp records how much of the file was. */
  ghost predicate Interrupted(files: Files, name: Name, start: nat, mac: Mac, out: Bytes, out': Bytes,
                              stamps: map<Mac, Stamp>, stamps': map<Mac, Stamp>)
  {
    || (stamps' == stamps && out' == out)
    || exists reply, sent ::
        IsPart(files, name, start, reply, out, out', sent) && stamps' == stamps[mac := Stamp(name, start + sent)]
  }

  lemma NothingSent(files: Files, name: Name, start: nat, mac: Mac, out: Bytes, stamps: map<Mac, Stamp>)
    ensures Interrupted(files, name, start, mac, out, out, stamps, stamps)
  {
  }

  /** A stamp says how far the file has gone out: up to its position, from where the download started. */
  lemma StampRecordsSent(files: Files, name: Name, start: nat, mac: Mac, out: Bytes, out': Bytes,
                         stamps: map<Mac, Stamp>, stamps': map<Mac, Stamp>)
    requires Interrupted(files, name, start, mac, out, out', stamps, stamps') && (stamps' != stamps || out' != out)
    ensures name in files && files[name].Regular? && files[name].readable
    ensures mac in stamps' && stamps'[mac].path == name && stamps' == stamps[mac := stamps'[mac]]
    ensures var end, bytes := stamps'[mac].position, files[name].bytes;
      && start <= end < |bytes| && out <= out' && |out'| == |out| + 16 + (end - start)
      && out'[|out| + 16..] == bytes[start..end]
  {
    hide StatusOf, TotalOf;
    var reply, sent: nat :|
      IsPart(files, name, start, reply, out, out', sent) && stamps' == stamps[mac := Stamp(name, start + sent)];
    assert out'[|out| + 16..] == reply[16..][..sent];
  }

  /** A download that went through: the whole reply, the file in as few sends as the buffer allows. */
  predicate Delivered(files: Files, name: Name, start: nat, out: Bytes, out': Bytes,
                      pieces: seq<Bytes>, pieces': seq<Bytes>)
  {
    && out <= out'
    && AnswersDownload(files, name, start, out'[|out|..])
    && |pieces| < |pieces'|
    && pieces'[|pieces| + 1..]
        == if DownloadStatus(files, name).Ready? then Chunks(Tail(Hosted(files, name), start)) else []
  }

  lemma ReplyDelivered(files: Files, name: Name, start: nat, padding: Bytes, total: nat, out: Bytes, pieces: seq<Bytes>)
    requires Sizable(files) && |padding| == 4
    requires DownloadStatus(files, name).Ready? ==> total == Remaining(Hosted(files, name), start)
    ensures var status := DownloadStatus(files, name);
      var response := Response(status, padding, total);
      var tail := Tail(Hosted(files, name), start);
      if status.Ready? && tail != []
      then Delivered(files, name, start, out, out + response + tail, pieces, pieces + [response] + Chunks(tail))
      else Delivered(files, name, start, out, out + response, pieces, pieces + [response])
  {
    hide AnswersDownload, Response;
    ReplyAnswers(files, name, start, padding, total);
    var response := Response(DownloadStatus(files, name), padding, total);
    var tail := Tail(Hosted(files, name), start);
    assert response + [] == response;
    assert out + response + tail == out + (response + tail);
  }

  /** The status in a reply that went through. */
  lemma DeliveredStatus(files: Files, name: Name, start: nat, out: Bytes, pieces: seq<Bytes>)
    ensures forall out', pieces' | Delivered(files, name, start, out, out', pieces, pieces') ::
      && |out'| >= |out| + 16
      && FromLittleEndian(out'[|out|..][..4]) ==
        match (if name == [] then Special else if name in files then files[name] else Absent)
        case Absent => 1
        case Special => 2
        case Regular(_, readable, _) => if readable then 0 else 1
  {
    hide AnswersDownload, FromLittleEndian, Chunks, Tail;
    forall out', pieces' | Delivered(files, name, start, out, out', pieces, pieces')
      ensures |out'| >= |out| + 16
      ensures FromLittleEndian(out'[|out|..][..4]) ==
        match (if name == [] then Special else if name in files then files[name] else Absent)
        case Absent => 1
        case Special => 2
        case Regular(_, readable, _) => if readable then 0 else 1
    {
      ReplyStatus(files, name, start, out'[|out|..]);
    }
  }

  lemma ReplyInterrupted(files: Files, name: Name, start: nat, mac: Mac, padding: Bytes, total: nat, out: Bytes,
                         stamps: map<Mac, Stamp>, sent: nat)
    requires DownloadStatus(files, name).Ready? && |padding| == 4 && total == Remaining(Hosted(files, name), start)
    requires sent < |Tail(Hosted(files, name), start)|
    requires Sizable(files) && StampsOk(stamps) && 0 !in name && 9 + |name| <= MAX_BODY
    ensures StampsOk(stamps[mac := Stamp(name, start + sent)])
    ensures Interrupted(files, name, start, mac,
                        out, out + Response(Ready, padding, total) + Tail(Hosted(files, name), start)[..sent],
                        stamps, stamps[mac := Stamp(name, start + sent)])
  {
    hide AnswersDownload, Response;
    var response, tail := Response(Ready, padding, total), Tail(Hosted(files, name), start);
    ReplyAnswers(files, name, start, padding, total);
    AddedInTwo(out, response, tail[..sent]);
    assert (response + tail)[..RESPONSE_SIZE + sent] == response + tail[..sent];
    assert IsPart(files, name, start, response + tail, out, out + response + tail[..sent], sent);
  }

  /** Looking at the first character decides whether the name is refused. */
  lemma RefusedByFirst(s: Bytes)
    requires s != []
    ensures Refused(UntilNul(s)) <==> s[0] == DOT || s[0] == SLASH || s[0] == TILDE
  {
  }

  /** The layouts overlaid on the buffer read what was received, because the name ends inside it. */
  lemma BodyInBuffer(buffer: array<Byte>, size: nat)
    requires HEADER_SIZE + size <= buffer.Length && HasNumberAndName(buffer[HEADER_SIZE..HEADER_SIZE + size])
    ensures var body := buffer[HEADER_SIZE..HEADER_SIZE + size];
      NumberAt(buffer, HEADER_SIZE) == NumberOf(body) && CStringAt(buffer, HEADER_SIZE + 8) == NameOf(body)
  {
    var body := buffer[HEADER_SIZE..HEADER_SIZE + size];
    assert buffer[HEADER_SIZE..HEADER_SIZE + 8] == body[..8];
    assert buffer[HEADER_SIZE + 8..] == body[8..] + buffer[HEADER_SIZE + size..];
    UntilNulWithin(body[8..], buffer[HEADER_SIZE + size..]);
  }

  lemma BodyBehindHeader(buffer: Bytes, stream: Bytes, size: nat)
    requires HEADER_SIZE + size <= |stream| && HEADER_SIZE + size <= |buffer|
    requires buffer[..HEADER_SIZE] + buffer[HEADER_SIZE..HEADER_SIZE + size] == stream[..HEADER_SIZE + size]
    ensures buffer[0] == stream[0]
    ensures buffer[HEADER_SIZE..HEADER_SIZE + size] == stream[HEADER_SIZE..HEADER_SIZE + size]
  {
  }

  lemma NameFits(body: Bytes)
    requires HasNumberAndName(body)
    ensures 9 + |NameOf(body)| <= |body|
  {
    EndsBeforeNul(body[8..]);
  }

  /** An upload that breaks off takes its file with it. */
  function FilesWithout(files: Files, order: Order): Files {
    if order.UploadOrder? && Accepted(files, order.name) then files - {order.name} else files
  }

  /** What handling one packet comes to, as far as nothing undefined has happened. */
  predicate PacketHandled(order: Order, files: Files, files': Files, stream: Bytes, stream': Bytes,
                          out: Bytes, out': Bytes, more: bool, down: bool, undefined: bool, spinning: bool)
  {
    var request := WithContent(order, stream, 0);
    && (request.Parsed? && !down ==>
          && !undefined && !spinning
          && more == Continues(files, request.request)
          && files' == FilesAfter(files, request.request)
          && stream' == stream[request.size..]
          && out <= out' && Answers(files, request.request, out'[|out|..]))
    && (more && !undefined ==> request.Parsed? && !down && !spinning)
    && (!order.UploadOrder? ==> files' == files && stream' == stream)
    && (!request.Parsed? && !undefined ==> out' == out && (!spinning ==> files' == FilesWithout(files, order)))
  }

  lemma ReplyHandled(order: Order, files: Files, stream: Bytes, out: Bytes, reply: Bytes, out': Bytes,
                     more: bool, down: bool, undefined: bool)
    requires order == EchoOrder(reply) || (order == TimeOrder && |reply| == TIME_SIZE)
    requires if down then out' == out && (more ==> undefined) else more && !undefined && out' == out + reply
    ensures PacketHandled(order, files, files, stream, stream, out, out', more, down, undefined, false)
  {
    assert stream[0..] == stream;
  }

  lemma CloseHandled(files: Files, stream: Bytes, out: Bytes)
    ensures PacketHandled(Unknown, files, files, stream, stream, out, out, false, false, false, false)
  {
    assert stream[0..] == stream;
  }

  /** The files after a stream that ends inside a request: only one that ends inside an upload's content changes any. */
  function FilesAfterBreak(files: Files, stream: Bytes): Files {
    if |stream| < HEADER_SIZE || SizeOf(stream) > MAX_BODY || |stream| < HEADER_SIZE + SizeOf(stream) then files
    else FilesWithout(files, Decode(OpOf(stream), stream[HEADER_SIZE..HEADER_SIZE + SizeOf(stream)]))
  }

  lemma NoneBroken(files: Files, stream: Bytes)
    requires OutOfRequests(stream)
    ensures FilesAfterBreak(files, stream) == files
  {
  }

  /** A stamp is made only for the client in session, and only when a send has failed. */
  predicate StampsKept(stamps: map<Mac, Stamp>, stamps': map<Mac, Stamp>, mac: Mac, undefined: bool, down: bool) {
    undefined || stamps' == stamps || (down && mac in stamps' && stamps' == stamps[mac := stamps'[mac]])
  }

  /** A request during which the connection broke: nothing was sent, or a download was interrupted. */
  ghost predicate BrokeOff(files: Files, r: Request, mac: Mac, out: Bytes, out': Bytes,
                           stamps: map<Mac, Stamp>, stamps': map<Mac, Stamp>)
  {
    if r.Download? then Interrupted(files, r.name, r.position, mac, out, out', stamps, stamps')
    else !r.Upload? && !r.Close? && out' == out && stamps' == stamps
  }

  /** Such a request changes no file. If anything of a reply has gone out, or a stamp been made, it was a download, and
      the stamp's position is where the part of the file that has gone out ends. */
  lemma BrokeOffMeans(files: Files, r: Request, mac: Mac, out: Bytes, out': Bytes,
                      stamps: map<Mac, Stamp>, stamps': map<Mac, Stamp>)
    requires BrokeOff(files, r, mac, out, out', stamps, stamps')
    ensures !r.Upload? && !r.Close?
    ensures out' != out || stamps' != stamps ==>
      && r.Download? && mac in stamps' && stamps' == stamps[mac := stamps'[mac]] && stamps'[mac].path == r.name
      && r.name in files && files[r.name].Regular? && files[r.name].readable
      && var end, bytes := stamps'[mac].position, files[r.name].bytes;
         && r.position <= end < |bytes| && out <= out' && |out'| == |out| + 16 + (end - r.position)
         && out'[|out| + 16..] == bytes[r.position..end]
  {
    if out' != out || stamps' != stamps {
      StampRecordsSent(files, r.name, r.position, mac, out, out', stamps, stamps');
    }
  }

  /** The same of a session: the requests before it have been served. */
  ghost predicate SessionBroke(files: Files, stream: Bytes, mac: Mac, out: Bytes, stamps: map<Mac, Stamp>,
                               served: seq<Request>, replies: seq<Bytes>,
                               files': Files, out': Bytes, stamps': map<Mac, Stamp>)
  {
    var script := Script(files, stream);
    && |served| < |script| && served == script[..|served|] && AnswersAll(files, served, replies)
    && files' == FilesAfterAll(files, served)
    && BrokeOff(files', script[|served|], mac, out + Joined(replies), out', stamps, stamps')
  }

  lemma Paired(files: Files, rs: seq<Request>, replies: seq<Bytes>)
    requires AnswersAll(files, rs, replies)
    ensures |replies| == |rs|
  {
  }

  /** Over requests sent back to back, one of those that are served broke off, and all before it have been answered. */
  lemma SessionBrokeMeans(files: Files, rs: seq<Request>, mac: Mac, out: Bytes, stamps: map<Mac, Stamp>,
                          served: seq<Request>, replies: seq<Bytes>,
                          files': Files, out': Bytes, stamps': map<Mac, Stamp>)
    requires AllWellFormed(rs)
    requires SessionBroke(files, EncodeAll(rs), mac, out, stamps, served, replies, files', out', stamps')
    ensures |served| < |rs| && served == rs[..|served|] && |replies| == |served|
    ensures files' == FilesAfterAll(files, served) && BrokeOff(files', rs[|served|], mac, out + Joined(replies), out',
                                                               stamps, stamps')
    ensures forall i | 0 <= i < |served| :: Answers(FilesAfterAll(files, served[..i]), served[i], replies[i])
  {
    hide Script, EncodeAll, BrokeOff, UpToEnding, Joined, AnswersAll, FilesAfterAll, Answers;
    WholeRequests(files, rs);
    ServedOfList(files, rs);
    Paired(files, served, replies);
    forall i | 0 <= i < |served| ensures Answers(FilesAfterAll(files, served[..i]), served[i], replies[i]) {
      AnswersEach(files, served, replies, i);
    }
  }

  /** What handling one request comes to, as far as nothing undefined has happened. */
  predicate RequestHandled(files: Files, files': Files, stream: Bytes, stream': Bytes,
                           out: Bytes, out': Bytes, more: bool, down: bool, undefined: bool, spinning: bool)
  {
    match Parse(stream)
    case Parsed(request, size) =>
      && (!down ==>
            && !undefined && !spinning
            && more == Continues(files, request)
            && files' == FilesAfter(files, request)
            && stream' == stream[size..]
            && out <= out' && Answers(files, request, out'[|out|..]))
      && (more && !undefined ==> !down && !spinning)
    case _ =>
      && (more ==> undefined)
      && (OutOfRequests(stream) ==> !undefined && !spinning && stream' == [])
      && (!undefined ==> out' == out && (!spinning ==> files' == FilesAfterBreak(files, stream)))
  }

  lemma ContentBehind(order: Order, stream: Bytes, end: nat)
    requires end <= |stream|
    ensures var behind, whole := WithContent(order, stream[end..], 0), WithContent(order, stream[end..], end);
      && behind.Parsed? == whole.Parsed?
      && (behind.Parsed? ==>
            behind.request == whole.request && stream[end..][behind.size..] == stream[whole.size..])
  {
  }

  lemma HandledParses(stream: Bytes, end: nat, files: Files, files': Files, stream': Bytes,
                      out: Bytes, out': Bytes, more: bool, down: bool, undefined: bool, spinning: bool)
    requires HEADER_SIZE <= end <= |stream| && SizeOf(stream) == end - HEADER_SIZE <= MAX_BODY
    requires PacketHandled(Decode(stream[0], stream[HEADER_SIZE..end]), files, files', stream[end..], stream',
                           out, out', more, down, undefined, spinning)
    ensures RequestHandled(files, files', stream, stream', out, out', more, down, undefined, spinning)
    ensures var p := WithContent(Decode(stream[0], stream[HEADER_SIZE..end]), stream[end..], 0);
      p.Parsed? ==> Parse(stream).Parsed? && Parse(stream).request == p.request
  {
    ParseAtContent(stream, end);
    assert !OutOfRequests(stream);
    hide Decode, Answers, FilesAfter, Continues, Parse, SizeOf, WithContent, FilesWithout, OutOfRequests;
    ContentBehind(Decode(stream[0], stream[HEADER_SIZE..end]), stream, end);
  }

  lemma NothingHandled(files: Files, stream: Bytes, stream': Bytes, out: Bytes, down: bool,
                       undefined: bool, spinning: bool)
    requires !Parse(stream).Parsed? && !spinning && FilesAfterBreak(files, stream) == files
    requires OutOfRequests(stream) ==> !undefined && stream' == []
    ensures RequestHandled(files, files, stream, stream', out, out, false, down, undefined, spinning)
  {
  }

  lemma ReachedAnswers(files: Files, stream: Bytes, out: Bytes, files0: Files, stream0: Bytes, out0: Bytes,
                       served: seq<Request>, replies: seq<Bytes>)
    requires Reached(files, stream, out, files0, stream0, out0, served, replies, true)
    ensures AnswersAll(files, served, replies) && files0 == FilesAfterAll(files, served)
    ensures out0 == out + Joined(replies)
  {
  }

  /** One more request served is one more request of the script; with none left the session is over. */
  lemma SessionGoesOn(files: Files, stream: Bytes, out: Bytes, files0: Files, stream0: Bytes, out0: Bytes,
                      served: seq<Request>, replies: seq<Bytes>,
                      files': Files, stream': Bytes, out': Bytes, more: bool, undefined: bool, spinning: bool)
    requires Reached(files, stream, out, files0, stream0, out0, served, replies, true)
    requires EndsCleanly(files, stream) ==> EndsCleanly(files0, stream0)
    requires RequestHandled(files0, files', stream0, stream', out0, out', more, false, undefined, spinning)
    ensures EndsCleanly(files, stream) || Parse(stream0).Parsed? ==> !undefined && !spinning
    ensures if Parse(stream0).Parsed?
      then
        && out0 <= out'
        && Reached(files, stream, out, files', stream', out',
                   served + [Parse(stream0).request], replies + [out'[|out0|..]], more)
        && (more && EndsCleanly(files, stream) ==> EndsCleanly(files', stream'))
      else
        && (more ==> undefined)
        && (!undefined ==> out' == out0 && served == Script(files, stream) && AnswersAll(files, served, replies))
        && (EndsCleanly(files, stream) ==> Reached(files, stream, out, files', stream', out', served, replies, false))
  {
    hide Parse, FilesAfter, Continues, Answers, Reached, OutOfRequests;
    if Parse(stream0).Parsed? {
      var reply := out'[|out0|..];
      assert out' == out0 + reply;
      ReachedOneMore(files, stream, out, files0, stream0, out0, served, replies, reply);
    } else {
      NextOfScript(files, stream, out, files0, stream0, out0, served, replies);
      ReachedAnswers(files, stream, out, files0, stream0, out0, served, replies);
      if EndsCleanly(files, stream) {
        FirstOfScript(files0, stream0);
        NoneBroken(files0, stream0);
        OutOfStream(files, stream, out, files0, stream0, out0, served, replies);
      }
    }
  }

  /** What holds of a session between two rounds, as long as nothing undefined has happened and nothing broken. */
  predicate SessionStands(files: Files, stream: Bytes, out: Bytes, files': Files, stream': Bytes, out': Bytes,
                          served: seq<Request>, replies: seq<Bytes>, more: bool, undefined: bool, down: bool)
  {
    !undefined && !down ==>
      if more
      then
        && Reached(files, stream, out, files', stream', out', served, replies, true)
        && (EndsCleanly(files, stream) ==> EndsCleanly(files', stream'))
      else
        && served == Script(files, stream) && AnswersAll(files, served, replies) && out' == out + Joined(replies)
        && (EndsCleanly(files, stream) ==> Reached(files, stream, out, files', stream', out', served, replies, false))
  }

  lemma StandsReached(files: Files, stream: Bytes, out: Bytes, files0: Files, stream0: Bytes, out0: Bytes,
                      served: seq<Request>, replies: seq<Bytes>)
    requires SessionStands(files, stream, out, files0, stream0, out0, served, replies, true, false, false)
    ensures Reached(files, stream, out, files0, stream0, out0, served, replies, true)
    ensures EndsCleanly(files, stream) ==> EndsCleanly(files0, stream0)
  {
  }

  /** Where a session has come to its end. */
  lemma StandsEnd(files: Files, stream: Bytes, out: Bytes, files': Files, stream': Bytes, out': Bytes,
                  served: seq<Request>, replies: seq<Bytes>)
    requires SessionStands(files, stream, out, files', stream', out', served, replies, false, false, false)
    ensures served == Script(files, stream) && AnswersAll(files, served, replies) && out' == out + Joined(replies)
    ensures EndsCleanly(files, stream) ==>
      files' == FilesAfterAll(files, served) && stream' == Unserved(files, stream)
  {
    hide Script, AnswersAll, EndsCleanly, FilesAfterAll, Unserved, Joined;
  }

  lemma ReachedEnd(files: Files, stream: Bytes, out: Bytes, files': Files, stream': Bytes, out': Bytes,
                   served: seq<Request>, replies: seq<Bytes>)
    requires Reached(files, stream, out, files', stream', out', served, replies, false)
    ensures served == Script(files, stream) && AnswersAll(files, served, replies) && out' == out + Joined(replies)
  {
  }

  lemma HandledStands(files: Files, stream: Bytes, out: Bytes, files0: Files, stream0: Bytes, out0: Bytes,
                      served: seq<Request>, replies: seq<Bytes>,
                      files': Files, stream': Bytes, out': Bytes, more: bool, undefined: bool, spinning: bool)
    requires Reached(files, stream, out, files0, stream0, out0, served, replies, true)
    requires EndsCleanly(files, stream) ==> EndsCleanly(files0, stream0)
    requires RequestHandled(files0, files', stream0, stream', out0, out', more, false, undefined, spinning)
    ensures EndsCleanly(files, stream) ==> !undefined && !spinning
    ensures if Parse(stream0).Parsed?
      then
        && out0 <= out'
        && SessionStands(files, stream, out, files', stream', out', served + [Parse(stream0).request],
                         replies + [out'[|out0|..]], more, undefined, false)
      else SessionStands(files, stream, out, files', stream', out', served, replies, more, undefined, false)
  {
    hide Parse, RequestHandled, Reached, EndsCleanly;
    SessionGoesOn(files, stream, out, files0, stream0, out0, served, replies, files', stream', out',
                  more, undefined, spinning);
    ReachedAnswers(files, stream, out, files0, stream0, out0, served, replies);
    if Parse(stream0).Parsed? && !more {
      ReachedEnd(files, stream, out, files', stream', out', served + [Parse(stream0).request],
                 replies + [out'[|out0|..]]);
    }
  }

  /** A session that breaks has served a first part of its script. */
  lemma SessionBreaks(files: Files, stream: Bytes, mac: Mac, out: Bytes, stamps: map<Mac, Stamp>,
                      files0: Files, stream0: Bytes, out0: Bytes, served: seq<Request>, replies: seq<Bytes>,
                      out': Bytes, stamps': map<Mac, Stamp>)
    requires Reached(files, stream, out, files0, stream0, out0, served, replies, true) && Parse(stream0).Parsed?
    requires BrokeOff(files0, Parse(stream0).request, mac, out0, out', stamps, stamps')
    ensures SessionBroke(files, stream, mac, out, stamps, served, replies, files0, out', stamps')
  {
    hide Parse, Reached, BrokeOff;
    NextOfScript(files, stream, out, files0, stream0, out0, served, replies);
    ReachedAnswers(files, stream, out, files0, stream0, out0, served, replies);
  }

  /** What came of one attempt to accept a client. */
  datatype Arrival = NoClient | Client(stream: Bytes)

  function Arrivals(connections: seq<Connection?>): (a: seq<Arrival>)
    reads set c | c in connections && c != null
    ensures |a| == |connections|
    ensures forall i | 0 <= i < |a| ::
      a[i] == if connections[i] == null then NoClient else Client(connections[i].incoming)
  {
    seq(|connections|, i requires 0 <= i < |connections| reads set c | c in connections && c != null =>
      if connections[i] == null then NoClient else Client(connections[i].incoming))
  }

  function FilesAfterSession(files: Files, stream: Bytes): Files
    requires MAC_SIZE <= |stream|
  {
    FilesAfterAll(files, Script(files, stream[MAC_SIZE..]))
  }

  /** Every client says who it is and then sends whole requests, up to one that ends its session or to the end. */
  predicate AllEndCleanly(files: Files, arrivals: seq<Arrival>)
    decreases |arrivals|
  {
    arrivals != [] ==>
      match arrivals[0]
      case NoClient => AllEndCleanly(files, arrivals[1..])
      case Client(stream) =>
        && MAC_SIZE <= |stream| && EndsCleanly(files, stream[MAC_SIZE..])
        && AllEndCleanly(FilesAfterSession(files, stream), arrivals[1..])
  }

  /** What serving the clients one after another comes to. */
  function FilesAfterSessions(files: Files, arrivals: seq<Arrival>): Files
    decreases |arrivals|
  {
    if arrivals == [] then files
    else
      match arrivals[0]
      case Client(stream) =>
        FilesAfterSessions(if MAC_SIZE <= |stream| then FilesAfterSession(files, stream) else files, arrivals[1..])
      case NoClient => FilesAfterSessions(files, arrivals[1..])
  }

  /** A client that says who it is and sends requests has them served, up to the first that ends its session, before the
      next client's; one that does not connect changes nothing. */
  lemma ClientsInTurn(files: Files, mac: Mac, rs: seq<Request>, later: seq<Arrival>)
    requires AllWellFormed(rs)
    ensures var arrivals := [Client(mac + EncodeAll(rs))] + later;
      var files' := FilesAfterAll(files, UpToEnding(files, rs));
      && (AllEndCleanly(files, arrivals) <==> AllEndCleanly(files', later))
      && FilesAfterSessions(files, arrivals) == FilesAfterSessions(files', later)
    ensures AllEndCleanly(files, [NoClient] + later) <==> AllEndCleanly(files, later)
    ensures FilesAfterSessions(files, [NoClient] + later) == FilesAfterSessions(files, later)
    ensures AllEndCleanly(files, []) && FilesAfterSessions(files, []) == files
  {
    hide EncodeAll, Script, EndsCleanly, FilesAfterAll, UpToEnding, AllWellFormed;
    WholeRequests(files, rs);
    assert (mac + EncodeAll(rs))[MAC_SIZE..] == EncodeAll(rs);
    assert ([Client(mac + EncodeAll(rs))] + later)[1..] == later && ([NoClient] + later)[1..] == later;
  }

  lemma NextArrival(files: Files, arrivals: seq<Arrival>, i: nat)
    requires i < |arrivals|
    ensures arrivals[i].NoClient? ==>
      && (AllEndCleanly(files, arrivals[i..]) ==> AllEndCleanly(files, arrivals[i + 1..]))
      && FilesAfterSessions(files, arrivals[i..]) == FilesAfterSessions(files, arrivals[i + 1..])
    ensures arrivals[i].Client? && AllEndCleanly(files, arrivals[i..]) ==>
      && MAC_SIZE <= |arrivals[i].stream|
      && EndsCleanly(files, arrivals[i].stream[MAC_SIZE..])
      && var files' := FilesAfterAll(files, Script(files, arrivals[i].stream[MAC_SIZE..]));
         && AllEndCleanly(files', arrivals[i + 1..])
         && FilesAfterSessions(files, arrivals[i..]) == FilesAfterSessions(files', arrivals[i + 1..])
  {
    hide EndsCleanly, FilesAfterAll, Script;
    assert arrivals[i..][1..] == arrivals[i + 1..];
  }

  lemma NoneLeft(files: Files, arrivals: seq<Arrival>)
    requires arrivals == []
    ensures FilesAfterSessions(files, arrivals) == files
  {
  }

  lemma NoStamps()
    ensures StampsOk(map[])
  {
  }

  /** With no more than one stamp in store, whoever connects leaves none. */
  lemma GreetingClears(stamps: map<Mac, Stamp>, mac: Mac)
    requires |stamps| <= 1
    ensures StampsAfterGreeting(stamps, mac) == map[]
  {
    if mac in stamps {
      assert |stamps.Keys - {mac}| == 0;
      assert stamps - {mac} == map[];
    }
  }

  /** A session makes at most one. */
  lemma StampsAfterSession(stamps: map<Mac, Stamp>, mac: Mac, undefined: bool, down: bool)
    requires StampsKept(map[], stamps, mac, undefined, down)
    ensures !undefined ==> |stamps| <= 1 && (!down ==> stamps == map[])
  {
  }

  /** The six bytes a client sends first; what does not arrive stays zero. */
  function Identifier(stream: Bytes): (mac: Mac)
    ensures forall i | 0 <= i < 6 :: mac[i] == if i < |stream| then stream[i] else 0
  {
    if |stream| >= MAC_SIZE then stream[..MAC_SIZE] else stream + seq(MAC_SIZE - |stream|, _ => 0)
  }

  /** Every request for the time is answered with the time it was served at. */
  predicate OnTime(served: seq<Request>, replies: seq<Bytes>, clock: nat -> int) {
    |replies| == |served| && forall i | 0 <= i < |served| && served[i].Time? ::
      replies[i] == LittleEndian(clock(i) % U64, 8)
  }

  lemma NothingTimed(clock: nat -> int)
    ensures OnTime([], [], clock)
  {
  }

  lemma TimeAdded(served: seq<Request>, replies: seq<Bytes>, clock: nat -> int, r: Request, out: Bytes, out': Bytes)
    requires OnTime(served, replies, clock) && out <= out'
    requires r.Time? ==> out' == out + LittleEndian(clock(|served|) % U64, 8)
    ensures OnTime(served + [r], replies + [out'[|out|..]], clock)
  {
    hide LittleEndian;
  }

  lemma OnTimeIs(served: seq<Request>, replies: seq<Bytes>, clock: nat -> int)
    requires OnTime(served, replies, clock)
    ensures |replies| == |served|
    ensures forall i | 0 <= i < |served| && served[i].Time? :: replies[i] == LittleEndian(clock(i) % U64, 8)
  {
  }

  lemma TimeOpcode(stream: Bytes)
    ensures Parse(stream).Parsed? && Parse(stream).request.Time? ==> stream[0] == 2
  {
    hide FromLittleEndian, HasNumberAndName, NameOf, NumberOf;
  }

  class Server {
    var clients: seq<ClientHandle>
    var recoveryStamps: map<Mac, Stamp>
    /** The host directory. */
    var files: Files
    /** The code has gone on with a destroyed handle, or with bytes it never received: nothing is claimed then. */
    var undefined: bool
    /** A receive loop has met the end of the stream without an error and repeats itself for ever. */
    var spinning: bool

    constructor (files: Files)
      ensures clients == [] && recoveryStamps == map[] && this.files == files && !undefined && !spinning
    {
      clients := [];
      recoveryStamps := map[];
      this.files := files;
      undefined, spinning := false, false;
    }

    /** `client` is the one in session: the last of the vector, with its buffer. */
    predicate Active(client: ClientHandle)
      reads this, client
    {
      clients != [] && clients[|clients| - 1] == client && client.buffer.Length == BUFFER_SIZE
    }

    /** Swaps the client with the last one - buffer and identifier only - and drops the last. */
    method Evict(client: ClientHandle) returns (swapped: bool)
      requires client in clients
      modifies this`clients, client, clients[|clients| - 1]
      ensures clients == old(clients)[..|old(clients)| - 1]
      ensures swapped == (client != old(clients[|clients| - 1])) && (!swapped ==> unchanged(client))
      ensures var last := old(clients[|clients| - 1]);
        && client.buffer == old(last.buffer) && client.identifier == old(last.identifier)
        && last.buffer == old(client.buffer) && last.identifier == old(client.identifier)
    {
      var last := clients[|clients| - 1];
      swapped := client != last;
      if swapped {
        client.buffer, last.buffer := last.buffer, client.buffer;
        client.identifier, last.identifier := last.identifier, client.identifier;
      }
      clients := clients[..|clients| - 1];
    }

    /** Takes the failure of the connection of the client in session. It is the last of the vector, so that an evicting
        failure swaps nothing and drops the client itself; `gone` says so, which the callers do not ask. */
    method CheckFail(client: ClientHandle) returns (fail: bool, gone: bool)
      requires Active(client)
      modifies this`clients, client, client.connection`status
      ensures client.connection.status.Success? && unchanged(client)
      ensures var status := old(client.connection.status);
        && gone == (status in {Timeout, TryAgain, Unreachable, ConnectionRefused, ConnectionReset})
        && fail == (status == Failed)
      ensures clients == if gone then old(clients)[..|old(clients)| - 1] else old(clients)
    {
      var status := client.connection.Fail();
      match status {
        case Success =>
          fail, gone := false, false;
        case Timeout | TryAgain | Unreachable | ConnectionRefused | ConnectionReset =>
          var swapped := Evict(client);
          assert !swapped;
          fail, gone := false, true;
        case Failed =>
          fail, gone := true, false;
      }
    }

    /** The packet that offers a stamp (src/server/server.cpp:45-49). */
    method OfferPacket(stamp: Stamp) returns (packet: Bytes)
      requires StampOk(stamp)
      ensures packet == Header(DOWNLOAD_RECOVERY, |StampBody(stamp)|) + StampBody(stamp)
      ensures |packet| == HEADER_SIZE + GetDataSize(packet)
    {
      hide Header, NumberAndName, Sized, UntilNul, GetDataSize;
      var name := FileName(stamp.path);
      PacketRoundTrip(DOWNLOAD_RECOVERY, stamp.position, name, CString(name));
      var builder := new BuildProxy(DOWNLOAD_RECOVERY);
      builder.Append(Number(stamp.position));
      builder.Append(CString(name));
      packet := builder.Complete();
    }

    /** Offers the client the stamp it left behind, or drops every stamp (src/server/server.cpp:43-61). */
    method Greet(client: ClientHandle) returns (ghost padding: Byte)
      requires StampsOk(recoveryStamps) && client.connection.status.Success? && !client.connection.down
      modifies this`recoveryStamps, client.connection
      ensures recoveryStamps == StampsAfterGreeting(old(recoveryStamps), client.identifier) && StampsOk(recoveryStamps)
      ensures recoveryStamps ==
        if client.identifier in old(recoveryStamps) then old(recoveryStamps) - {client.identifier} else map[]
      ensures client.connection.incoming == old(client.connection.incoming)
      ensures client.connection.down == !client.connection.status.Success?
      ensures var out := old(client.connection.outgoing);
        var greeting := Greeting(old(recoveryStamps), client.identifier, padding);
        if client.connection.down
        then client.connection.outgoing == out || client.connection.outgoing == out + greeting[..HEADER_SIZE]
        else client.connection.outgoing == out + greeting
    {
      hide Header, GetDataSize, StampBody, StampOk;
      var connection := client.connection;
      if client.identifier in recoveryStamps {
        var packet := OfferPacket(recoveryStamps[client.identifier]);
        var _ := connection.Send(packet[..HEADER_SIZE]);
        var _ := connection.Send(packet[HEADER_SIZE..HEADER_SIZE + GetDataSize(packet)]);
        TwoSends(old(connection.outgoing), packet);
        recoveryStamps := recoveryStamps - {client.identifier};
        padding := 0;
      } else {
        recoveryStamps := map[];
        var gap: Byte := *;
        var _ := connection.Send([NONE, gap, 0, 0]);
        padding := gap;
      }
    }

    /** Accepts a client, reads who it is, and offers it the stamp it left behind or drops every stamp.
        The accepted connection is a parameter; null when accepting failed. Returns -1 when there is no session. */
    method Listen(clientConnection: Connection?) returns (clientIndex: int)
      requires !undefined && Sizable(files) && StampsOk(recoveryStamps)
      requires clientConnection != null ==> clientConnection.status.Success? && !clientConnection.down
      modifies this`clients, this`recoveryStamps, this`undefined
      modifies if clientConnection == null then {} else {clientConnection}
      ensures clientConnection == null ==> clientIndex == -1 && unchanged(this)
      ensures StampsOk(recoveryStamps)
      ensures clientConnection != null && !undefined ==>
        && old(clients) <= clients
        && var mac := Identifier(old(clientConnection.incoming));
           recoveryStamps == old(recoveryStamps) || recoveryStamps == StampsAfterGreeting(old(recoveryStamps), mac)
      ensures clientIndex >= 0 ==>
        && clientConnection != null && !undefined
        && clientConnection.status.Success? && !clientConnection.down
        && clientIndex == |old(clients)| && |clients| == clientIndex + 1
        && var client := clients[clientIndex];
           var mac := Identifier(old(clientConnection.incoming));
           && fresh(client) && fresh(client.buffer) && client.connection == clientConnection && Active(client)
           && client.identifier == mac && recoveryStamps == StampsAfterGreeting(old(recoveryStamps), mac)
           && (forall i | 0 <= i < 6 :: client.identifier[i] ==
                 if i < |old(clientConnection.incoming)| then old(clientConnection.incoming)[i] else 0)
           && var stream, out := old(clientConnection.incoming), old(clientConnection.outgoing);
              && clientConnection.incoming == stream[Min(MAC_SIZE, |stream|)..]
              && exists padding :: clientConnection.outgoing == out + Greeting(old(recoveryStamps), mac, padding)
      ensures clientConnection != null && MAC_SIZE <= |old(clientConnection.incoming)| && !clientConnection.down ==>
        clientIndex >= 0
    {
      hide StampsOk, Greeting, StampsAfterGreeting;
      if clientConnection == null {
        return -1;
      }
      var client := new ClientHandle(clientConnection);
      clients := clients + [client];

      // `Net::MacAddress` starts out zero.
      var bytes := new Byte[MAC_SIZE](_ => 0);
      var n := clientConnection.ReceiveAll(bytes, 0, MAC_SIZE);
      client.identifier := bytes[..];
      ghost var mac := Identifier(old(clientConnection.incoming));
      assert client.identifier == mac;
      var fail, gone := CheckFail(client);
      if gone {
        undefined := true;
        return -1;
      }
      if fail {
        return -1;
      }

      hide Identifier;
      ghost var padding := Greet(client);
      fail, gone := CheckFail(client);
      if gone {
        undefined := true;
        return -1;
      }
      if fail {
        return -1;
      }
      clientIndex := |clients| - 1;
    }

    /** The send loop of `HandleDownload`; `tail` is what the stream delivers from `startPos` on, `count` how much of it
        has been sent. */
    method SendFile(client: ClientHandle, filePath: Name, tail: Bytes, startPos: nat)
      returns (more: bool, ghost count: nat)
      requires client.buffer.Length == BUFFER_SIZE && client.connection.status.Success? && !client.connection.down
      modifies this`recoveryStamps, client.connection, client.buffer
      ensures client.connection.incoming == old(client.connection.incoming)
      ensures more == !client.connection.down
      ensures if more
        then
          && client.connection.status.Success? && recoveryStamps == old(recoveryStamps)
          && client.connection.outgoing == old(client.connection.outgoing) + tail
          && client.connection.pieces == old(client.connection.pieces) + Chunks(tail)
        else
          && count < |tail|
          && client.connection.outgoing == old(client.connection.outgoing) + tail[..count]
          && recoveryStamps == old(recoveryStamps)[client.identifier := Stamp(filePath, startPos + count)]
    {
      hide SentSoFar;
      var connection, buffer, totalSize := client.connection, client.buffer, |tail|;
      var bytesToSend: nat := totalSize;
      ghost var out, pieces, n: nat := connection.outgoing, connection.pieces, 0;
      SendStarts(tail, out, pieces);
      while bytesToSend > 0
        invariant n + bytesToSend == totalSize
        invariant SentSoFar(tail, n, out, connection.outgoing, pieces, connection.pieces)
        invariant connection.incoming == old(connection.incoming) && connection.status.Success? && !connection.down
        invariant recoveryStamps == old(recoveryStamps)
        decreases bytesToSend
      {
        var chunkSize := Min(BUFFER_SIZE, bytesToSend);
        SendGoesOn(tail, n, out, connection.outgoing, pieces, connection.pieces);
        SentIs(tail, n, out, connection.outgoing, pieces, connection.pieces);
        var ok := FileStreams.SendNext(connection, buffer, tail, totalSize - bytesToSend, chunkSize);
        if !ok {
          var stamp := Stamp(filePath, startPos + totalSize - bytesToSend);
          recoveryStamps := recoveryStamps[client.identifier := stamp];
          return false, n;
        }
        n := n + chunkSize;
        bytesToSend := bytesToSend - chunkSize;
      }
      SendEnds(tail, out, connection.outgoing, pieces, connection.pieces);
      more, count := true, n;
    }

    /** Sends the response of a download; what the compiler leaves between its fields is arbitrary. */
    method SendResponse(client: ClientHandle, status: Status, totalSize: nat) returns (fail: bool, ghost padding: Bytes)
      requires Active(client) && client.connection.status.Success? && !client.connection.down && !undefined
      modifies this`clients, this`undefined, client, client.connection
      ensures |padding| == 4 && client.connection.incoming == old(client.connection.incoming)
      ensures var response := Response(status, padding, totalSize);
        if fail || undefined
        then client.connection.down && client.connection.outgoing == old(client.connection.outgoing)
        else
          && !client.connection.down && client.connection.status.Success?
          && client.connection.outgoing == old(client.connection.outgoing) + response
          && client.connection.pieces == old(client.connection.pieces) + [response]
      ensures !undefined ==> clients == old(clients) && unchanged(client)
    {
      var between: nat := *;
      var gap := LittleEndian(between, 4);
      padding := gap;
      var _ := client.connection.Send(Response(status, gap, totalSize));
      var gone: bool;
      fail, gone := CheckFail(client);
      undefined := gone;
    }

    /** `fileName` is a pointer into the buffer the file is about to be read into. */
    method HandleDownload(client: ClientHandle, startPos: nat, fileName: nat) returns (more: bool)
      requires Active(client) && Sizable(files) && StampsOk(recoveryStamps)
      requires fileName <= BUFFER_SIZE && 9 + |CStringAt(client.buffer, fileName)| <= MAX_BODY
      requires client.connection.status.Success? && !client.connection.down && !undefined
      modifies this, client, client.connection, client.buffer
      ensures client.connection.incoming == old(client.connection.incoming)
      ensures files == old(files) && spinning == old(spinning) && StampsOk(recoveryStamps)
      ensures !undefined ==> clients == old(clients) && unchanged(client)
      ensures !client.connection.down ==> more && !undefined
      ensures !undefined && more ==>
        && !client.connection.down && client.connection.status.Success? && recoveryStamps == old(recoveryStamps)
        && Delivered(files, old(CStringAt(client.buffer, fileName)), startPos,
                     old(client.connection.outgoing), client.connection.outgoing,
                     old(client.connection.pieces), client.connection.pieces)
        && var name := old(CStringAt(client.buffer, fileName));
           var reply := client.connection.outgoing[|old(client.connection.outgoing)|..];
           |reply| >= 16 && FromLittleEndian(reply[..4]) ==
             match (if name == [] then Special else if name in files then files[name] else Absent)
             case Absent => 1
             case Special => 2
             case Regular(_, readable, _) => if readable then 0 else 1
      ensures !undefined && !more ==>
        && client.connection.down
        && Interrupted(files, old(CStringAt(client.buffer, fileName)), startPos, client.identifier,
                       old(client.connection.outgoing), client.connection.outgoing,
                       old(recoveryStamps), recoveryStamps)
    {
      hide AnswersDownload, Response, Chunks, UntilNul, Delivered, Interrupted, Sizable, FromLittleEndian;
      var filePath := CStringAt(client.buffer, fileName);
      var content: Bytes := [];
      var status: Status;
      var totalSize: nat := *;
      match Find(files, filePath) {
        case Absent =>
          status := NoSuchFile;
        case Special =>
          status := IsNotFile;
        case Regular(bytes, readable, _) =>
          status := Ready;
          totalSize := |bytes|;
          if totalSize <= startPos { totalSize := 0; } else { totalSize := totalSize - startPos; }
          content := bytes;
          if !readable {
            status := NoSuchFile;
          }
      }

      var fail, padding := SendResponse(client, status, totalSize);
      if undefined {
        return false;
      }
      if fail {
        NothingSent(files, filePath, startPos, client.identifier, old(client.connection.outgoing), recoveryStamps);
        return false;
      }
      ReplyDelivered(files, filePath, startPos, padding, totalSize,
                     old(client.connection.outgoing), old(client.connection.pieces));
      DeliveredStatus(files, filePath, startPos, old(client.connection.outgoing), old(client.connection.pieces));
      if !status.Ready? {
        return true;
      }
      NoChunks();
      if totalSize == 0 {
        return true;
      }
      ghost var count: nat;
      more, count := SendFile(client, filePath, content[startPos..], startPos);
      if !more {
        ReplyInterrupted(files, filePath, startPos, client.identifier, padding, totalSize,
                         old(client.connection.outgoing), old(recoveryStamps), count);
      }
    }

    /** What every round of both receive loops of `HandleUpload` does first. */
    method ReceiveSome(client: ClientHandle, bytesToReceive: nat) returns (received: nat, fail: bool)
      requires Active(client) && client.connection.status.Success? && !undefined && !spinning && bytesToReceive > 0
      modifies this`clients, this`undefined, this`spinning, client, client.connection, client.buffer
      ensures !undefined ==> clients == old(clients) && unchanged(client)
      ensures client.connection.outgoing == old(client.connection.outgoing)
      ensures client.connection.down == old(client.connection.down)
      ensures var stream := old(client.connection.incoming);
        if stream == []
        then client.connection.incoming == [] && received == 0 && (fail || undefined || spinning)
        else
          && 1 <= received <= bytesToReceive && received <= |stream| && received <= BUFFER_SIZE
          && !fail && !undefined && !spinning && client.connection.status.Success?
          && client.connection.incoming == stream[received..] && client.buffer[..received] == stream[..received]
    {
      var chunkSize := Min(BUFFER_SIZE, bytesToReceive);
      received := client.connection.Receive(client.buffer, 0, chunkSize);
      var gone: bool;
      fail, gone := CheckFail(client);
      if gone {
        undefined := true;
      } else if !fail && received == 0 {
        spinning := true;   // the loop repeats itself, and so it will again, for ever
      }
    }

    /** Receives and drops the content of an upload that is refused. */
    method IgnoreContent(client: ClientHandle, bytesToReceive: nat)
      requires Active(client) && client.connection.status.Success? && !undefined && !spinning
      modifies this`clients, this`undefined, this`spinning, client, client.connection, client.buffer
      ensures client.connection.outgoing == old(client.connection.outgoing)
      ensures client.connection.down == old(client.connection.down)
      ensures if bytesToReceive <= |old(client.connection.incoming)|
        then
          && !undefined && !spinning && client.connection.status.Success?
          && client.connection.incoming == old(client.connection.incoming)[bytesToReceive..]
        else client.connection.incoming == []
      ensures !undefined ==> clients == old(clients) && unchanged(client)
    {
      hide TakenOff;
      var connection := client.connection;
      ghost var stream, n := connection.incoming, 0 as nat;
      var left: nat := bytesToReceive;
      NothingTakenOff(stream);
      while left > 0
        invariant n + left == bytesToReceive && TakenOff(stream, n, connection.incoming)
        invariant connection.outgoing == old(connection.outgoing) && connection.down == old(connection.down)
        invariant connection.status.Success? && !undefined && !spinning && clients == old(clients) && unchanged(client)
        decreases left
      {
        ghost var before := connection.incoming;
        var received, fail := ReceiveSome(client, left);
        if fail || undefined || spinning {
          TakenOffIs(stream, n, before);
          return;
        }
        MoreTakenOff(stream, n, before, received);
        n := n + received;
        left := left - received;
      }
      TakenOffIs(stream, n, connection.incoming);
    }

    /** The receive loop of `HandleUpload`, over a file just opened at `filePath`. */
    method Store(client: ClientHandle, filePath: Name, fileSize: nat) returns (more: bool)
      requires Active(client) && Sizable(files) && 0 < fileSize < U64 && filePath != []
      requires client.connection.status.Success? && !undefined && !spinning
      modifies this`clients, this`files, this`undefined, this`spinning, client, client.connection, client.buffer
      ensures client.connection.outgoing == old(client.connection.outgoing)
      ensures client.connection.down == old(client.connection.down)
      ensures var stream := old(client.connection.incoming);
        && (more ==> fileSize <= |stream|)
        && (if fileSize <= |stream|
            then
              && more && !undefined && !spinning && client.connection.status.Success?
              && client.connection.incoming == stream[fileSize..]
              && files == Written(old(files), filePath, stream[..fileSize])
            else
              && client.connection.incoming == []
              && (!undefined && !spinning ==> files == old(files) - {filePath}))
      ensures !undefined ==> clients == old(clients) && unchanged(client)
      ensures Sizable(files)
    {
      hide Sizable, Written, Find;
      var connection := client.connection;
      var bytesToReceive: nat := fileSize;
      var written: Bytes := [];
      while bytesToReceive > 0
        invariant |written| + bytesToReceive == fileSize && |written| <= |old(connection.incoming)|
        invariant written == old(connection.incoming)[..|written|]
        invariant connection.incoming == old(connection.incoming)[|written|..]
        invariant files == if written == [] then old(files) else Written(old(files), filePath, written)
        invariant connection.outgoing == old(connection.outgoing) && connection.down == old(connection.down)
        invariant connection.status.Success? && !undefined && !spinning && clients == old(clients) && unchanged(client)
        decreases bytesToReceive
      {
        var received, fail := ReceiveSome(client, bytesToReceive);
        ghost var more' := written + client.buffer[..received];
        WrittenSizable(old(files), filePath, written);
        WrittenAgain(old(files), filePath, written, more');
        if undefined || spinning {
          return false;
        }
        if fail {
          files := files - {filePath};
          return false;
        }
        TakenInTwo(old(connection.incoming), |written|, received);
        written := written + client.buffer[..received];
        files := Written(files, filePath, written);
        bytesToReceive := bytesToReceive - received;
      }
      WrittenSizable(old(files), filePath, written);
      more := true;
    }

    /** `request` points to the size and the name in the buffer the content is about to be received into. */
    method HandleUpload(client: ClientHandle, request: nat) returns (more: bool)
      requires Active(client) && Sizable(files) && request + 9 <= BUFFER_SIZE
      requires client.connection.status.Success? && !undefined && !spinning
      modifies this, client, client.connection, client.buffer
      ensures client.connection.outgoing == old(client.connection.outgoing)
      ensures client.connection.down == old(client.connection.down)
      ensures recoveryStamps == old(recoveryStamps) && Sizable(files)
      ensures !undefined ==> clients == old(clients) && unchanged(client)
      ensures var size, name := old(NumberAt(client.buffer, request)), old(CStringAt(client.buffer, request + 8));
        var stream := old(client.connection.incoming);
        var accepted := size > 0 && name != [] && name[0] != 46 && name[0] != 47 && name[0] != 126
          && (name in old(files) ==> var e := old(files)[name]; e == Absent || (e.Regular? && e.writable));
        && (more ==> accepted && size <= |stream| && !undefined && !spinning)
        && (size <= |stream| ==>
              && more == accepted && !undefined && !spinning && client.connection.status.Success?
              && client.connection.incoming == stream[size..]
              && files == if accepted
                   then
                     var readable :=
                       name in old(files) && old(files)[name].Regular? ==> old(files)[name].readable;
                     old(files)[name := Regular(stream[..size], readable, true)]
                   else old(files))
        && (size > |stream| ==> client.connection.incoming == [])
        && (size > |stream| && !undefined && !spinning ==>
              files == if accepted then old(files) - {name} else old(files))
    {
      hide Sizable, UntilNul;
      var connection := client.connection;
      var fileSize := NumberAt(client.buffer, request);
      if fileSize == 0 {
        return false;
      }
      var first := client.buffer[request + 8];
      RefusedByFirst(client.buffer[request + 8..]);
      if first == DOT || first == SLASH || first == TILDE {
        IgnoreContent(client, fileSize);
        return false;
      }
      var filePath := CStringAt(client.buffer, request + 8);
      if !Writable(files, filePath) {
        IgnoreContent(client, fileSize);
        return false;
      }
      LoadBounded(client.buffer[request..request + 8]);
      Capacities();
      WrittenSizable(files, filePath, []);
      files := Written(files, filePath, []);
      more := Store(client, filePath, fileSize);
    }

    /** One send followed by `CheckFail`, which is what answers an echo or a request for the time. */
    method Reply(client: ClientHandle, bytes: Bytes) returns (more: bool)
      requires Active(client) && client.connection.status.Success? && !client.connection.down && !undefined
      modifies this`clients, this`undefined, client, client.connection
      ensures client.connection.incoming == old(client.connection.incoming)
      ensures if client.connection.down
        then client.connection.outgoing == old(client.connection.outgoing) && (more ==> undefined)
        else
          && more && !undefined && client.connection.status.Success?
          && client.connection.outgoing == old(client.connection.outgoing) + bytes
      ensures !undefined ==> clients == old(clients) && unchanged(client)
    {
      var _ := client.connection.Send(bytes);
      var fail, gone := CheckFail(client);
      undefined := gone;
      more := !fail;
    }

    /** A download or an upload. */
    method HandleTransfer(client: ClientHandle, dataSize: nat) returns (more: bool)
      requires Active(client) && Sizable(files) && StampsOk(recoveryStamps) && dataSize <= MAX_BODY
      requires client.connection.status.Success? && !client.connection.down && !undefined && !spinning
      requires client.buffer[0] == DOWNLOAD || client.buffer[0] == UPLOAD
      modifies this, client, client.connection, client.buffer
      ensures var order := old(Decode(client.buffer[0], client.buffer[HEADER_SIZE..HEADER_SIZE + dataSize]));
        PacketHandled(order, old(files), files, old(client.connection.incoming), client.connection.incoming,
                      old(client.connection.outgoing), client.connection.outgoing, more, client.connection.down,
                      undefined, spinning)
      ensures !undefined && client.connection.down ==>
        && !more && files == old(files)
        && var order := old(Decode(client.buffer[0], client.buffer[HEADER_SIZE..HEADER_SIZE + dataSize]));
           var p := WithContent(order, old(client.connection.incoming), 0);
           p.Parsed? && BrokeOff(files, p.request, client.identifier, old(client.connection.outgoing),
                                 client.connection.outgoing, old(recoveryStamps), recoveryStamps)
      ensures !undefined ==> clients == old(clients) && unchanged(client)
      ensures !undefined && more ==> client.connection.status.Success?
      ensures Sizable(files) && StampsOk(recoveryStamps)
      ensures StampsKept(old(recoveryStamps), recoveryStamps, client.identifier, undefined, client.connection.down)
    {
      hide Sizable, UntilNul, StampsOk, AnswersDownload, FromLittleEndian, Written, Chunks, Refused, Writable;
      ghost var body := client.buffer[HEADER_SIZE..HEADER_SIZE + dataSize];
      if !HasNumberAndName(client.buffer[HEADER_SIZE..HEADER_SIZE + dataSize]) {
        undefined := true;   // the number or the end of the name is whatever the buffer held before
        return false;
      }
      BodyInBuffer(client.buffer, dataSize);
      NameFits(body);
      if client.buffer[0] == DOWNLOAD {
        more := HandleDownload(client, NumberAt(client.buffer, HEADER_SIZE), HEADER_SIZE + 8);
      } else {
        AcceptedNames(files, NameOf(body));
        more := HandleUpload(client, HEADER_SIZE);
      }
    }

    /** The packet stands at the front of the buffer, `dataSize` bytes of body behind its header. `now` is the time, of
        whose 64 bits in two's complement a reply consists. */
    method HandlePacket(client: ClientHandle, dataSize: nat, now: int) returns (more: bool)
      requires Active(client) && Sizable(files) && StampsOk(recoveryStamps) && dataSize <= MAX_BODY
      requires client.connection.status.Success? && !client.connection.down && !undefined && !spinning
      modifies this, client, client.connection, client.buffer
      ensures var order := old(Decode(client.buffer[0], client.buffer[HEADER_SIZE..HEADER_SIZE + dataSize]));
        PacketHandled(order, old(files), files, old(client.connection.incoming), client.connection.incoming,
                      old(client.connection.outgoing), client.connection.outgoing, more, client.connection.down,
                      undefined, spinning)
      ensures !undefined && client.connection.down ==>
        && !more && files == old(files)
        && var order := old(Decode(client.buffer[0], client.buffer[HEADER_SIZE..HEADER_SIZE + dataSize]));
           var p := WithContent(order, old(client.connection.incoming), 0);
           p.Parsed? && BrokeOff(files, p.request, client.identifier, old(client.connection.outgoing),
                                 client.connection.outgoing, old(recoveryStamps), recoveryStamps)
      ensures old(client.buffer[0]) == 2 && !client.connection.down ==>
        client.connection.outgoing == old(client.connection.outgoing) + LittleEndian(now % U64, 8)
      ensures !undefined ==> clients == old(clients) && unchanged(client)
      ensures !undefined && more ==> client.connection.status.Success?
      ensures Sizable(files) && StampsOk(recoveryStamps)
      ensures StampsKept(old(recoveryStamps), recoveryStamps, client.identifier, undefined, client.connection.down)
    {
      hide Sizable, UntilNul, StampsOk, FromLittleEndian, HasNumberAndName, PacketHandled;
      var opcode := client.buffer[0];
      if opcode == ECHO {
        var data := client.buffer[HEADER_SIZE..HEADER_SIZE + dataSize];
        more := Reply(client, data);
        ReplyHandled(EchoOrder(data), files, client.connection.incoming, old(client.connection.outgoing), data,
                     client.connection.outgoing, more, client.connection.down, undefined);
      } else if opcode == TIME {
        var time := LittleEndian(now % U64, 8);
        more := Reply(client, time);
        ReplyHandled(TimeOrder, files, client.connection.incoming, old(client.connection.outgoing), time,
                     client.connection.outgoing, more, client.connection.down, undefined);
      } else if opcode == DOWNLOAD || opcode == UPLOAD {
        more := HandleTransfer(client, dataSize);
      } else {
        more := false;
        CloseHandled(files, client.connection.incoming, client.connection.outgoing);
      }
    }

    /** Receives a packet to the front of the buffer: its header, then its body (src/server/server.cpp:77-84). */
    method ReceivePacket(client: ClientHandle) returns (received: bool, dataSize: nat)
      requires Active(client) && !undefined
      modifies this`clients, this`undefined, client, client.connection, client.buffer
      ensures client.connection.outgoing == old(client.connection.outgoing)
      ensures client.connection.down == old(client.connection.down) && unchanged(client)
      ensures var stream := old(client.connection.incoming);
        if received
        then
          && dataSize <= MAX_BODY && HEADER_SIZE + dataSize <= |stream| && SizeOf(stream) == dataSize
          && client.buffer[0] == stream[0]
          && client.buffer[HEADER_SIZE..HEADER_SIZE + dataSize] == stream[HEADER_SIZE..HEADER_SIZE + dataSize]
          && client.connection.incoming == stream[HEADER_SIZE + dataSize..]
          && client.connection.status == old(client.connection.status) && clients == old(clients) && !undefined
        else
          && !Parse(stream).Parsed? && undefined == !OutOfRequests(stream)
          && FilesAfterBreak(files, stream) == files
          && (OutOfRequests(stream) ==> client.connection.incoming == [])
          && (clients == old(clients) || clients == old(clients)[..|old(clients)| - 1])
    {
      hide Decode, FromLittleEndian, WithContent;
      var connection, buffer := client.connection, client.buffer;
      ghost var stream := connection.incoming;
      var n := connection.ReceiveAll(buffer, 0, HEADER_SIZE);
      if n < HEADER_SIZE {
        var _, _ := CheckFail(client);
        return false, 0;
      }
      assert buffer[..][..HEADER_SIZE] == stream[..HEADER_SIZE];
      assert buffer[2..4] == buffer[..][2..4] == stream[2..4];
      dataSize := FromLittleEndian(buffer[2..4]);
      if dataSize > MAX_BODY {
        undefined := true;   // the body would overrun the buffer
        return false, dataSize;
      }
      if dataSize > 0 {
        n := connection.ReceiveAll(buffer, HEADER_SIZE, dataSize);
        if n == 0 {
          return false, dataSize;
        }
        if n < dataSize {
          undefined := true;   // the rest of the body is whatever the buffer held before
          return false, dataSize;
        }
        BodyBehindHeader(buffer[..], stream, dataSize);
      }
      received := true;
    }

    /** One request: its packet, then whatever serving it takes. */
    method Handle(clientIndex: nat, now: int) returns (more: bool)
      requires clientIndex < |clients| && Active(clients[clientIndex]) && Sizable(files) && StampsOk(recoveryStamps)
      requires var connection := clients[clientIndex].connection;
        connection.status.Success? && !connection.down && !undefined && !spinning
      modifies this, clients[clientIndex], clients[clientIndex].connection, clients[clientIndex].buffer
      ensures var connection := old(clients[clientIndex]).connection;
        RequestHandled(old(files), files, old(connection.incoming), connection.incoming,
                       old(connection.outgoing), connection.outgoing, more, connection.down, undefined, spinning)
      ensures var connection := old(clients[clientIndex]).connection;
        var p := Parse(old(connection.incoming));
        p.Parsed? && p.request.Time? && !connection.down ==>
          connection.outgoing == old(connection.outgoing) + LittleEndian(now % U64, 8)
      ensures var client := old(clients[clientIndex]);
        && (more && !undefined ==> client.connection.status.Success? && clients == old(clients))
        && (!undefined && client.connection.down ==>
              && !more && files == old(files) && Parse(old(client.connection.incoming)).Parsed?
              && BrokeOff(files, Parse(old(client.connection.incoming)).request, client.identifier,
                          old(client.connection.outgoing), client.connection.outgoing,
                          old(recoveryStamps), recoveryStamps))
        && (!undefined ==> unchanged(client)) && Sizable(files) && StampsOk(recoveryStamps)
        && (!undefined ==> clients == old(clients) || clients == old(clients)[..|old(clients)| - 1])
        && StampsKept(old(recoveryStamps), recoveryStamps, client.identifier, undefined, client.connection.down)
    {
      hide RequestHandled, PacketHandled, Sizable, StampsOk, Decode, Parse, SizeOf, OutOfRequests, FilesAfterBreak;
      hide BrokeOff, WithContent;
      var client := clients[clientIndex];
      var connection := client.connection;
      ghost var stream := connection.incoming;
      var received, dataSize := ReceivePacket(client);
      if !received {
        NothingHandled(old(files), stream, connection.incoming, connection.outgoing, connection.down,
                       undefined, spinning);
        return false;
      }
      TimeOpcode(stream);
      more := HandlePacket(client, dataSize, now);
      HandledParses(stream, HEADER_SIZE + dataSize, old(files), files, connection.incoming,
                    old(connection.outgoing), connection.outgoing, more, connection.down, undefined, spinning);
    }

    /** The session loop (src/server/main.cpp:111). `served` and `replies` say what it has done; `clock` is the time at
        each request. */
    method Session(clientIndex: nat, clock: nat -> int)
      returns (ghost served: seq<Request>, ghost replies: seq<Bytes>)
      requires clientIndex < |clients| && Active(clients[clientIndex]) && Sizable(files) && StampsOk(recoveryStamps)
      requires var connection := clients[clientIndex].connection;
        connection.status.Success? && !connection.down && !undefined && !spinning
      modifies this, clients[clientIndex], clients[clientIndex].connection, clients[clientIndex].buffer
      ensures var connection := old(clients[clientIndex]).connection;
        var stream := old(connection.incoming);
        !connection.down && EndsCleanly(old(files), stream) ==>
          && !undefined && !spinning
          && files == FilesAfterAll(old(files), served) && connection.incoming == Unserved(old(files), stream)
      ensures var connection := old(clients[clientIndex]).connection;
        !undefined && !connection.down ==>
          && served == Script(old(files), old(connection.incoming)) && AnswersAll(old(files), served, replies)
          && connection.outgoing == old(connection.outgoing) + Joined(replies) && recoveryStamps == old(recoveryStamps)
      ensures var connection := old(clients[clientIndex]).connection;
        !undefined && connection.down ==>
          SessionBroke(old(files), old(connection.incoming), old(clients[clientIndex].identifier),
                       old(connection.outgoing), old(recoveryStamps), served, replies,
                       files, connection.outgoing, recoveryStamps)
      ensures !undefined && !old(clients[clientIndex]).connection.down ==>
        |replies| == |served| && forall i | 0 <= i < |served| && served[i].Time? ::
          replies[i] == LittleEndian(clock(i) % U64, 8)
      ensures StampsKept(old(recoveryStamps), recoveryStamps, old(clients[clientIndex].identifier), undefined,
                         old(clients[clientIndex]).connection.down)
      ensures !undefined ==> clients == old(clients) || clients == old(clients)[..|old(clients)| - 1]
      ensures Sizable(files) && StampsOk(recoveryStamps)
    {
      hide OnTime, LittleEndian, BrokeOff, SessionBroke, EndsCleanly, Script, Unserved, AnswersAll, FilesAfterAll;
      hide Joined;
      var client := clients[clientIndex];
      var connection := client.connection;
      ghost var stream, out := connection.incoming, connection.outgoing;
      var more, n: nat := true, 0;
      served, replies := [], [];
      NothingTimed(clock);
      SessionStarts(files, stream, out);
      while more && !undefined && !spinning
        invariant !undefined && more ==>
          clients == old(clients) && connection.status.Success? && !connection.down && !spinning
        invariant !undefined ==> unchanged(client)
        invariant !undefined ==> clients == old(clients) || clients == old(clients)[..|old(clients)| - 1]
        invariant StampsKept(old(recoveryStamps), recoveryStamps, old(client.identifier), undefined, connection.down)
        invariant Sizable(files) && StampsOk(recoveryStamps)
        invariant !connection.down && EndsCleanly(old(files), stream) ==> !undefined && !spinning
        invariant OnTime(served, replies, clock) && (more && !undefined ==> n == |served|)
        invariant SessionStands(old(files), stream, out, files, connection.incoming, connection.outgoing,
                                served, replies, more, undefined, connection.down)
        invariant !undefined && connection.down ==>
          SessionBroke(old(files), stream, old(client.identifier), out, old(recoveryStamps), served, replies,
                       files, connection.outgoing, recoveryStamps)
        decreases !undefined, more, |connection.incoming|
      {
        hide SessionStands, SessionBroke, EndsCleanly, RequestHandled, Parse, BrokeOff, OnTime;
        ghost var files0, stream0, out0 := files, connection.incoming, connection.outgoing;
        StandsReached(old(files), stream, out, files0, stream0, out0, served, replies);
        more := Handle(clientIndex, clock(n));
        n := n + 1;
        if !undefined && connection.down {
          SessionBreaks(old(files), stream, client.identifier, out, old(recoveryStamps), files0, stream0, out0,
                        served, replies, connection.outgoing, recoveryStamps);
        } else if !connection.down {
          HandledStands(old(files), stream, out, files0, stream0, out0, served, replies,
                        files, connection.incoming, connection.outgoing, more, undefined, spinning);
          if Parse(stream0).Parsed? {
            TimeAdded(served, replies, clock, Parse(stream0).request, out0, connection.outgoing);
            served := served + [Parse(stream0).request];
            replies := replies + [connection.outgoing[|out0|..]];
          }
        }
      }
      if !undefined && !connection.down {
        StandsEnd(old(files), stream, out, files, connection.incoming, connection.outgoing, served, replies);
      }
      OnTimeIs(served, replies, clock);
    }

    /** One round of the driver loop: a client's session, from its identifier to its end. */
    method ServeNext(connection: Connection?, clock: nat -> int)
      requires Sizable(files) && StampsOk(recoveryStamps) && |recoveryStamps| <= 1 && !undefined && !spinning
      requires connection != null ==> connection.status.Success? && !connection.down
      modifies this, if connection == null then {} else {connection}
      ensures connection == null ==> unchanged(this)
      ensures !undefined && old(recoveryStamps) == map[] && (connection == null || !connection.down) ==>
        recoveryStamps == map[]
      ensures Sizable(files) && (!undefined ==> |recoveryStamps| <= 1 && StampsOk(recoveryStamps))
      ensures connection != null ==>
        var stream := old(connection.incoming);
        !connection.down && MAC_SIZE <= |stream| && EndsCleanly(old(files), stream[MAC_SIZE..]) ==>
          && !undefined && !spinning
          && files == FilesAfterAll(old(files), Script(old(files), stream[MAC_SIZE..]))
    {
      hide StampsOk, Greeting, Identifier, EndsCleanly, Sizable, StampsKept, StampsAfterGreeting;
      var clientIndex := Listen(connection);
      if connection != null {
        ghost var mac := Identifier(old(connection.incoming));
        GreetingClears(old(recoveryStamps), mac);
        if clientIndex >= 0 {
          var _, _ := Session(clientIndex, clock);
          StampsAfterSession(recoveryStamps, mac, undefined, connection.down);
        }
      }
    }

    /** The driver loop (src/server/main.cpp:104-114) over the connections it happens to accept, null where
        accepting fails. It stops where nothing more can be said of it: at a destroyed handle, or in an endless loop. */
    method Drive(connections: seq<Connection?>, clock: nat -> nat -> int)
      requires Sizable(files) && recoveryStamps == map[] && !undefined && !spinning
      requires forall c | c in connections && c != null :: c.status.Success? && !c.down
      requires forall i, j | 0 <= i < j < |connections| :: connections[i] == null || connections[i] != connections[j]
      modifies this, set c | c in connections && c != null
      ensures !undefined ==> |recoveryStamps| <= 1 && StampsOk(recoveryStamps)
      ensures !undefined && (forall c | c in connections && c != null :: !c.down) ==> recoveryStamps == map[]
      ensures (forall c | c in connections && c != null :: !c.down) ==>
        AllEndCleanly(old(files), old(Arrivals(connections))) ==>
        && !undefined && !spinning
        && files == FilesAfterSessions(old(files), old(Arrivals(connections)))
    {
      hide StampsOk, EndsCleanly, FilesAfterSessions, AllEndCleanly, Sizable, FilesAfterAll, Script;
      ghost var arrivals, broken: int := Arrivals(connections), -1;   // `broken` is a connection that has broken
      NoStamps();
      var i := 0;
      while i < |connections| && !undefined && !spinning
        invariant i <= |connections|
        invariant forall j | i <= j < |connections| && connections[j] != null ::
          connections[j].status.Success? && !connections[j].down && Client(connections[j].incoming) == arrivals[j]
        invariant Sizable(files) && (!undefined ==> |recoveryStamps| <= 1 && StampsOk(recoveryStamps))
        invariant broken == -1 || (0 <= broken < i && connections[broken] != null && connections[broken].down)
        invariant !undefined && broken == -1 ==> recoveryStamps == map[]
        invariant broken == -1 && AllEndCleanly(old(files), arrivals) ==>
          && !undefined && !spinning
          && AllEndCleanly(files, arrivals[i..])
          && FilesAfterSessions(files, arrivals[i..]) == FilesAfterSessions(old(files), arrivals)
      {
        NextArrival(files, arrivals, i);
        ServeNext(connections[i], clock(i));
        if connections[i] != null && connections[i].down {
          broken := i;
        }
        i := i + 1;
      }
      NoneLeft(files, arrivals[|connections|..]);
    }
  }
}
