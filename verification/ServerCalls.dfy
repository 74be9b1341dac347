/** Why every call of the server keeps the invariant of the connection it serves. */
module ServerCalls {
  import opened Bytes
  import opened Messages
  import opened Exchange
  import opened Machine
  import opened Conversation
  import opened Wrappers

  /** The hosted files fit 64-bit sizes, every stamp fits a packet, and a file being stored is marked. */
  predicate StoreOk(s: Server) {
    && Sizable(s.files)
    && StampsOk(s.stamps)
    && (s.pc.Storing? ==> s.pc.name in s.dirty)
  }

  /** The server and the connection it serves, in order, `before` being the server it was. */
  ghost predicate Served(before: Server, p: (Server, Link), who: Option<Client>) {
    && Talk(p.1, p.0.pc, p.0.files, p.0.dirty, who)
    && StoreOk(p.0)
    && Agree(before.files, p.0.files, before.dirty, p.0.dirty)
  }

  /** Writing one file keeps the sizes in bounds and touches only its name. */
  lemma WrittenOk(files: Files, name: Name, bytes: Bytes, dirty: set<Name>)
    requires Sizable(files) && |bytes| < U64
    ensures Sizable(Written(files, name, bytes))
    ensures Agree(files, Written(files, name, bytes), dirty, dirty + {name})
    ensures name in dirty ==> Agree(files, Written(files, name, bytes), dirty, dirty)
    ensures name != [] ==>
      Find(Written(files, name, bytes), name).Regular? && Hosted(Written(files, name, bytes), name) == bytes
  {
    WrittenSizable(files, name, bytes);
  }

  lemma RemovedOk(files: Files, name: Name, dirty: set<Name>)
    requires Sizable(files) && name in dirty
    ensures Sizable(files - {name}) && Agree(files, files - {name}, dirty, dirty)
  {
    WrittenSizable(files, name, []);
  }

  /** Reading moves on in the stream. */
  lemma UpTaken(unread: Bytes, up: Bytes, outgoing: Bytes, cut: bool, n: nat)
    requires UpOk(unread, up, outgoing, cut) && n <= |up|
    ensures UpOk(unread[n..], up[n..], outgoing, cut)
  {
    if !cut {
      assert (up + outgoing)[n..] == up[n..] + outgoing;
    }
  }

  /** The client's half does not depend on what the server has read, nor on where in a session it is. */
  lemma PeerIgnoresUp(k: Link, up: Bytes, pc: Pc, pc': Pc, files: Files, dirty: set<Name>, who: Option<Client>)
    requires Peer(k, pc, files, dirty, who) && (pc'.ReadingMac? ==> pc.ReadingMac?)
    ensures Peer(k.(up := up), pc', files, dirty, who)
  {
    assert Todo(k.(up := up)) == Todo(k);
  }

  /** A session may end wherever nothing more is promised, and anywhere once the stream is cut. */
  lemma Ended(k: Link, pc: Pc, pc': Pc, files: Files, dirty: set<Name>, who: Option<Client>, up: Bytes)
    requires Talk(k, pc, files, dirty, who) && Over(pc') && (k.cut || Unsent(pc, files) == [])
    requires !pc.ReadingMac? || k.cut
    ensures Talk(k.(up := up), pc', files, dirty, who)
    ensures up == k.up ==> Talk(k, pc', files, dirty, who)
  {
    PeerIgnoresUp(k, up, pc, pc', files, dirty, who);
    assert Todo(k.(up := up)) == Todo(k);
    if up == k.up {
      assert k.(up := up) == k;
    }
  }

  /** What a client is still sending is part of what it has asked for. */
  lemma OutgoingAsked(c: Client, k: Link, files: Files, dirty: set<Name>)
    requires ClientFits(c, k, files, dirty)
    ensures |Outgoing(Some(c))| <= |EncodeAll(Todo(k))|
  {
    hide Encode, Settled, Owed, GreetingOk, Prepared, StampBody;
    if c.task.Requesting? {
      var todo, r := Todo(k), c.task.request;
      assert todo == todo[..|todo| - 1] + [r];
      EncodeAllAppend(todo[..|todo| - 1], r);
    }
  }

  lemma GreetingIsOk(stamps: map<Mac, Stamp>, mac: Mac, padding: Byte)
    requires mac in stamps ==> StampOk(stamps[mac])
    ensures GreetingOk(Greeting(stamps, mac, padding), if mac in stamps then Some(stamps[mac]) else None)
    ensures Greeting(stamps, mac, padding) != []
  {
  }

  lemma GreetPeer(k: Link, k': Link, files: Files, dirty: set<Name>, who: Option<Client>)
    requires Peer(k, ReadingMac, files, dirty, who) && Unseen(k) && GreetingOk(k'.due, k'.offer)
    requires k' == k.(up := k'.up, due := k'.due, offer := k'.offer)
    requires Todo(k') == Todo(k)
    ensures forall pc: Pc | !pc.ReadingMac? :: Peer(k', pc, files, dirty, who)
  {
  }

  lemma GreetKeeps(s: Server, k: Link, who: Option<Client>, n: nat, mac: Mac, padding: Byte)
    requires s.pc.ReadingMac? && Talk(k, s.pc, s.files, s.dirty, who) && StoreOk(s)
    requires n == MAC_SIZE <= |k.up| || (k.cut && n == |k.up|)
    ensures Served(s, Greet(s, TakeUp(k, n), mac, padding), who)
  {
    hide ClientFits, Encode, NumberAndName;
    var (s', k') := Greet(s, TakeUp(k, n), mac, padding);
    GreetingIsOk(s.stamps, mac, padding);
    if who.Some? {
      OutgoingAsked(who.value, k, s.files, s.dirty);
    }
    assert Todo(k') == Todo(k);
    var rest := EncodeAll(Todo(k));
    assert (k.mac + rest)[MAC_SIZE..] == rest;
    if n == MAC_SIZE {
      UpTaken(k.mac + rest, k.up, Outgoing(who), k.cut, MAC_SIZE);
    }
    assert UpOk(rest, k'.up, Outgoing(who), k'.cut);
    GreetPeer(k, k', s.files, s.dirty, who);
  }

  lemma MacKeeps(s: Server, k: Link, who: Option<Client>, padding: Byte, failure: Failure)
    requires s.pc.ReadingMac? && Talk(k, s.pc, s.files, s.dirty, who) && StoreOk(s)
    ensures Served(s, ReadMac(s, k, padding, failure), who)
  {
    hide Talk;
    if |k.up| >= MAC_SIZE {
      GreetKeeps(s, k, who, MAC_SIZE, k.up[..MAC_SIZE], padding);
    } else if k.cut && failure.EndOfStream? {
      GreetKeeps(s, k, who, |k.up|, k.up + seq(MAC_SIZE - |k.up|, _ => 0), padding);
    } else if k.cut {
      Ended(k, s.pc, AfterFailure(s.pc, failure), s.files, s.dirty, who, k.up[|k.up|..]);
    }
  }

  /** Sending part of what is due suits the client, whatever it is doing. */
  lemma DeliverFits(c: Client, k: Link, files: Files, dirty: set<Name>, bytes: Bytes, rest: Bytes)
    requires ClientFits(c, k, files, dirty) && !k.cut && bytes != [] && k.down + bytes + rest == k.due
    ensures ClientFits(c, k.(down := k.down + bytes), files, dirty)
  {
    assert Todo(k.(down := k.down + bytes)) == Todo(k);
    assert k.down + bytes <= k.due;
  }

  lemma DeliverKeeps(k: Link, pc: Pc, next: Pc, files: Files, dirty: set<Name>, who: Option<Client>, bytes: Bytes)
    requires Talk(k, pc, files, dirty, who) && bytes != []
    requires Unsent(pc, files) == bytes + Unsent(next, files)
    requires ServerFits(Todo(k), next, files) && !pc.ReadingMac? && !next.ReadingMac? && !Over(pc)
    requires Unread(k.mac, Todo(k), next) == Unread(k.mac, Todo(k), pc)
    ensures Talk(Deliver(k, bytes), next, files, dirty, who)
  {
    hide Encode, NumberAndName, EncodeAll, ServerFits, Unsent, Unread;
    if k.cut {
      PeerIgnoresUp(k, k.up, pc, next, files, dirty, who);
      assert k.(up := k.up) == k;
    } else {
      assert Todo(Deliver(k, bytes)) == Todo(k);
      assert k.down + (bytes + Unsent(next, files)) == k.down + bytes + Unsent(next, files);
      DeliverFits(who.value, k, files, dirty, bytes, Unsent(next, files));
    }
  }

  lemma ReplySent(s: Server, k: Link, who: Option<Client>, accepted: bool, failure: Failure)
    requires s.pc.Replying? && Talk(k, s.pc, s.files, s.dirty, who) && StoreOk(s)
    ensures Served(s, SendReply(s, k, s.pc.reply, s.pc.next, accepted, failure), who)
  {
    hide Peer, EncodeAll, UpOk, DownloadStatus, StampOk, AllWellFormed, Todo, Outgoing;
    if !k.cut || accepted || failure.EndOfStream? {
      var next := s.pc.next;
      if next.Sending? {
        assert Tail(Hosted(s.files, next.name), next.start) == LastOf(Hosted(s.files, next.name), next.left);
      }
      DeliverKeeps(k, s.pc, next, s.files, s.dirty, who, s.pc.reply);
    } else {
      Ended(k, s.pc, AfterFailure(s.pc.next, failure), s.files, s.dirty, who, k.up);
    }
  }

  lemma ChunkUnsent(hosted: Bytes, left: nat, chunk: nat)
    requires 0 < chunk <= left <= |hosted|
    ensures LastOf(hosted, left) == hosted[|hosted| - left..|hosted| - left + chunk] + LastOf(hosted, left - chunk)
    ensures left == chunk ==> LastOf(hosted, left - chunk) == []
  {
  }

  /** Where the send loop stands after a round. */
  function NextRound(mac: Mac, name: Name, start: nat, total: nat, left: nat): Pc {
    if left <= BUFFER_SIZE then ReadingHeader(mac) else Sending(mac, name, start, total, left - BUFFER_SIZE)
  }

  /** A round sends the front of what is unsent and leaves the loop in order. */
  lemma RoundSends(todo: seq<Request>, files: Files, mac: Mac, name: Name, start: nat, total: nat, left: nat)
    requires ServerFits(todo, Sending(mac, name, start, total, left), files)
    ensures 0 < left <= |Hosted(files, name)| && start + total == |Hosted(files, name)|
    ensures var (hosted, next) := (Hosted(files, name), NextRound(mac, name, start, total, left));
      var data := hosted[|hosted| - left..|hosted| - left + Min(BUFFER_SIZE, left)];
      && data != [] && Unsent(Sending(mac, name, start, total, left), files) == data + Unsent(next, files)
      && ServerFits(todo, next, files)
  {
    hide DownloadStatus, Hosted, LastOf, StampOk;
    var hosted, chunk := Hosted(files, name), Min(BUFFER_SIZE, left);
    ChunkUnsent(hosted, left, chunk);
    assert hosted[|hosted| - left..|hosted| - left + chunk] + [] == hosted[|hosted| - left..|hosted| - left + chunk];
  }

  lemma SendingInOrder(k: Link, pc: Pc, files: Files, dirty: set<Name>, who: Option<Client>)
    requires Talk(k, pc, files, dirty, who)
    ensures ServerFits(Todo(k), pc, files)
  {
  }

  lemma ChunkDelivered(k: Link, files: Files, dirty: set<Name>, who: Option<Client>,
                       mac: Mac, name: Name, start: nat, total: nat, left: nat)
    requires Talk(k, Sending(mac, name, start, total, left), files, dirty, who)
    ensures 0 < left <= |Hosted(files, name)| && start + total == |Hosted(files, name)|
    ensures var hosted := Hosted(files, name);
      var offset := |hosted| - left;
      Talk(Deliver(k, hosted[offset..offset + Min(BUFFER_SIZE, left)]), NextRound(mac, name, start, total, left),
           files, dirty, who)
  {
    hide Talk, ServerFits, Unsent, Hosted, Deliver, Todo;
    SendingInOrder(k, Sending(mac, name, start, total, left), files, dirty, who);
    RoundSends(Todo(k), files, mac, name, start, total, left);
    var hosted := Hosted(files, name);
    var offset := |hosted| - left;
    DeliverKeeps(k, Sending(mac, name, start, total, left), NextRound(mac, name, start, total, left),
                 files, dirty, who, hosted[offset..offset + Min(BUFFER_SIZE, left)]);
  }

  lemma ChunkRefused(s: Server, k: Link, who: Option<Client>, mac: Mac, name: Name, start: nat, total: nat, left: nat)
    requires s.pc == Sending(mac, name, start, total, left) && k.cut
    requires Talk(k, s.pc, s.files, s.dirty, who) && StoreOk(s)
    ensures Served(s, SendNextChunk(s, k, mac, name, start, total, left, false), who)
  {
    Ended(k, s.pc, Accepting, s.files, s.dirty, who, k.up);
  }

  lemma ChunkSent(s: Server, k: Link, who: Option<Client>, accepted: bool,
                  mac: Mac, name: Name, start: nat, total: nat, left: nat)
    requires s.pc == Sending(mac, name, start, total, left)
    requires Talk(k, s.pc, s.files, s.dirty, who) && StoreOk(s)
    ensures Served(s, SendNextChunk(s, k, mac, name, start, total, left, accepted), who)
  {
    hide Talk;
    if k.cut && !accepted {
      ChunkRefused(s, k, who, mac, name, start, total, left);
    } else {
      ChunkDelivered(k, s.files, s.dirty, who, mac, name, start, total, left);
    }
  }

  lemma SameHeader(up: Bytes, code: Bytes)
    requires HEADER_SIZE <= |up| && up <= code
    ensures OpOf(up) == OpOf(code) && SizeOf(up) == SizeOf(code)
  {
    assert up[2..4] == code[2..4];
  }

  /** The stream in front of the server starts with the next request. */
  lemma HeaderArrived(todo: seq<Request>, up: Bytes)
    requires AllWellFormed(todo) && up <= EncodeAll(todo) && |up| >= HEADER_SIZE
    ensures todo != [] && OpOf(up) == OpCode(todo[0]) && SizeOf(up) == |Body(todo[0])|
    ensures EncodeAll(todo)[HEADER_SIZE..] == Body(todo[0]) + Content(todo[0]) + EncodeAll(todo[1..])
  {
    hide Encode, Body, Content, WellFormed, FromLittleEndian;
    var code := EncodeAll(todo);
    assert todo[0] in todo;
    RequestRoundTrip(todo[0], EncodeAll(todo[1..]));
    SameHeader(up, code);
  }

  /** The server has read the header and the body of the next request and nothing beyond. */
  predicate AtContent(k: Link, op: Byte, body: Bytes, outgoing: Bytes) {
    && ServedInOrder(k.asked, k.served) && AllWellFormed(k.asked)
    && Todo(k) != [] && op == OpCode(Todo(k)[0]) && body == Body(Todo(k)[0])
    && UpOk(Content(Todo(k)[0]) + EncodeAll(Todo(k)[1..]), k.up, outgoing, k.cut)
    && (!k.cut ==> k.down == k.due)
  }

  /** The client a reply is for is waiting for it. */
  lemma AnswerFits(c: Client, k: Link, files: Files, dirty: set<Name>, due: Bytes)
    requires ClientFits(c, k, files, dirty) && ServedInOrder(k.asked, k.served)
    requires Todo(k) != [] && !Quiet(Todo(k)[0]) && Owed(Todo(k)[0], due, files, dirty)
    requires |k.up| + |Outgoing(Some(c))| <= |EncodeAll(Todo(k)[1..])|
    ensures !k.cut ==> k.down == []
    ensures ClientFits(c, k.(served := k.served + [Todo(k)[0]], due := due), files, dirty)
  {
    var todo := Todo(k);
    var k' := k.(served := k.served + [todo[0]], due := due);
    assert Todo(k') == todo[1..];
    if |todo| == 1 {
      assert todo[1..] == [];
      assert todo[0] == Last(k.asked);
    } else {
      assert todo[0] in todo[..|todo| - 1];
    }
    assert todo[0] in todo[..|todo|];
  }

  lemma AnswerKeeps(s: Server, k: Link, who: Option<Client>, op: Byte, body: Bytes, reply: Bytes, next: Pc, rest: Bytes)
    requires StoreOk(s) && AtContent(k, op, body, Outgoing(who)) && !Quiet(Todo(k)[0])
    requires next.ReadingHeader? || next.Sending?
    requires Peer(k, ReadingHeader(next.mac), s.files, s.dirty, who)
    requires ServerFits(Todo(k)[1..], Replying(next.mac, reply, next), s.files)
    requires Unsent(Replying(next.mac, reply, next), s.files) == reply + rest
    requires Owed(Todo(k)[0], reply + rest, s.files, s.dirty)
    ensures Served(s, Answer(s, k, Todo(k)[0], reply, next, rest), who)
  {
    hide ClientFits, EncodeAll, AllWellFormed, ServerFits, Unsent, Owed, Body, OpCode;
    var todo := Todo(k);
    var k' := k.(served := k.served + [todo[0]], due := reply + rest);
    assert Todo(k') == todo[1..];
    assert k'.served == k.asked[..|k'.served|];
    assert [] + EncodeAll(todo[1..]) == EncodeAll(todo[1..]);
    if who.Some? {
      AnswerFits(who.value, k, s.files, s.dirty, reply + rest);
    }
    assert [] + (reply + rest) == reply + rest;
  }

  /** The reply a download is given is the one it is owed. */
  lemma DownloadOwed(files: Files, dirty: set<Name>, name: Name, start: nat, padding: Bytes, junk: nat)
    requires Sizable(files) && |padding| == 4
    ensures
      var status := DownloadStatus(files, name);
      var total := if status.Ready? then Remaining(Hosted(files, name), start) else junk;
      var rest := if status.Ready? then Tail(Hosted(files, name), start) else [];
      Owed(Request.Download(start, name), Response(status, padding, total) + rest, files, dirty)
  {
    var status := DownloadStatus(files, name);
    ReplyAnswers(files, name, start, padding, if status.Ready? then Remaining(Hosted(files, name), start) else junk);
  }

  lemma DownloadKeeps(s: Server, k: Link, who: Option<Client>, mac: Mac, op: Byte, body: Bytes, gap: Bytes, junk: nat)
    requires StoreOk(s) && AtContent(k, op, body, Outgoing(who)) && Todo(k)[0].Download?
    requires Peer(k, ReadingHeader(mac), s.files, s.dirty, who)
    ensures Served(s, StartDownload(s, k, mac, Todo(k)[0].position, Todo(k)[0].name, gap, junk), who)
  {
    hide Encode, NumberAndName, Response, Decode;
    var Download(start, name) := Todo(k)[0];
    assert Todo(k)[0] in k.asked;
    var status := DownloadStatus(s.files, name);
    var total := if status.Ready? then Remaining(Hosted(s.files, name), start) else junk;
    var padding := if |gap| == 4 then gap else [0, 0, 0, 0];
    var next := if status.Ready? && total > 0 then Sending(mac, name, start, total, total) else ReadingHeader(mac);
    var rest := if status.Ready? then Tail(Hosted(s.files, name), start) else [];
    DownloadOwed(s.files, s.dirty, name, start, padding, junk);
    AnswerKeeps(s, k, who, op, body, Response(status, padding, total), next, rest);
  }

  /** Changing only names marked dirty leaves every client's half alone. */
  lemma AgreePeer(k: Link, pc: Pc, files: Files, files': Files, dirty: set<Name>, dirty': set<Name>,
                  who: Option<Client>)
    requires Peer(k, pc, files, dirty, who) && Agree(files, files', dirty, dirty')
    ensures Peer(k, pc, files', dirty', who)
  {
    if who.Some? {
      var c := who.value;
      match c.task
      case AwaitReply(r) =>
        if r.Download? && r.name !in dirty' {
          assert Find(files, r.name) == Find(files', r.name);
        }
      case Receiving(name, _) =>
        if name !in dirty' {
          assert Find(files, name) == Find(files', name);
        }
      case _ =>
    }
  }

  lemma StoringWire(k: Link, files: Files, outgoing: Bytes, mac: Mac, name: Name, content: Bytes)
    requires AtContent(k, UPLOAD, Body(Request.Upload(name, content)), outgoing)
    requires Todo(k)[0] == Request.Upload(name, content) && content != [] && Accepted(files, name)
    ensures Wire(k, Storing(mac, name, |content|, |content|), Written(files, name, []), outgoing)
  {
    assert !k.cut ==> k.down + [] == k.due;
    assert LastOf(content, |content|) == content;
    assert content[..0] == [];
  }

  lemma RefusedWire(k: Link, files: Files, outgoing: Bytes, mac: Mac, content: Bytes)
    requires Todo(k) != [] && Todo(k)[0].Upload? && Todo(k)[0].content == content && content != []
    requires AtContent(k, UPLOAD, Body(Todo(k)[0]), outgoing) && !Accepted(files, Todo(k)[0].name)
    ensures Wire(k, Ignoring(mac, |content|), files, outgoing)
  {
    assert !k.cut ==> k.down + [] == k.due;
    assert LastOf(content, |content|) == content;
  }

  lemma UploadKeeps(s: Server, k: Link, who: Option<Client>, mac: Mac, op: Byte, body: Bytes)
    requires StoreOk(s) && AtContent(k, op, body, Outgoing(who)) && Todo(k)[0].Upload?
    requires Peer(k, ReadingHeader(mac), s.files, s.dirty, who)
    ensures Served(s, StartUpload(s, k, mac, |Todo(k)[0].content|, Todo(k)[0].name), who)
  {
    hide ClientFits, Encode, EncodeAll, NumberAndName, UpOk, UnreadUpload;
    var Upload(name, content) := Todo(k)[0];
    if content == [] {
      assert !k.cut ==> k.down + [] == k.due;
    } else if Accepted(s.files, name) {
      StoringWire(k, s.files, Outgoing(who), mac, name, content);
      WrittenOk(s.files, name, [], s.dirty);
      AgreePeer(k, ReadingHeader(mac), s.files, Written(s.files, name, []), s.dirty, s.dirty + {name}, who);
    } else {
      RefusedWire(k, s.files, Outgoing(who), mac, content);
    }
  }

  lemma EchoKeeps(s: Server, k: Link, who: Option<Client>, mac: Mac, op: Byte, body: Bytes)
    requires StoreOk(s) && AtContent(k, op, body, Outgoing(who)) && Todo(k)[0].Echo?
    requires Peer(k, ReadingHeader(mac), s.files, s.dirty, who)
    ensures Served(s, Answer(s, k, Todo(k)[0], Todo(k)[0].data, ReadingHeader(mac), []), who)
  {
    hide ClientFits;
    var data := Todo(k)[0].data;
    assert Todo(k)[0] in k.asked && data + [] == data;
    AnswerKeeps(s, k, who, op, body, data, ReadingHeader(mac), []);
  }

  lemma TimeKeeps(s: Server, k: Link, who: Option<Client>, mac: Mac, op: Byte, body: Bytes, reply: Bytes)
    requires StoreOk(s) && AtContent(k, op, body, Outgoing(who)) && Todo(k)[0].Time? && |reply| == TIME_SIZE
    requires Peer(k, ReadingHeader(mac), s.files, s.dirty, who)
    ensures Served(s, Answer(s, k, Todo(k)[0], reply, ReadingHeader(mac), []), who)
  {
    hide ClientFits;
    assert reply + [] == reply;
    AnswerKeeps(s, k, who, op, body, reply, ReadingHeader(mac), []);
  }

  lemma CloseKeeps(s: Server, k: Link, who: Option<Client>, mac: Mac, op: Byte, body: Bytes)
    requires StoreOk(s) && AtContent(k, op, body, Outgoing(who))
    requires Peer(k, ReadingHeader(mac), s.files, s.dirty, who)
    ensures Served(s, (s.(pc := Accepting), k), who)
  {
    hide ClientFits;
    assert !k.cut ==> k.down + [] == k.due;
  }

  lemma PacketDecoded(k: Link, op: Byte, body: Bytes, outgoing: Bytes)
    requires AtContent(k, op, body, outgoing)
    ensures Todo(k) != [] && Decode(op, body) == OrderOf(Todo(k)[0])
  {
    hide Decode, Body, EncodeAll, UpOk;
    assert Todo(k)[0] in k.asked;
    DecodeInverts(Todo(k)[0]);
  }

  lemma DispatchKeeps(s: Server, k: Link, who: Option<Client>, mac: Mac, op: Byte, body: Bytes,
                      clock: Bytes, gap: Bytes, junk: nat)
    requires StoreOk(s) && AtContent(k, op, body, Outgoing(who))
    requires Peer(k, ReadingHeader(mac), s.files, s.dirty, who)
    ensures Served(s, Dispatch(s, k, mac, op, body, clock, gap, junk), who)
  {
    hide Peer, Talk, Served, AtContent, Decode, Todo, Answer, StartDownload, StartUpload;
    PacketDecoded(k, op, body, Outgoing(who));
    var r := Todo(k)[0];
    match r
    case Echo(_) => EchoKeeps(s, k, who, mac, op, body);
    case Time => TimeKeeps(s, k, who, mac, op, body, if |clock| == TIME_SIZE then clock else LittleEndian(0, 8));
    case Download(_, _) => DownloadKeeps(s, k, who, mac, op, body, gap, junk);
    case Upload(_, _) => UploadKeeps(s, k, who, mac, op, body);
    case Close => CloseKeeps(s, k, who, mac, op, body);
  }

  lemma HeaderTaken(k: Link, files: Files, dirty: set<Name>, who: Option<Client>, mac: Mac)
    requires Talk(k, ReadingHeader(mac), files, dirty, who) && |k.up| >= HEADER_SIZE
    ensures var op, size, k' := OpOf(k.up), SizeOf(k.up), TakeUp(k, HEADER_SIZE);
      && Talk(k', ReadingBody(mac, op, size), files, dirty, who)
      && (size == 0 ==> AtContent(k', op, [], Outgoing(who)))
  {
    hide ClientFits;
    PeerIgnoresUp(k, k.up[HEADER_SIZE..], ReadingHeader(mac), ReadingBody(mac, OpOf(k.up), SizeOf(k.up)),
                  files, dirty, who);
    var todo := Todo(k);
    HeaderArrived(todo, k.up);
    assert Todo(TakeUp(k, HEADER_SIZE)) == todo;
    UpTaken(EncodeAll(todo), k.up, Outgoing(who), k.cut, HEADER_SIZE);
    if SizeOf(k.up) == 0 {
      assert [] + Content(todo[0]) == Content(todo[0]);
      assert !k.cut ==> k.down + [] == k.due;
    }
  }

  lemma HeaderKeeps(s: Server, k: Link, who: Option<Client>, clock: Bytes)
    requires s.pc.ReadingHeader? && Talk(k, s.pc, s.files, s.dirty, who) && StoreOk(s)
    ensures Served(s, ReadHeader(s, k, s.pc.mac, clock), who)
  {
    hide ClientFits;
    if |k.up| >= HEADER_SIZE {
      HeaderTaken(k, s.files, s.dirty, who, s.pc.mac);
      if SizeOf(k.up) == 0 {
        DispatchKeeps(s, TakeUp(k, HEADER_SIZE), who, s.pc.mac, OpOf(k.up), [], clock, [], 0);
      }
    } else if k.cut {
      Ended(k, s.pc, Accepting, s.files, s.dirty, who, k.up[|k.up|..]);
    }
  }

  lemma BodyTaken(k: Link, files: Files, dirty: set<Name>, who: Option<Client>, mac: Mac, op: Byte, size: nat)
    requires Talk(k, ReadingBody(mac, op, size), files, dirty, who) && |k.up| >= size
    ensures AtContent(TakeUp(k, size), op, k.up[..size], Outgoing(who))
    ensures Peer(TakeUp(k, size), ReadingHeader(mac), files, dirty, who)
  {
    hide ClientFits, Encode, NumberAndName;
    PeerIgnoresUp(k, k.up[size..], ReadingBody(mac, op, size), ReadingHeader(mac), files, dirty, who);
    var todo := Todo(k);
    var code := Body(todo[0]) + Content(todo[0]) + EncodeAll(todo[1..]);
    assert code[..size] == Body(todo[0]) && code[size..] == Content(todo[0]) + EncodeAll(todo[1..]);
    assert k.up[..size] == code[..size];
    assert Todo(TakeUp(k, size)) == todo;
    UpTaken(code, k.up, Outgoing(who), k.cut, size);
    assert !k.cut ==> k.down + [] == k.due;
  }

  lemma BodyKeeps(s: Server, k: Link, who: Option<Client>, clock: Bytes, gap: Bytes, junk: nat)
    requires s.pc.ReadingBody? && Talk(k, s.pc, s.files, s.dirty, who) && StoreOk(s)
    ensures Served(s, ReadBody(s, k, s.pc.mac, s.pc.op, s.pc.size, clock, gap, junk), who)
  {
    hide ClientFits;
    var ReadingBody(mac, op, size) := s.pc;
    if |k.up| >= size {
      BodyTaken(k, s.files, s.dirty, who, mac, op, size);
      DispatchKeeps(s, TakeUp(k, size), who, mac, op, k.up[..size], clock, gap, junk);
    } else if k.cut {
      Ended(k, s.pc, if k.up == [] then Accepting else Undefined, s.files, s.dirty, who, k.up[|k.up|..]);
    }
  }

  lemma UnreadIs(todo: seq<Request>, left: nat)
    requires UploadFits(todo, left)
    ensures UnreadUpload(todo, left) == todo[0].content[|todo[0].content| - left..] + EncodeAll(todo[1..])
  {
  }

  lemma FrontOf(content: Bytes, at: nat, later: Bytes, up: Bytes, n: nat)
    requires at + n <= |content| && up <= content[at..] + later && n <= |up|
    ensures content[..at] + up[..n] == content[..at + n]
    ensures (content[at..] + later)[n..] == content[at + n..] + later
  {
    assert up[..n] == (content[at..] + later)[..n] == content[at..at + n];
  }

  /** Content that arrives is the content that was asked to be stored. */
  lemma ContentArrived(todo: seq<Request>, left: nat, up: Bytes, n: nat)
    requires UploadFits(todo, left) && up <= UnreadUpload(todo, left) && n <= left && n <= |up|
    ensures var content := todo[0].content;
      && content[..|content| - left] + up[..n] == content[..|content| - left + n]
      && UnreadUpload(todo, left)[n..] == content[|content| - left + n..] + EncodeAll(todo[1..])
  {
    hide UnreadUpload, EncodeAll;
    UnreadIs(todo, left);
    var content, later := todo[0].content, EncodeAll(todo[1..]);
    FrontOf(content, |content| - left, later, up, n);
  }

  lemma UnreadLater(todo: seq<Request>, left: nat, up: Bytes, n: nat)
    requires UploadFits(todo, left) && up <= UnreadUpload(todo, left) && n < left && n <= |up|
    ensures UnreadUpload(todo, left)[n..] == UnreadUpload(todo, left - n)
  {
    ContentArrived(todo, left, up, n);
    UnreadIs(todo, left - n);
  }

  /** An upload that is finished was not the one the client is still waiting on or sending. */
  lemma FinishFits(c: Client, k: Link, files: Files, dirty: set<Name>)
    requires ClientFits(c, k, files, dirty) && ServedInOrder(k.asked, k.served)
    requires Todo(k) != [] && Todo(k)[0].Upload?
    requires |k.up| + |Outgoing(Some(c))| <= |EncodeAll(Todo(k)[1..])|
    ensures ClientFits(c, k.(served := k.served + [Todo(k)[0]]), files, dirty)
  {
    var todo := Todo(k);
    var k' := k.(served := k.served + [todo[0]]);
    assert Todo(k') == todo[1..];
    if |todo| == 1 {
      assert todo[0] == Last(k.asked);
      assert todo[1..] == [];
    } else {
      assert todo[1..][..|todo| - 2] == todo[..|todo| - 1][1..];
    }
    assert todo[..|todo|] == todo && todo[1..][..|todo| - 1] == todo[1..];
  }

  lemma StoreFinishes(k: Link, mac: Mac, files: Files, dirty: set<Name>, who: Option<Client>)
    requires ServedInOrder(k.asked, k.served) && AllWellFormed(k.asked)
    requires Todo(k) != [] && Todo(k)[0].Upload? && (!k.cut ==> k.down == k.due)
    requires Peer(k, Accepting, files, dirty, who)
    requires UpOk(EncodeAll(Todo(k)[1..]), k.up, Outgoing(who), k.cut)
    ensures Talk(k.(served := k.served + [Todo(k)[0]]), ReadingHeader(mac), files, dirty, who)
  {
    hide ClientFits, Encode, NumberAndName;
    var k' := k.(served := k.served + [Todo(k)[0]]);
    assert Todo(k') == Todo(k)[1..];
    assert k'.served == k.asked[..|k'.served|];
    assert !k.cut ==> k.down + [] == k.due;
    if who.Some? {
      FinishFits(who.value, k, files, dirty);
    }
  }

  lemma StoredMore(todo: seq<Request>, hosted: Bytes, left: nat, up: Bytes, n: nat)
    requires UploadFits(todo, left) && up <= UnreadUpload(todo, left) && n < left && n <= |up|
    requires hosted == todo[0].content[..|todo[0].content| - left]
    ensures hosted + up[..n] == todo[0].content[..|todo[0].content| - (left - n)]
    ensures |hosted + up[..n]| <= |todo[0].content|
  {
    hide UnreadUpload;
    ContentArrived(todo, left, up, n);
  }

  lemma StoringIs(k: Link, files: Files, outgoing: Bytes, mac: Mac, name: Name, size: nat, left: nat)
    ensures Wire(k, Storing(mac, name, size, left), files, outgoing) <==>
      && ServedInOrder(k.asked, k.served) && AllWellFormed(k.asked)
      && UploadFits(Todo(k), left) && Todo(k)[0].name == name && name != [] && size == |Todo(k)[0].content|
      && Find(files, name).Regular? && Accepted(files, name) && Hosted(files, name) == Todo(k)[0].content[..size - left]
      && UpOk(UnreadUpload(Todo(k), left), k.up, outgoing, k.cut)
      && (!k.cut ==> k.down == k.due)
    ensures Wire(k, Storing(mac, name, size, left), files, outgoing) ==> Todo(k)[0] in k.asked && WellFormed(Todo(k)[0])
  {
    hide EncodeAll, UpOk, UnreadUpload, Hosted, Find, WellFormed;
    assert k.down + [] == k.down;
  }

  lemma TodoTaken(k: Link, n: nat)
    requires n <= |k.up|
    ensures Todo(TakeUp(k, n)) == Todo(k)
  {
  }

  lemma FirstUpPart(todo: seq<Request>, left: nat, up: Bytes, outgoing: Bytes, cut: bool)
    requires UpOk(UnreadUpload(todo, left), up, outgoing, cut)
    ensures up <= UnreadUpload(todo, left)
  {
  }

  lemma UploadSmall(r: Request)
    requires WellFormed(r) && r.Upload?
    ensures |r.content| < U64
  {
  }

  lemma RoundWire(k: Link, files: Files, outgoing: Bytes, mac: Mac, name: Name, size: nat, left: nat, n: nat)
    requires Wire(k, Storing(mac, name, size, left), files, outgoing)
    requires 1 <= n < left && n <= |k.up|
    ensures var bytes := Hosted(files, name) + k.up[..n];
      && |bytes| < U64
      && Wire(TakeUp(k, n), Storing(mac, name, size, left - n), Written(files, name, bytes), outgoing)
  {
    hide Wire, UnreadUpload, Written, Hosted, Find, WellFormed, Todo;
    var todo, bytes := Todo(k), Hosted(files, name) + k.up[..n];
    StoringIs(k, files, outgoing, mac, name, size, left);
    TodoTaken(k, n);
    FirstUpPart(todo, left, k.up, outgoing, k.cut);
    StoredMore(todo, Hosted(files, name), left, k.up, n);
    UnreadLater(todo, left, k.up, n);
    UpTaken(UnreadUpload(todo, left), k.up, outgoing, k.cut, n);
    UploadSmall(todo[0]);
    WrittenFound(files, name, bytes);
    StoringIs(TakeUp(k, n), Written(files, name, bytes), outgoing, mac, name, size, left - n);
  }

  lemma RoundStored(k: Link, files: Files, dirty: set<Name>, who: Option<Client>,
                    mac: Mac, name: Name, size: nat, left: nat, n: nat)
    requires Talk(k, Storing(mac, name, size, left), files, dirty, who) && name in dirty && Sizable(files)
    requires 1 <= n < left && n <= |k.up|
    ensures var bytes := Hosted(files, name) + k.up[..n];
      |bytes| < U64 && Talk(TakeUp(k, n), Storing(mac, name, size, left - n), Written(files, name, bytes), dirty, who)
  {
    hide ClientFits;
    var pc, pc' := Storing(mac, name, size, left), Storing(mac, name, size, left - n);
    RoundWire(k, files, Outgoing(who), mac, name, size, left, n);
    WrittenOk(files, name, Hosted(files, name) + k.up[..n], dirty);
    PeerIgnoresUp(k, k.up[n..], pc, pc', files, dirty, who);
    AgreePeer(TakeUp(k, n), pc', files, Written(files, name, Hosted(files, name) + k.up[..n]), dirty, dirty, who);
  }

  lemma LastRoundWire(k: Link, files: Files, outgoing: Bytes, mac: Mac, name: Name, size: nat, left: nat)
    requires Wire(k, Storing(mac, name, size, left), files, outgoing) && left <= |k.up|
    ensures var todo := Todo(k);
      && Todo(TakeUp(k, left)) == todo && todo != [] && todo[0] in k.asked
      && todo[0] == Request.Upload(name, Hosted(files, name) + k.up[..left])
      && UpOk(EncodeAll(todo[1..]), TakeUp(k, left).up, outgoing, k.cut)
      && (!k.cut ==> k.down == k.due)
  {
    hide Encode, NumberAndName;
    var todo := Todo(k);
    ContentArrived(todo, left, k.up, left);
    UpTaken(UnreadUpload(todo, left), k.up, outgoing, k.cut, left);
    assert todo[0].content[size..] + EncodeAll(todo[1..]) == EncodeAll(todo[1..]);
    assert !k.cut ==> k.down + [] == k.due;
  }

  lemma LastRoundStored(k: Link, files: Files, dirty: set<Name>, who: Option<Client>,
                        mac: Mac, name: Name, size: nat, left: nat)
    requires Talk(k, Storing(mac, name, size, left), files, dirty, who) && name in dirty && Sizable(files)
    requires left <= |k.up|
    ensures var bytes := Hosted(files, name) + k.up[..left];
      && |bytes| < U64
      && Talk(TakeUp(k, left).(served := k.served + [Request.Upload(name, bytes)]), ReadingHeader(mac),
              Written(files, name, bytes), dirty, who)
  {
    hide ClientFits;
    var files' := Written(files, name, Hosted(files, name) + k.up[..left]);
    LastRoundWire(k, files, Outgoing(who), mac, name, size, left);
    WrittenOk(files, name, Hosted(files, name) + k.up[..left], dirty);
    assert WellFormed(Todo(k)[0]);
    PeerIgnoresUp(k, k.up[left..], Storing(mac, name, size, left), Accepting, files, dirty, who);
    AgreePeer(TakeUp(k, left), Accepting, files, files', dirty, dirty, who);
    StoreFinishes(TakeUp(k, left), mac, files', dirty, who);
  }

  lemma SomeLeft(k: Link, pc: Pc, files: Files, dirty: set<Name>, who: Option<Client>)
    requires Talk(k, pc, files, dirty, who) && (pc.Storing? || pc.Ignoring?)
    ensures pc.left > 0
  {
  }

  lemma StoreAborted(k: Link, files: Files, dirty: set<Name>, who: Option<Client>,
                     mac: Mac, name: Name, size: nat, left: nat)
    requires Talk(k, Storing(mac, name, size, left), files, dirty, who) && k.cut && name in dirty && Sizable(files)
    ensures Talk(k, Accepting, files - {name}, dirty, who) && Talk(k, Undefined, files, dirty, who)
  {
    Ended(k, Storing(mac, name, size, left), Accepting, files, dirty, who, k.up);
    Ended(k, Storing(mac, name, size, left), Undefined, files, dirty, who, k.up);
    RemovedOk(files, name, dirty);
    AgreePeer(k, Accepting, files, files - {name}, dirty, dirty, who);
  }

  lemma StoreKeeps(s: Server, k: Link, who: Option<Client>, mac: Mac, name: Name, size: nat, left: nat,
                   wanted: nat, failure: Failure)
    requires s.pc == Storing(mac, name, size, left)
    requires Talk(k, s.pc, s.files, s.dirty, who) && StoreOk(s)
    ensures Served(s, Store(s, k, mac, name, size, left, wanted, failure), who)
  {
    hide Talk;
    SomeLeft(k, s.pc, s.files, s.dirty, who);
    if k.up != [] {
      var n := Received(wanted, left, |k.up|);
      if n < left {
        RoundStored(k, s.files, s.dirty, who, mac, name, size, left, n);
      } else {
        LastRoundStored(k, s.files, s.dirty, who, mac, name, size, left);
      }
      WrittenOk(s.files, name, Hosted(s.files, name) + k.up[..n], s.dirty);
    } else if k.cut && !failure.EndOfStream? {
      StoreAborted(k, s.files, s.dirty, who, mac, name, size, left);
      RemovedOk(s.files, name, s.dirty);
    }
  }

  lemma IgnoredWire(k: Link, files: Files, outgoing: Bytes, mac: Mac, left: nat, n: nat)
    requires Wire(k, Ignoring(mac, left), files, outgoing) && 1 <= n <= left && n <= |k.up|
    ensures Wire(TakeUp(k, n), if left == n then Accepting else Ignoring(mac, left - n), files, outgoing)
  {
    hide UnreadUpload, Todo, EncodeAll;
    var todo := Todo(k);
    TodoTaken(k, n);
    FirstUpPart(todo, left, k.up, outgoing, k.cut);
    if n < left {
      UnreadLater(todo, left, k.up, n);
    }
    UpTaken(UnreadUpload(todo, left), k.up, outgoing, k.cut, n);
  }

  lemma RoundIgnored(k: Link, files: Files, dirty: set<Name>, who: Option<Client>, mac: Mac, left: nat, n: nat)
    requires Talk(k, Ignoring(mac, left), files, dirty, who) && 1 <= n <= left && n <= |k.up|
    ensures Talk(TakeUp(k, n), if left == n then Accepting else Ignoring(mac, left - n), files, dirty, who)
  {
    hide Peer, Wire;
    IgnoredWire(k, files, Outgoing(who), mac, left, n);
    PeerIgnoresUp(k, k.up[n..], Ignoring(mac, left), if left == n then Accepting else Ignoring(mac, left - n),
                  files, dirty, who);
  }

  lemma IgnoreKeeps(s: Server, k: Link, who: Option<Client>, mac: Mac, left: nat, wanted: nat, failure: Failure)
    requires s.pc == Ignoring(mac, left) && Talk(k, s.pc, s.files, s.dirty, who) && StoreOk(s)
    ensures Served(s, Ignore(s, k, mac, left, wanted, failure), who)
  {
    hide Talk;
    SomeLeft(k, s.pc, s.files, s.dirty, who);
    var p := Ignore(s, k, mac, left, wanted, failure);
    assert p.0 == s.(pc := p.0.pc) && !p.0.pc.Storing?;
    if k.up != [] {
      RoundIgnored(k, s.files, s.dirty, who, mac, left, Received(wanted, left, |k.up|));
    } else if k.cut && !failure.EndOfStream? {
      Ended(k, s.pc, AfterFailure(s.pc, failure), s.files, s.dirty, who, k.up);
    }
  }

  /** Every call of the server keeps the invariant of the connection it serves. */
  lemma ServerKeeps(s: Server, k: Link, who: Option<Client>, call: ServerCall)
    requires Talk(k, s.pc, s.files, s.dirty, who) && StoreOk(s)
    ensures Served(s, ServerStep(s, k, call), who)
  {
    hide Talk;
    match (s.pc, call)
    case (ReadingMac, TakeMac(padding, failure)) => MacKeeps(s, k, who, padding, failure);
    case (Replying(_, _, _), Reply(accepted, failure)) => ReplySent(s, k, who, accepted, failure);
    case (ReadingHeader(_), TakeHeader(clock)) => HeaderKeeps(s, k, who, clock);
    case (ReadingBody(_, _, _), TakeBody(clock, gap, junk)) => BodyKeeps(s, k, who, clock, gap, junk);
    case (Sending(mac, name, start, total, left), SendChunk(accepted)) =>
      ChunkSent(s, k, who, accepted, mac, name, start, total, left);
    case (Storing(mac, name, size, left), TakeContent(wanted, failure)) =>
      StoreKeeps(s, k, who, mac, name, size, left, wanted, failure);
    case (Ignoring(mac, left), TakeContent(wanted, failure)) => IgnoreKeeps(s, k, who, mac, left, wanted, failure);
    case _ =>
  }

  /** Once a session is over, no call of the server touches its connection. */
  lemma OverStays(s: Server, k: Link, call: ServerCall)
    requires Over(s.pc)
    ensures ServerStep(s, k, call) == (s, k)
  {
  }
}
