/** Neither end waits for the other in vain while a session lasts; once it is over, a client that asks waits for ever.
 */
module Progress {
  import opened Bytes
  import opened Messages
  import opened Exchange
  import opened Machine
  import opened Conversation
  import opened ServerCalls
  import opened World
  import opened Deliveries
  import opened Wrappers

  predicate Busy(t: Task) {
    t.Requesting? || t.AwaitReply? || t.Receiving?
  }

  /** Client `c` is at the other end of the session the server is in, and the connection is intact. */
  predicate InSession(w: World, c: nat) {
    && 0 < w.accepted <= |w.links| && c < |w.clients|
    && w.clients[c].link == Some(w.accepted - 1)
    && !w.links[w.accepted - 1].cut && !Over(w.server.pc) && !w.server.pc.ReadingMac?
  }

  /** Whether the server can move without the client. */
  predicate ServerReady(pc: Pc, k: Link) {
    match pc
    case ReadingHeader(_) => |k.up| >= HEADER_SIZE
    case ReadingBody(_, _, size) => |k.up| >= size
    case Storing(_, _, _, _) => k.up != []
    case Ignoring(_, _) => k.up != []
    case _ => true
  }

  function ServerMove(pc: Pc): ServerCall {
    match pc
    case Replying(_, _, _) => Reply(true, EndOfStream)
    case Sending(_, _, _, _, _) => SendChunk(true)
    case ReadingBody(_, _, _) => TakeBody([], [], 0)
    case Storing(_, _, _, _) => TakeContent(0, EndOfStream)
    case Ignoring(_, _) => TakeContent(0, EndOfStream)
    case _ => TakeHeader([])
  }

  function ClientMove(t: Task): ClientCall {
    match t
    case Requesting(_, _) => SendPiece(true)
    case AwaitReply(_) => TakeReply(false)
    case _ => TakeData(0)
  }

  /** The step whoever is not waiting takes: the server, unless it waits for bytes. */
  function NextStep(w: World, c: nat): Action
    requires InSession(w, c)
  {
    if ServerReady(w.server.pc, w.links[w.accepted - 1])
    then Serve(ServerMove(w.server.pc))
    else Act(c, ClientMove(w.clients[c].task))
  }

  /** What a session has still to move, in the order in which it is moved. */
  predicate LessWork(k: Link, pc: Pc, c: Client, files: Files, k': Link, pc': Pc, c': Client, files': Files) {
    var up, up' := |k.up| + |Outgoing(Some(c))|, |k'.up| + |Outgoing(Some(c'))|;
    var body, body' := if pc.ReadingBody? then 1 else 0, if pc'.ReadingBody? then 1 else 0;
    var unsent, unsent' := |Unsent(pc, files)|, |Unsent(pc', files')|;
    || up' < up
    || (up' == up && body' < body)
    || (up' == up && body' == body && unsent' < unsent)
    || (up' == up && body' == body && unsent' == unsent && |k'.down| < |k.down|)
    || (&& up' == up && body' == body && unsent' == unsent && |k'.down| == |k.down|
        && |Outgoing(Some(c'))| < |Outgoing(Some(c))|)
  }

  /** After a dispatch the server is not reading a packet. */
  lemma DispatchMoves(s: Server, k: Link, mac: Mac, op: Byte, body: Bytes, clock: Bytes, gap: Bytes, junk: nat)
    ensures var (s', k') := Dispatch(s, k, mac, op, body, clock, gap, junk);
      k'.up == k.up && !s'.pc.ReadingMac? && !s'.pc.ReadingBody?
  {
    hide Decode, Response, Written, Accepted, Hosted, DownloadStatus;
  }

  /** A call that reads and does not wait takes bytes off the stream, or ends the reading of a packet. */
  lemma ReadMoves(s: Server, k: Link, call: ServerCall)
    requires !k.cut && !Over(s.pc) && !s.pc.ReadingMac? && !s.pc.Replying? && !s.pc.Sending?
    requires s.pc.Storing? || s.pc.Ignoring? ==> s.pc.left > 0
    ensures var (s', k') := ServerStep(s, k, call);
      || (s', k') == (s, k)
      || (&& !s'.pc.ReadingMac?
          && (|k'.up| < |k.up| || (|k'.up| == |k.up| && s.pc.ReadingBody? && !s'.pc.ReadingBody?)))
    ensures ServerReady(s.pc, k) && call == ServerMove(s.pc) ==>
      |ServerStep(s, k, call).1.up| < |k.up| || (s.pc.ReadingBody? && !ServerStep(s, k, call).0.pc.ReadingBody?)
  {
    hide Dispatch, OpOf, SizeOf, Written, Hosted;
    match (s.pc, call)
    case (ReadingHeader(mac), TakeHeader(clock)) =>
      if |k.up| >= HEADER_SIZE {
        DispatchMoves(s, TakeUp(k, HEADER_SIZE), mac, OpOf(k.up), [], clock, [], 0);
      }
    case (ReadingBody(mac, op, size), TakeBody(clock, gap, junk)) =>
      if |k.up| >= size {
        DispatchMoves(s, TakeUp(k, size), mac, op, k.up[..size], clock, gap, junk);
      }
    case _ =>
  }

  /** A call that sends leaves less to be sent. */
  lemma SendMoves(s: Server, k: Link, call: ServerCall)
    requires ServerFits(Todo(k), s.pc, s.files) && !k.cut && (s.pc.Replying? || s.pc.Sending?)
    ensures var (s', k') := ServerStep(s, k, call);
      || (s', k') == (s, k)
      || (&& !s'.pc.ReadingMac? && !s'.pc.ReadingBody? && k'.up == k.up
          && |Unsent(s'.pc, s'.files)| < |Unsent(s.pc, s.files)|)
    ensures call == ServerMove(s.pc) ==> ServerStep(s, k, call) != (s, k)
  {
    hide DownloadStatus, Hosted, StampOk;
  }

  /** Whatever call the server makes: it waits, or the session is over, or there is less to be done. */
  lemma ServerMoves(s: Server, k: Link, c: Client, call: ServerCall)
    requires Talk(k, s.pc, s.files, s.dirty, Some(c)) && StoreOk(s)
    requires !k.cut && !Over(s.pc) && !s.pc.ReadingMac?
    ensures var (s', k') := ServerStep(s, k, call);
      || (s', k') == (s, k)
      || Over(s'.pc)
      || (!s'.pc.ReadingMac? && LessWork(k, s.pc, c, s.files, k', s'.pc, c, s'.files))
    ensures ServerReady(s.pc, k) && call == ServerMove(s.pc) ==> ServerStep(s, k, call) != (s, k)
  {
    hide Peer, EncodeAll, ServerStep, SendingFits, Unsent, Outgoing, ServerReady;
    if s.pc.Replying? || s.pc.Sending? {
      SendMoves(s, k, call);
    } else {
      if s.pc.Storing? || s.pc.Ignoring? { SomeLeft(k, s.pc, s.files, s.dirty, Some(c)); }
      ReadMoves(s, k, call);
    }
  }

  lemma EncodedHasHeader(rs: seq<Request>)
    requires rs != []
    ensures |EncodeAll(rs)| >= HEADER_SIZE
  {
  }

  /** A server that waits for bytes although the client has sent all it has begun has served every request. */
  lemma NothingToDo(k: Link, pc: Pc, files: Files)
    requires Wire(k, pc, files, []) && !k.cut && !Over(pc) && !pc.ReadingMac? && !ServerReady(pc, k)
    ensures Todo(k) == [] && k.down == k.due
  {
    hide Encode, SendingFits;
    var todo := Todo(k);
    assert k.up + [] == k.up;
    assert k.down + [] == k.down;
    if todo != [] {
      EncodedHasHeader(todo);
    }
  }

  lemma AllAsked(k: Link, pc: Pc, files: Files, dirty: set<Name>, c: Client)
    requires Talk(k, pc, files, dirty, Some(c))
    ensures c.task.AwaitReply? ==> c.task.request in k.asked && WellFormed(c.task.request)
  {
  }

  /** Whatever call the client makes: it waits, or its request is at its end, or there is less to be done. */
  lemma ClientMoves(c: Client, k: Link, pc: Pc, files: Files, dirty: set<Name>, call: ClientCall)
    requires Talk(k, pc, files, dirty, Some(c)) && Busy(c.task) && !k.cut
    ensures var (c', k') := ClientStep(c, k, call);
      || (c', k') == (c, k)
      || c'.task.Idle?
      || (Busy(c'.task) && LessWork(k, pc, c, files, k', pc, c', files))
  {
    hide ServerFits, Unread, Unsent, Encode, Settled, Owed, DownloadStatus, StatusOf, TotalOf;
    if c.task.AwaitReply? {
      AllAsked(k, pc, files, dirty, c);
    }
  }

  lemma WaitsForDue(c: Client, k: Link, pc: Pc, files: Files, dirty: set<Name>)
    requires Talk(k, pc, files, dirty, Some(c)) && (c.task.AwaitReply? || c.task.Receiving?)
    requires Todo(k) == [] && k.down == k.due
    ensures c.task.AwaitReply? ==> |k.down| >= ReplySize(c.task.request) > 0
    ensures c.task.Receiving? ==> k.down != [] && c.task.left > 0 && c.task.name in c.disk
  {
    hide Wire, Encode, AnswersDownload;
    AllAsked(k, pc, files, dirty, c);
  }

  /** A client does not wait for a server that waits for it. */
  lemma ClientReady(c: Client, k: Link, pc: Pc, files: Files, dirty: set<Name>)
    requires Talk(k, pc, files, dirty, Some(c)) && Busy(c.task)
    requires !k.cut && !Over(pc) && !pc.ReadingMac? && !ServerReady(pc, k)
    ensures ClientStep(c, k, ClientMove(c.task)) != (c, k)
  {
    hide ServerReady, ServerFits, Unread, Unsent, Encode, Settled, Owed, DownloadStatus, StatusOf, TotalOf;
    if !c.task.Requesting? {
      NothingToDo(k, pc, files);
      WaitsForDue(c, k, pc, files, dirty);
    }
  }

  /** Some request that is still to be served will end the session. */
  ghost predicate Ending(files: Files, todo: seq<Request>) {
    exists r :: r in todo && !Continues(files, r)
  }

  lemma FirstEnds(files: Files, todo: seq<Request>)
    requires todo != [] && !Continues(files, todo[0])
    ensures Ending(files, todo)
  {
    assert todo[0] in todo;
  }

  lemma DispatchEnds(s: Server, k: Link, outgoing: Bytes, mac: Mac, op: Byte, body: Bytes,
                     clock: Bytes, gap: Bytes, junk: nat)
    requires AtContent(k, op, body, outgoing)
    ensures Over(Dispatch(s, k, mac, op, body, clock, gap, junk).0.pc) ==> Ending(s.files, Todo(k))
  {
    hide AtContent, Decode, Todo, Ending, Response, Written, Accepted;
    PacketDecoded(k, op, body, outgoing);
    if !Continues(s.files, Todo(k)[0]) {
      FirstEnds(s.files, Todo(k));
    }
  }

  /** On an intact connection only a request that does not continue the session ends it. */
  lemma EndedByRequest(s: Server, k: Link, c: Client, call: ServerCall)
    requires Talk(k, s.pc, s.files, s.dirty, Some(c))
    requires !k.cut && !Over(s.pc) && !s.pc.ReadingMac?
    ensures Over(ServerStep(s, k, call).0.pc) ==> Ending(s.files, Todo(k))
  {
    hide Peer, Dispatch, Ending, Encode, EncodeAll, UpOk, SizeOf, OpOf, AtContent, AllWellFormed, SendingFits, Hosted;
    hide Written, Accepted;
    match (s.pc, call)
    case (ReadingHeader(mac), TakeHeader(clock)) =>
      if |k.up| >= HEADER_SIZE {
        HeaderTaken(k, s.files, s.dirty, Some(c), mac);
        if SizeOf(k.up) == 0 {
          DispatchEnds(s, TakeUp(k, HEADER_SIZE), Outgoing(Some(c)), mac, OpOf(k.up), [], clock, [], 0);
        }
      }
    case (ReadingBody(mac, op, size), TakeBody(clock, gap, junk)) =>
      if |k.up| >= size {
        BodyTaken(k, s.files, s.dirty, Some(c), mac, op, size);
        DispatchEnds(s, TakeUp(k, size), Outgoing(Some(c)), mac, op, k.up[..size], clock, gap, junk);
      }
    case (Ignoring(_, _), _) => FirstEnds(s.files, Todo(k));
    case _ =>
  }

  /** Whether a name is accepted never changes: the server writes only accepted names, and those stay writable. */
  lemma AcceptanceStays(s: Server, k: Link, call: ServerCall, name: Name)
    requires s.pc.Storing? ==> Accepted(s.files, s.pc.name)
    ensures var s' := ServerStep(s, k, call).0;
      && Accepted(s'.files, name) == Accepted(s.files, name)
      && (s'.pc.Storing? && !s.pc.Replying? ==> Accepted(s'.files, s'.pc.name))
  {
    hide Decode, Response, Hosted, DownloadStatus, Tail, Remaining, OpOf, SizeOf, Greeting, Received, Refused;
  }

  lemma TodoKept(c: Client, k: Link, call: ClientCall)
    requires Busy(c.task)
    ensures Todo(ClientStep(c, k, call).1) == Todo(k)
  {
    hide Encode;
  }

  // ---------------------------------------------------------------- whole runs

  function SessionLink(w: World): Link
    requires 0 < w.accepted <= |w.links|
  {
    w.links[w.accepted - 1]
  }

  function Rank(pc: Pc): nat {
    if pc.ReadingBody? then 1 else 0
  }

  lemma SameEnding(files: Files, files': Files, todo: seq<Request>)
    requires forall r :: Continues(files', r) == Continues(files, r)
    ensures Ending(files', todo) == Ending(files, todo)
  {
    hide Continues;
  }

  lemma EndingBehind(files: Files, todo: seq<Request>)
    requires todo != [] && Continues(files, todo[0])
    ensures Ending(files, todo[1..]) == Ending(files, todo)
  {
    hide Continues;
    assert todo == [todo[0]] + todo[1..];
  }

  lemma DispatchServes(s: Server, k: Link, outgoing: Bytes, mac: Mac, op: Byte, body: Bytes,
                       clock: Bytes, gap: Bytes, junk: nat)
    requires AtContent(k, op, body, outgoing)
    ensures var k' := Dispatch(s, k, mac, op, body, clock, gap, junk).1;
      && k'.asked == k.asked && Todo(k) != []
      && (k'.served == k.served || (|k'.served| == |k.served| + 1 && Continues(s.files, Todo(k)[0])))
  {
    hide AtContent, Decode, Todo, Response, Written, Accepted, Hosted, DownloadStatus;
    PacketDecoded(k, op, body, outgoing);
  }

  lemma StoreServes(s: Server, k: Link, who: Option<Client>, wanted: nat, failure: Failure)
    requires Talk(k, s.pc, s.files, s.dirty, who) && s.pc.Storing?
    ensures var k' := Store(s, k, s.pc.mac, s.pc.name, s.pc.size, s.pc.left, wanted, failure).1;
      && k'.asked == k.asked && Todo(k) != []
      && (k'.served == k.served || (|k'.served| == |k.served| + 1 && Continues(s.files, Todo(k)[0])))
  {
    hide Peer, UpOk, EncodeAll, Encode, Hosted, Written, Accepted, Received;
  }

  lemma TodoNext(k: Link, k': Link)
    requires |k.served| <= |k.asked| && k'.asked == k.asked
    ensures k'.served == k.served ==> Todo(k') == Todo(k)
    ensures |k'.served| == |k.served| + 1 && Todo(k) != [] ==> Todo(k') == Todo(k)[1..]
  {
  }

  /** What is served is the first request left to do, and the session continues behind it. */
  lemma ServedContinues(s: Server, k: Link, who: Option<Client>, call: ServerCall)
    requires Talk(k, s.pc, s.files, s.dirty, who)
    ensures var k' := ServerStep(s, k, call).1;
      Todo(k') == Todo(k) || (Todo(k) != [] && Continues(s.files, Todo(k)[0]) && Todo(k') == Todo(k)[1..])
  {
    hide Talk, Dispatch, Todo, Received, Greeting, Hosted, Continues, Store;
    var k' := ServerStep(s, k, call).1;
    OrderKept(k, s.pc, s.files, s.dirty, who);
    match (s.pc, call) {
      case (ReadingBody(mac, op, size), TakeBody(clock, gap, junk)) =>
        if |k.up| >= size {
          BodyTaken(k, s.files, s.dirty, who, mac, op, size);
          TodoTaken(k, size);
          DispatchServes(s, TakeUp(k, size), Outgoing(who), mac, op, k.up[..size], clock, gap, junk);
        }
      case (ReadingHeader(mac), TakeHeader(clock)) =>
        if |k.up| >= HEADER_SIZE && SizeOf(k.up) == 0 {
          HeaderTaken(k, s.files, s.dirty, who, mac);
          TodoTaken(k, HEADER_SIZE);
          DispatchServes(s, TakeUp(k, HEADER_SIZE), Outgoing(who), mac, OpOf(k.up), [], clock, [], 0);
        }
      case (Storing(_, _, _, _), TakeContent(wanted, failure)) => StoreServes(s, k, who, wanted, failure);
      case _ =>
    }
    TodoNext(k, k');
  }

  lemma StoringAccepted(k: Link, pc: Pc, files: Files, dirty: set<Name>, who: Option<Client>)
    requires Talk(k, pc, files, dirty, who)
    ensures pc.Storing? ==> Accepted(files, pc.name)
  {
  }

  lemma SameContinues(s: Server, k: Link, who: Option<Client>, call: ServerCall, r: Request)
    requires Talk(k, s.pc, s.files, s.dirty, who)
    ensures Continues(ServerStep(s, k, call).0.files, r) == Continues(s.files, r)
  {
    hide ServerStep, Talk, Accepted;
    if r.Upload? {
      StoringAccepted(k, s.pc, s.files, s.dirty, who);
      AcceptanceStays(s, k, call, r.name);
    }
  }

  /** Serving only takes requests off the list, and continuing ones at that. */
  lemma EndingStays(s: Server, k: Link, who: Option<Client>, call: ServerCall)
    requires Talk(k, s.pc, s.files, s.dirty, who)
    ensures var (s', k') := ServerStep(s, k, call);
      Ending(s'.files, Todo(k')) == Ending(s.files, Todo(k))
  {
    hide Talk, ServerStep, Continues, Todo, Ending;
    var (s', k') := ServerStep(s, k, call);
    ServedContinues(s, k, who, call);
    if Todo(k') != Todo(k) {
      EndingBehind(s.files, Todo(k));
    }
    forall r ensures Continues(s'.files, r) == Continues(s.files, r) {
      SameContinues(s, k, who, call, r);
    }
    SameEnding(s.files, s'.files, Todo(k'));
  }

  predicate NoUploads(todo: seq<Request>) {
    forall r | r in todo :: !r.Upload?
  }

  lemma DispatchSpared(s: Server, k: Link, outgoing: Bytes, mac: Mac, op: Byte, body: Bytes,
                       clock: Bytes, gap: Bytes, junk: nat)
    requires AtContent(k, op, body, outgoing) && NoUploads(Todo(k))
    ensures Dispatch(s, k, mac, op, body, clock, gap, junk).0.files == s.files
  {
    hide AtContent, Decode, Todo, Response, Hosted, DownloadStatus;
    PacketDecoded(k, op, body, outgoing);
    assert Todo(k)[0] in Todo(k);
  }

  lemma FilesSpared(s: Server, k: Link, who: Option<Client>, call: ServerCall)
    requires Talk(k, s.pc, s.files, s.dirty, who) && NoUploads(Todo(k))
    ensures ServerStep(s, k, call).0.files == s.files
  {
    hide Peer, Dispatch, SendingFits, Encode, EncodeAll, UpOk, Hosted, Greeting, AllWellFormed;
    match (s.pc, call)
    case (ReadingBody(mac, op, size), TakeBody(clock, gap, junk)) =>
      if |k.up| >= size {
        BodyTaken(k, s.files, s.dirty, who, mac, op, size);
        DispatchSpared(s, TakeUp(k, size), Outgoing(who), mac, op, k.up[..size], clock, gap, junk);
      }
    case (ReadingHeader(mac), TakeHeader(clock)) =>
      if |k.up| >= HEADER_SIZE && SizeOf(k.up) == 0 {
        HeaderTaken(k, s.files, s.dirty, who, mac);
        DispatchSpared(s, TakeUp(k, HEADER_SIZE), Outgoing(who), mac, OpOf(k.up), [], clock, [], 0);
      }
    case _ =>
  }

  /** Without an upload to serve the files stay as they are. */
  lemma FilesStay(s: Server, k: Link, who: Option<Client>, call: ServerCall)
    requires Talk(k, s.pc, s.files, s.dirty, who) && NoUploads(Todo(k))
    ensures var (s', k') := ServerStep(s, k, call);
      s'.files == s.files && NoUploads(Todo(k'))
  {
    ServedContinues(s, k, who, call);
    FilesSpared(s, k, who, call);
    hide ServerStep, Talk;
  }

  /** What a call in the session leaves: the invariants, and whether some request will end the session. */
  ghost predicate Kept(w: World, w': World, c: nat) {
    && Inv(w') && CurrentSession(w') && c < |w'.clients|
    && 0 < w'.accepted == w.accepted <= |w'.links| == |w.links|
    && Ending(w'.server.files, Todo(SessionLink(w'))) == Ending(w.server.files, Todo(SessionLink(w)))
    && (NoUploads(Todo(SessionLink(w))) ==>
          w'.server.files == w.server.files && NoUploads(Todo(SessionLink(w'))))
  }

  /** The request goes on, and there is less to be done for it. */
  predicate Nearer(w: World, w': World, c: nat, r: Request, kept: Bytes)
    requires InSession(w, c)
  {
    && InSession(w', c) && Busy(w'.clients[c].task) && Underway(w'.clients[c], SessionLink(w'), r, kept)
    && LessWork(SessionLink(w), w.server.pc, w.clients[c], w.server.files,
                SessionLink(w'), w'.server.pc, w'.clients[c], w'.server.files)
  }

  /** The client's request is at its end, with what it delivers. */
  predicate Done(w: World, c: nat, r: Request, kept: Bytes) {
    c < |w.clients| && w.clients[c].task.Idle? && Delivered(w.clients[c], w.server.files, r, kept)
  }

  lemma SessionFits(w: World, c: nat)
    requires Inv(w) && InSession(w, c)
    ensures Talk(SessionLink(w), w.server.pc, w.server.files, w.server.dirty, Some(w.clients[c])) && StoreOk(w.server)
    ensures |SessionLink(w).served| <= |SessionLink(w).asked|
  {
    hide Talk;
    assert LinkFits(w, w.accepted - 1) && HostFits(w, c);
    OrderKept(SessionLink(w), w.server.pc, w.server.files, w.server.dirty, Some(w.clients[c]));
  }

  lemma ServeMoves(w: World, c: nat, call: ServerCall, r: Request, kept: Bytes)
    requires Inv(w) && CurrentSession(w) && InSession(w, c) && Busy(w.clients[c].task)
    requires Underway(w.clients[c], SessionLink(w), r, kept)
    ensures var w' := Step(w, Serve(call));
      && Kept(w, w', c)
      && (w' == w || Nearer(w, w', c, r, kept)
          || (Over(w'.server.pc) && Ending(w.server.files, Todo(SessionLink(w)))))
  {
    hide Talk, ServerStep, LessWork, Unsent, Inv, CurrentSession, Ending, Todo, NoUploads, KeptOf;
    StepKeeps(w, Serve(call));
    StepCurrent(w, Serve(call));
    SessionFits(w, c);
    var s, k := w.server, SessionLink(w);
    ServerFrame(s, k, call);
    ServerMoves(s, k, w.clients[c], call);
    EndedByRequest(s, k, w.clients[c], call);
    EndingStays(s, k, Some(w.clients[c]), call);
    if NoUploads(Todo(k)) {
      FilesStay(s, k, Some(w.clients[c]), call);
    }
  }

  lemma HolderIs(w: World, c: nat)
    requires Inv(w) && InSession(w, c)
    ensures Holder(w, w.accepted - 1) == Some(w.clients[c])
  {
    assert HostFits(w, c);
  }

  lemma ActMoves(w: World, c: nat, call: ClientCall, r: Request, kept: Bytes)
    requires Inv(w) && CurrentSession(w) && InSession(w, c) && Busy(w.clients[c].task)
    requires Underway(w.clients[c], SessionLink(w), r, kept)
    ensures var w' := Step(w, Act(c, call));
      && Kept(w, w', c)
      && (w' == w || Nearer(w, w', c, r, kept) || Done(w', c, r, kept))
  {
    hide Talk, ClientStep, LessWork, Unsent, Inv, Ending, Todo, NoUploads, KeptOf, Current;
    StepKeeps(w, Act(c, call));
    StepCurrent(w, Act(c, call));
    SessionFits(w, c);
    var k := SessionLink(w);
    ClientFrame(w.clients[c], k, call);
    ClientMoves(w.clients[c], k, w.server.pc, w.server.files, w.server.dirty, call);
    TodoKept(w.clients[c], k, call);
    HolderIs(w, c);
    ClientDelivers(w.clients[c], k, w.server.pc, w.server.files, w.server.dirty, r, kept, call);
  }

  /** Whoever may move in the session: the server, or the client it serves. */
  predicate OfSession(a: Action, c: nat) {
    a.Serve? || (a.Act? && a.client == c)
  }

  /** Whatever call either end of a session makes on an intact connection: it waits, or the request is at its end with
      what it delivers, or a request in front of it has ended the session, or there is less to be done. */
  lemma CallMoves(w: World, c: nat, a: Action, r: Request, kept: Bytes)
    requires Inv(w) && CurrentSession(w) && InSession(w, c) && Busy(w.clients[c].task) && OfSession(a, c)
    requires Underway(w.clients[c], SessionLink(w), r, kept)
    ensures var w' := Step(w, a);
      && Kept(w, w', c)
      && (w' == w || Nearer(w, w', c, r, kept) || Done(w', c, r, kept)
          || (Over(w'.server.pc) && Ending(w.server.files, Todo(SessionLink(w)))))
  {
    hide Inv, CurrentSession, Step, Nearer, Done, Kept, Ending, Underway;
    match a
    case Serve(call) => ServeMoves(w, c, call, r, kept);
    case Act(d, call) => ActMoves(w, c, call, r, kept);
  }

  lemma Changed(w: World, s: Server, k: Link, p: (Server, Link))
    requires 0 < w.accepted <= |w.links| && s == w.server && k == w.links[w.accepted - 1] && p != (s, k)
    ensures w.(server := p.0, links := w.links[w.accepted - 1 := p.1]) != w
  {
    assert w.links[w.accepted - 1 := p.1][w.accepted - 1] == p.1;
  }

  /** Somebody need not wait. */
  lemma NextMoves(w: World, c: nat)
    requires Inv(w) && InSession(w, c) && Busy(w.clients[c].task)
    ensures OfSession(NextStep(w, c), c) && Step(w, NextStep(w, c)) != w
  {
    hide Talk, ServerStep, ClientStep, Inv;
    SessionFits(w, c);
    var k := SessionLink(w);
    if ServerReady(w.server.pc, k) {
      ServerMoves(w.server, k, w.clients[c], ServerMove(w.server.pc));
      Changed(w, w.server, k, ServerStep(w.server, k, ServerMove(w.server.pc)));
    } else {
      ClientReady(w.clients[c], k, w.server.pc, w.server.files, w.server.dirty);
    }
  }

  /** The two ends bring a request to its end if no request in front of it ends the session. */
  lemma {:induction false} ServedToTheEnd(w: World, c: nat, r: Request, kept: Bytes) returns (actions: seq<Action>)
    requires Inv(w) && CurrentSession(w) && InSession(w, c) && Busy(w.clients[c].task)
    requires Underway(w.clients[c], SessionLink(w), r, kept)
    requires !Ending(w.server.files, Todo(SessionLink(w)))
    ensures forall a | a in actions :: OfSession(a, c)
    ensures Done(Run(w, actions), c, r, kept)
    ensures NoUploads(Todo(SessionLink(w))) ==> Run(w, actions).server.files == w.server.files
    decreases |SessionLink(w).up| + |Outgoing(Some(w.clients[c]))|, Rank(w.server.pc),
              |Unsent(w.server.pc, w.server.files)|, |SessionLink(w).down|, |Outgoing(Some(w.clients[c]))|
  {
    hide Inv, CurrentSession, Step, NextStep, Outgoing, Unsent, Ending, Underway, NoUploads;
    var a := NextStep(w, c);
    NextMoves(w, c);
    CallMoves(w, c, a, r, kept);
    var w' := Step(w, a);
    var rest := [];
    if !Done(w', c, r, kept) {
      rest := ServedToTheEnd(w', c, r, kept);
    }
    actions := [a] + rest;
    assert actions[1..] == rest;
    assert Run(w, actions) == Run(w', rest);
  }

  /** The first `n` actions of an endless schedule. */
  function First(schedule: nat -> Action, n: nat): seq<Action> {
    seq(n, i requires 0 <= i => schedule(i))
  }

  lemma RunNothing(w: World)
    ensures Run(w, []) == w
  {
  }

  lemma FirstActions(w: World, schedule: nat -> Action)
    ensures Run(w, First(schedule, 0)) == w && Run(w, First(schedule, 1)) == Step(w, schedule(0))
  {
    hide Step;
    assert First(schedule, 0) == [] && First(schedule, 1) == [schedule(0)];
    assert [schedule(0)][1..] == [];
    RunNothing(w);
    RunNothing(Step(w, schedule(0)));
  }

  lemma OneThenRest(w: World, schedule: nat -> Action, later: nat -> Action, m: nat)
    requires forall i: nat :: later(i) == schedule(i + 1)
    ensures Run(w, First(schedule, m + 1)) == Run(Step(w, schedule(0)), First(later, m))
  {
    hide Step;
    assert First(schedule, m + 1)[1..] == First(later, m);
  }

  /** No endless exchange: under any schedule of calls of either end, after finitely many of them the request is at its
      end with what it delivers, or a request in front of it has ended the session, or the next call has to wait. */
  lemma {:induction false} NoEndlessExchange(w: World, c: nat, r: Request, kept: Bytes, schedule: nat -> Action)
    returns (n: nat)
    requires Inv(w) && CurrentSession(w) && InSession(w, c) && Busy(w.clients[c].task)
    requires Underway(w.clients[c], SessionLink(w), r, kept)
    requires forall i: nat :: OfSession(schedule(i), c)
    ensures var w' := Run(w, First(schedule, n));
      || Step(w', schedule(n)) == w'
      || Done(w', c, r, kept)
      || (Over(w'.server.pc) && Ending(w.server.files, Todo(SessionLink(w))))
    decreases |SessionLink(w).up| + |Outgoing(Some(w.clients[c]))|, Rank(w.server.pc),
              |Unsent(w.server.pc, w.server.files)|, |SessionLink(w).down|, |Outgoing(Some(w.clients[c]))|
  {
    hide Inv, CurrentSession, Step, Outgoing, Unsent, Ending, Underway, First, Run;
    CallMoves(w, c, schedule(0), r, kept);
    var w' := Step(w, schedule(0));
    if w' == w {
      n := 0;
      FirstActions(w, schedule);
    } else if Nearer(w, w', c, r, kept) {
      var later := (i: nat) => schedule(i + 1);
      var m := NoEndlessExchange(w', c, r, kept, later);
      n := m + 1;
      OneThenRest(w, schedule, later, m);
    } else {
      n := 1;
      FirstActions(w, schedule);
    }
  }

  /** The request in hand needs no reply. */
  predicate Sends(t: Task) {
    t.Requesting? && Quiet(t.request)
  }

  lemma SendingPart(c: Client, k: Link, pc: Pc, files: Files, dirty: set<Name>)
    requires Talk(k, pc, files, dirty, Some(c)) && c.task.Requesting?
    ensures c.task.sent < |Encode(c.task.request)|
  {
    hide Encode;
  }

  lemma PieceMoves(w: World, c: nat)
    requires Inv(w) && InSession(w, c) && Sends(w.clients[c].task)
    ensures var w' := Step(w, Act(c, SendPiece(true)));
      && Inv(w') && c < |w'.clients| && w'.accepted == w.accepted
      && (w'.clients[c].task == Idle(Nothing)
          || (&& InSession(w', c) && Sends(w'.clients[c].task)
              && |Outgoing(Some(w'.clients[c]))| < |Outgoing(Some(w.clients[c]))|))
  {
    hide Inv, Encode, Talk;
    StepKeeps(w, Act(c, SendPiece(true)));
    SessionFits(w, c);
    assert w.clients[c].task.sent < |Encode(w.clients[c].task.request)| by {
      SendingPart(w.clients[c], SessionLink(w), w.server.pc, w.server.files, w.server.dirty);
    }
  }

  lemma {:induction false} SentToTheEnd(w: World, c: nat) returns (actions: seq<Action>)
    requires Inv(w) && InSession(w, c) && Sends(w.clients[c].task)
    ensures forall a | a in actions :: OfSession(a, c)
    ensures c < |Run(w, actions).clients| && Run(w, actions).clients[c].task == Idle(Nothing)
    decreases |Outgoing(Some(w.clients[c]))|
  {
    hide Inv, Step, Outgoing, InSession;
    var a := Act(c, SendPiece(true));
    PieceMoves(w, c);
    var w' := Step(w, a);
    var rest := [];
    if !w'.clients[c].task.Idle? {
      rest := SentToTheEnd(w', c);
    }
    actions := [a] + rest;
    assert actions[1..] == rest;
    assert Run(w, actions) == Run(w', rest);
  }

  /** Nothing stands between the client and the end of its request: it needs no reply, or no request still to be served
      ends the session, such as an upload that is empty or refused. */
  ghost predicate Answerable(w: World, c: nat)
    requires InSession(w, c)
  {
    Sends(w.clients[c].task) || !Ending(w.server.files, Todo(SessionLink(w)))
  }

  /** The request the client of a connection has begun last. */
  function InHand(k: Link): Request {
    if k.asked != [] then Last(k.asked) else Request.Close
  }

  lemma SessionUnderway(w: World, c: nat)
    requires Inv(w) && CurrentSession(w) && InSession(w, c) && Busy(w.clients[c].task)
    ensures SessionLink(w).asked != []
    ensures var r := InHand(SessionLink(w));
      && Underway(w.clients[c], SessionLink(w), r, KeptOf(w.clients[c], r))
      && (r.Download? ==> |KeptOf(w.clients[c], r)| == r.position)
  {
    hide Inv, Talk, Current, KeptOf;
    SessionFits(w, c);
    HolderIs(w, c);
    BusyUnderway(w.clients[c], SessionLink(w), w.server.pc, w.server.files, w.server.dirty);
  }

  /** No deadlock: from every reachable state of a session on an intact connection, the two ends can by themselves bring
      the request in hand to its end, if and only if it is answerable. It then has delivered what the hosted files say:
      an offered file is whole if and only if the part of the copy the download went on with is a first part of it. */
  lemma RequestCanFinish(w: World, c: nat) returns (actions: seq<Action>)
    requires Inv(w) && CurrentSession(w) && InSession(w, c) && Busy(w.clients[c].task)
    ensures forall a | a in actions :: OfSession(a, c)
    ensures var w' := Run(w, actions);
      var r := InHand(SessionLink(w));
      var kept := KeptOf(w.clients[c], r);
      && c < |w'.clients|
      && (w'.clients[c].task.Idle? <==> Answerable(w, c))
      && (w'.clients[c].task.Idle? ==> Delivered(w'.clients[c], w'.server.files, r, kept))
      && (w'.clients[c].task.Idle? && r.Download? && DownloadStatus(w'.server.files, r.name).Ready? ==>
            var hosted := Hosted(w'.server.files, r.name);
            (w'.clients[c].disk[r.name] == hosted <==> kept <= hosted))
  {
    hide Inv, CurrentSession, Ending, Run, KeptOf;
    var k := SessionLink(w);
    SessionUnderway(w, c);
    if Sends(w.clients[c].task) {
      actions := SentToTheEnd(w, c);
    } else if !Ending(w.server.files, Todo(k)) {
      actions := ServedToTheEnd(w, c, InHand(k), KeptOf(w.clients[c], InHand(k)));
      if InHand(k).Download? {
        Appended(KeptOf(w.clients[c], InHand(k)), Hosted(Run(w, actions).server.files, InHand(k).name));
      }
    } else {
      actions := [];
      assert Run(w, []) == w by { RunNothing(w); }
    }
  }

  /** The client of connection `l` waits behind a request that ends the session. */
  ghost predicate Stuck(w: World, c: nat, l: nat, r: Request) {
    && l < |w.links| && l < w.accepted && c < |w.clients| && w.clients[c].link == Some(l) && !w.links[l].cut
    && !Quiet(r) && Ending(w.server.files, Todo(w.links[l]))
    && (w.clients[c].task == AwaitReply(r) || (w.clients[c].task.Requesting? && w.clients[c].task.request == r))
  }

  lemma WhoWaits(k: Link, pc: Pc, files: Files, dirty: set<Name>, c: Client)
    requires Talk(k, pc, files, dirty, Some(c))
    ensures c.task.Receiving? ==> !Ending(files, Todo(k))
    ensures c.task.AwaitReply? ==> !Quiet(c.task.request)
  {
    hide Wire, Settled, Owed, Encode, Continues;
  }

  lemma ServeStuck(w: World, l: nat, call: ServerCall)
    requires Inv(w) && l < |w.links| && l < w.accepted
    ensures var w' := Step(w, Serve(call));
      && |w'.links| == |w.links| && w'.links[l].cut == w.links[l].cut
      && Ending(w'.server.files, Todo(w'.links[l])) == Ending(w.server.files, Todo(w.links[l]))
  {
    hide Talk, Ending, Todo, ServerStep, Continues;
    var m := w.accepted - 1;
    LinkInOrder(w, m);
    ServerFrame(w.server, w.links[m], call);
    EndingStays(w.server, w.links[m], Holder(w, m), call);
    forall r ensures Continues(Step(w, Serve(call)).server.files, r) == Continues(w.server.files, r) {
      SameContinues(w.server, w.links[m], Holder(w, m), call, r);
    }
    SameEnding(w.server.files, Step(w, Serve(call)).server.files, Todo(w.links[l]));
  }

  lemma StuckWaits(k: Link, pc: Pc, files: Files, dirty: set<Name>, c: Client, r: Request, call: ClientCall)
    requires Talk(k, pc, files, dirty, Some(c)) && !k.cut && !Quiet(r) && Ending(files, Todo(k))
    requires c.task == AwaitReply(r) || (c.task.Requesting? && c.task.request == r)
    ensures var (c', k') := ClientStep(c, k, call);
      && Todo(k') == Todo(k)
      && (c'.task == AwaitReply(r) || (c'.task.Requesting? && c'.task.request == r))
  {
    hide Encode, Wire, Owed;
    assert Todo(k) != [];
    assert c.task == AwaitReply(r) ==> r in k.asked && WellFormed(r) by { AllAsked(k, pc, files, dirty, c); }
  }

  lemma StillStuck(w: World, c: nat, l: nat, r: Request, a: Action)
    requires Inv(w) && Stuck(w, c, l, r) && !(a.Kill? && a.client == c) && !(a.Cut? && a.link == l)
    ensures Stuck(Step(w, a), c, l, r)
  {
    hide Talk, DiskOk, Ending, Todo, ServerStep, ClientStep, Quiet;
    assert HostFits(w, c);
    LinkInOrder(w, l);
    match a
    case Connect(d) => if d < |w.clients| { assert HostFits(w, d); }
    case Kill(d, _) => if d < |w.clients| { assert HostFits(w, d); }
    case Act(d, call) =>
      if d == c {
        StuckWaits(w.links[l], View(w, l), w.server.files, w.server.dirty, w.clients[c], r, call);
        ClientFrame(w.clients[c], w.links[l], call);
      } else if d < |w.clients| {
        assert HostFits(w, d);
      }
    case Serve(call) => ServeStuck(w, l, call);
    case _ =>
  }

  lemma {:induction false} StuckForEver(w: World, c: nat, l: nat, r: Request, actions: seq<Action>)
    requires Inv(w) && Stuck(w, c, l, r)
    requires forall a | a in actions :: !(a.Kill? && a.client == c) && !(a.Cut? && a.link == l)
    ensures Stuck(Run(w, actions), c, l, r)
    decreases |actions|
  {
    if actions != [] {
      hide Inv, Step, Stuck;
      var a := actions[0];
      assert a in actions;
      StepKeeps(w, a);
      StillStuck(w, c, l, r, a);
      StuckForEver(Step(w, a), c, l, r, actions[1..]);
    }
  }

  /** ... and otherwise nothing the server or any client does brings it there: only a broken connection or a killed
      client ends the wait. */
  lemma {:induction false} NeverFinishes(w: World, c: nat, actions: seq<Action>)
    requires Inv(w) && InSession(w, c) && Busy(w.clients[c].task) && !Answerable(w, c)
    requires forall a | a in actions :: !(a.Kill? && a.client == c) && !(a.Cut? && a.link == w.accepted - 1)
    ensures c < |Run(w, actions).clients| && !Run(w, actions).clients[c].task.Idle?
  {
    hide Inv, Talk, Ending;
    SessionFits(w, c);
    WhoWaits(SessionLink(w), w.server.pc, w.server.files, w.server.dirty, w.clients[c]);
    StuckForEver(w, c, w.accepted - 1, w.clients[c].task.request, actions);
  }

  lemma OnlyResumed(c: Client, k: Link, pc: Pc, files: Files, dirty: set<Name>, r: Request)
    requires Talk(k, pc, files, dirty, Some(c)) && c.task.Deciding?
    ensures Todo(Begin(c, k, r).1) == [r] && Begin(c, k, r).0.task == Requesting(r, 0)
  {
    assert Todo(k.(asked := k.asked + [r])) == [r];
  }

  lemma NothingEnds(files: Files, r: Request)
    requires r.Download?
    ensures !Ending(files, [r]) && NoUploads([r])
  {
  }

  lemma ResumeStarts(w: World, c: nat, r: Request, copy: Bytes)
    requires Inv(w) && CurrentSession(w) && InSession(w, c) && w.clients[c].task.Deciding?
    requires copy == CopyOf(w.clients[c], w.clients[c].task.name)
    requires r == Request.Download(|copy|, w.clients[c].task.name) && WellFormed(r)
    ensures var w1 := Step(w, Act(c, Resume(true, true)));
      && Inv(w1) && CurrentSession(w1) && InSession(w1, c) && c < |w1.clients| && Busy(w1.clients[c].task)
      && Underway(w1.clients[c], SessionLink(w1), r, copy) && w1.server == w.server
      && !Ending(w1.server.files, Todo(SessionLink(w1))) && NoUploads(Todo(SessionLink(w1)))
  {
    hide Inv, CurrentSession, Ending, Talk, Todo, EncodeAll, WellFormed, NoUploads;
    StepKeeps(w, Act(c, Resume(true, true)));
    StepCurrent(w, Act(c, Resume(true, true)));
    SessionFits(w, c);
    OnlyResumed(w.clients[c], SessionLink(w), w.server.pc, w.server.files, w.server.dirty, r);
    NothingEnds(w.server.files, r);
    assert copy[..|copy|] == copy;
  }

  /** A resumed download can be brought to its end, which changes no hosted file: if the server offers the file, the
      rest of it has been appended to the copy, and that is the whole file if and only if the copy was a first part. */
  lemma ResumeCanFinish(w: World, c: nat) returns (actions: seq<Action>)
    requires Inv(w) && CurrentSession(w) && InSession(w, c) && w.clients[c].task.Deciding?
    requires WellFormed(Request.Download(LocalSize(w.clients[c], w.clients[c].task.name), w.clients[c].task.name))
    ensures forall a | a in actions :: OfSession(a, c)
    ensures var name, w' := w.clients[c].task.name, Run(w, actions);
      var copy := CopyOf(w.clients[c], name);
      var hosted := Hosted(w.server.files, name);
      && c < |w'.clients| && w'.server.files == w.server.files
      && (if DownloadStatus(w.server.files, name).Ready?
          then
            && w'.clients[c].task == Idle(Loaded(name))
            && name in w'.clients[c].disk && w'.clients[c].disk[name] == copy + Tail(hosted, |copy|)
            && (w'.clients[c].disk[name] == hosted <==> copy <= hosted)
          else w'.clients[c].task == Idle(Nothing) && name !in w'.clients[c].disk)
  {
    var a, name := Act(c, Resume(true, true)), w.clients[c].task.name;
    var copy := CopyOf(w.clients[c], name);
    var r := Request.Download(|copy|, name);
    ResumeStarts(w, c, r, copy);
    hide Inv, CurrentSession, Step, Ending, InSession, WellFormed, Underway, NoUploads;
    var w1 := Step(w, a);
    var rest := ServedToTheEnd(w1, c, r, copy);
    actions := [a] + rest;
    assert actions[1..] == rest;
    assert Run(w, actions) == Run(w1, rest);
    Appended(copy, Hosted(w.server.files, name));
  }

  // ---------------------------------------------------------------- after the session

  /** The server has left a session without closing the connection, and the client waits for a reply on it. */
  predicate Abandoned(w: World, c: nat, l: nat) {
    && l < |w.links| && l < w.accepted && (l == w.accepted - 1 ==> Over(w.server.pc))
    && c < |w.clients| && w.clients[c].link == Some(l) && w.clients[c].task.AwaitReply?
    && !w.links[l].cut && w.links[l].down == []
  }

  lemma NothingToRead(k: Link, pc: Pc, files: Files, dirty: set<Name>, c: Client, call: ClientCall)
    requires Talk(k, pc, files, dirty, Some(c)) && c.task.AwaitReply? && !k.cut && k.down == []
    ensures ClientStep(c, k, call) == (c, k)
  {
    hide EncodeAll, Encode, UpOk, Unread, Unsent, ServerFits, Owed, StatusOf, TotalOf, Settled;
    assert c.task.request in k.asked && WellFormed(c.task.request);
  }

  lemma StillAbandoned(w: World, c: nat, l: nat, a: Action)
    requires Inv(w) && Abandoned(w, c, l) && !(a.Kill? && a.client == c) && !(a.Cut? && a.link == l)
    ensures var w' := Step(w, a);
      Abandoned(w', c, l) && w'.clients[c] == w.clients[c] && w'.links[l] == w.links[l]
  {
    hide Talk, DiskOk;
    assert HostFits(w, c) && LinkFits(w, l);
    match a
    case Connect(d) => if d < |w.clients| { assert HostFits(w, d); }
    case Kill(d, _) => if d < |w.clients| { assert HostFits(w, d); }
    case Act(d, call) =>
      if d == c {
        NothingToRead(w.links[l], View(w, l), w.server.files, w.server.dirty, w.clients[c], call);
      } else if d < |w.clients| {
        assert HostFits(w, d);
        hide ClientStep;
      }
    case Serve(call) =>
      if l == w.accepted - 1 { OverStays(w.server, w.links[l], call); }
      hide ServerStep;
    case _ =>
  }

  /** Nothing the server or the client does ends the wait: only a broken connection or a killed client does. */
  lemma {:induction false} WaitsForEver(w: World, c: nat, l: nat, actions: seq<Action>)
    requires Inv(w) && Abandoned(w, c, l)
    requires forall a | a in actions :: !(a.Kill? && a.client == c) && !(a.Cut? && a.link == l)
    ensures var w' := Run(w, actions);
      Abandoned(w', c, l) && w'.clients[c] == w.clients[c] && w'.links[l] == w.links[l]
    decreases |actions|
  {
    if actions != [] {
      hide Inv, Step, Abandoned;
      var a := actions[0];
      assert a in actions;
      StepKeeps(w, a);
      StillAbandoned(w, c, l, a);
      WaitsForEver(Step(w, a), c, l, actions[1..]);
    }
  }

  /** A client at its prompt uploads an empty file and then asks for the time. */
  function EmptyUploadThenTime(c: nat, name: Name): seq<Action> {
    var upload := Request.Upload(name, []);
    [Act(c, Ask(upload, true)), Act(c, SendPiece(true)), Act(c, SendPiece(true)),
     Serve(TakeHeader([])), Serve(TakeBody([], [], 0)),
     Act(c, Ask(Request.Time, true)), Act(c, SendPiece(true))]
  }

  lemma Unroll(w: World, actions: seq<Action>)
    requires actions != []
    ensures Run(w, actions) == Run(Step(w, actions[0]), actions[1..])
    ensures |actions| == 1 ==> Run(w, actions) == Step(w, actions[0])
  {
  }

  /** The state with the server, the client and the connection in session replaced. */
  function With(w: World, c: nat, s: Server, client: Client, k: Link): World
    requires 0 < w.accepted <= |w.links| && c < |w.clients|
  {
    w.(server := s, clients := w.clients[c := client], links := w.links[w.accepted - 1 := k])
  }

  lemma StepWith(w: World, c: nat, s: Server, client: Client, k: Link, call: ClientCall)
    requires 0 < w.accepted <= |w.links| && c < |w.clients| && client.link == Some(w.accepted - 1)
    ensures var (client', k') := ClientStep(client, k, call);
      Step(With(w, c, s, client, k), Act(c, call)) == With(w, c, s, client', k') && client'.link == client.link
  {
    ClientFrame(client, k, call);
    hide ClientStep;
  }

  lemma ServeWith(w: World, c: nat, s: Server, client: Client, k: Link, call: ServerCall)
    requires 0 < w.accepted <= |w.links| && c < |w.clients|
    ensures var (s', k') := ServerStep(s, k, call);
      Step(With(w, c, s, client, k), Serve(call)) == With(w, c, s', client, k')
  {
    hide ServerStep;
  }

  lemma UploadPacket(r: Request)
    requires WellFormed(r) && r.Upload? && r.content == []
    ensures var code, body := Encode(r), Body(r);
      && |code| == HEADER_SIZE + |body| && OpOf(code) == UPLOAD && SizeOf(code) == |body| > 0
      && code[HEADER_SIZE..] == body && body[..|body|] == body && body[|body|..] == []
  {
    hide Encode, NumberAndName;
    RequestRoundTrip(r, []);
    assert Encode(r) + [] == Encode(r);
    assert Body(r) + Content(r) + [] == Body(r);
  }

  lemma UploadSent(c: Client, k: Link, r: Request)
    requires c.task.Idle? && !k.cut && k.up == [] && WellFormed(r) && r.Upload? && r.content == []
    ensures var (c1, k1) := ClientStep(c, k, Ask(r, true));
      var (c2, k2) := ClientStep(c1, k1, SendPiece(true));
      var (c3, k3) := ClientStep(c2, k2, SendPiece(true));
      c3 == c.(task := Idle(Nothing)) && k3 == k.(up := Encode(r), asked := k.asked + [r])
  {
    var code := Encode(r);
    UploadPacket(r);
    hide Encode, WellFormed, Body;
    assert code[0..HEADER_SIZE] + code[HEADER_SIZE..|code|] == code;
    assert [] + code[0..HEADER_SIZE] == code[0..HEADER_SIZE];
    assert Piece(r, 0) == HEADER_SIZE && Piece(r, HEADER_SIZE) == |Body(r)|;
    hide Piece;
  }

  lemma DispatchEmpty(s: Server, k: Link, mac: Mac, r: Request)
    requires WellFormed(r) && r.Upload? && r.content == []
    ensures Dispatch(s, k, mac, UPLOAD, Body(r), [], [], 0) == (s.(pc := Accepting), k)
  {
    hide Decode, Body;
    DecodeInverts(r);
  }

  lemma UploadDropped(s: Server, k: Link, r: Request)
    requires s.pc.ReadingHeader? && k.up == Encode(r) && WellFormed(r) && r.Upload? && r.content == []
    ensures var (s4, k4) := ServerStep(s, k, TakeHeader([]));
      var (s5, k5) := ServerStep(s4, k4, TakeBody([], [], 0));
      s5 == s.(pc := Accepting) && k5 == k.(up := [])
  {
    hide Encode, Decode, Dispatch, Body, Content, SizeOf, OpOf;
    UploadPacket(r);
    DispatchEmpty(s.(pc := ReadingBody(s.pc.mac, UPLOAD, |Body(r)|)), k.(up := []), s.pc.mac, r);
  }

  lemma TimeSent(c: Client, k: Link)
    requires c.task.Idle? && !k.cut && k.up == []
    ensures var (c1, k1) := ClientStep(c, k, Ask(Request.Time, true));
      var (c2, k2) := ClientStep(c1, k1, SendPiece(true));
      && c2 == c.(task := AwaitReply(Request.Time))
      && k2 == k.(up := Encode(Request.Time), asked := k.asked + [Request.Time])
  {
    var code := Encode(Request.Time);
    assert |code| == HEADER_SIZE;
    assert [] + code[0..HEADER_SIZE] == code;
    hide Encode;
  }

  lemma Quiescent(w: World, c: nat)
    requires Inv(w) && InSession(w, c) && w.server.pc.ReadingHeader?
    requires w.clients[c].task.Idle? && Todo(SessionLink(w)) == []
    ensures SessionLink(w).up == [] && SessionLink(w).down == []
  {
    SessionFits(w, c);
    assert SessionLink(w).up + [] == [];
  }

  /** It happens: an empty upload ends the session behind the client's back, and the next request is never answered. */
  lemma EmptyUploadStrands(w: World, c: nat, name: Name)
    requires Inv(w) && InSession(w, c) && w.server.pc.ReadingHeader?
    requires w.clients[c].task.Idle? && Todo(SessionLink(w)) == []
    requires WellFormed(Request.Upload(name, []))
    ensures Abandoned(Run(w, EmptyUploadThenTime(c, name)), c, w.accepted - 1)
  {
    hide Encode, EncodeAll, Todo, Talk, WellFormed, Inv, ClientStep, ServerStep, Step, Run;
    var upload, k0, c0 := Request.Upload(name, []), SessionLink(w), w.clients[c];
    Quiescent(w, c);
    UploadSent(c0, k0, upload);
    var (c1, k1) := ClientStep(c0, k0, Ask(upload, true));
    var (c2, k2) := ClientStep(c1, k1, SendPiece(true));
    var (c3, k3) := ClientStep(c2, k2, SendPiece(true));
    UploadDropped(w.server, k3, upload);
    var (s4, k4) := ServerStep(w.server, k3, TakeHeader([]));
    var (s5, k5) := ServerStep(s4, k4, TakeBody([], [], 0));
    TimeSent(c3, k5);
    var (c6, k6) := ClientStep(c3, k5, Ask(Request.Time, true));
    var (c7, k7) := ClientStep(c6, k6, SendPiece(true));
    assert With(w, c, w.server, c0, k0) == w;
    StepWith(w, c, w.server, c0, k0, Ask(upload, true));
    StepWith(w, c, w.server, c1, k1, SendPiece(true));
    StepWith(w, c, w.server, c2, k2, SendPiece(true));
    ServeWith(w, c, w.server, c3, k3, TakeHeader([]));
    ServeWith(w, c, s4, c3, k4, TakeBody([], [], 0));
    StepWith(w, c, s5, c3, k5, Ask(Request.Time, true));
    StepWith(w, c, s5, c6, k6, SendPiece(true));
    var actions := EmptyUploadThenTime(c, name);
    Unroll(w, actions);
    Unroll(With(w, c, w.server, c1, k1), actions[1..]);
    Unroll(With(w, c, w.server, c2, k2), actions[2..]);
    Unroll(With(w, c, w.server, c3, k3), actions[3..]);
    Unroll(With(w, c, s4, c3, k4), actions[4..]);
    Unroll(With(w, c, s5, c3, k5), actions[5..]);
    Unroll(With(w, c, s5, c6, k6), actions[6..]);
  }
}
