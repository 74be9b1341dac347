/** What a session delivers: while it lasts, what the server owes its client is the hosted file as it now stands. */
module Deliveries {
  import opened Bytes
  import opened Messages
  import opened Exchange
  import opened Machine
  import opened Conversation
  import opened ServerCalls
  import opened World
  import opened Wrappers

  /** What is still to come appends the rest of the hosted file to the part of the copy the download started with. */
  predicate Appends(files: Files, name: Name, start: nat, disk: map<Name, Bytes>, due: Bytes) {
    && DownloadStatus(files, name).Ready? && name in disk && start <= |disk[name]|
    && disk[name] + due == disk[name][..start] + Tail(Hosted(files, name), start)
  }

  /** What the client is waiting for belongs to the files as they are. */
  predicate Current(c: Client, k: Link, files: Files) {
    match c.task
    case AwaitReply(r) =>
      r.Download? && |k.served| == |k.asked| ==> AnswersDownload(files, r.name, r.position, k.due)
    case Receiving(name, _) =>
      k.asked != [] && Last(k.asked).Download? ==> Appends(files, name, Last(k.asked).position, c.disk, k.due)
    case _ => true
  }

  predicate CurrentSession(w: World) {
    0 < w.accepted <= |w.links| && !Over(w.server.pc) ==>
      var l := w.accepted - 1;
      Holder(w, l).Some? ==> Current(Holder(w, l).value, w.links[l], w.server.files)
  }

  // ---------------------------------------------------------------- the client's calls

  lemma HeaderCurrent(c: Client, k: Link, files: Files)
    requires c.task.AwaitReply? && c.task.request.Download? && Prepared(c, c.task.request)
    requires RESPONSE_SIZE <= |k.down| && k.down <= k.due
    requires AnswersDownload(files, c.task.request.name, c.task.request.position, k.due)
    ensures var r := c.task.request;
      var c' := Accept(c, r, k.down[..RESPONSE_SIZE]);
      c'.task.Receiving? ==>
        c'.task.name == r.name && Appends(files, r.name, r.position, c'.disk, TakeDown(k, RESPONSE_SIZE).due)
  {
    hide StatusOf, TotalOf, Hosted;
    var r := c.task.request;
    ResponseRead(k.due, k.down[..RESPONSE_SIZE]);
    assert c.disk[r.name][..r.position] == c.disk[r.name];
  }

  lemma ReplyCurrent(c: Client, k: Link, pc: Pc, files: Files, dirty: set<Name>, stale: bool)
    requires c.task.AwaitReply? && Talk(k, pc, files, dirty, Some(c)) && Current(c, k, files)
    ensures var (c', k') := ReadReply(c, k, c.task.request, stale); Current(c', k', files)
  {
    hide Wire, Owed, AnswersDownload, Appends, StatusOf, TotalOf, Encode;
    var r := c.task.request;
    if |k.down| >= ReplySize(r) {
      assert ServedInOrder(k.asked, k.served) && AllWellFormed(k.asked) by { OrderKept(k, pc, files, dirty, Some(c)); }
      ReplyReady(c, k, files, dirty);
      if r.Download? {
        HeaderCurrent(c, k, files);
      }
    }
  }

  lemma DataCurrent(c: Client, k: Link, files: Files, dirty: set<Name>, wanted: nat)
    requires c.task.Receiving? && ClientFits(c, k, files, dirty) && Current(c, k, files)
    ensures var (c', k') := ReadData(c, k, c.task.name, c.task.left, wanted); Current(c', k', files)
  {
    hide Hosted, DownloadStatus, Tail;
    if k.down != [] {
      var name, n := c.task.name, Received(wanted, c.task.left, |k.down|);
      AddedInTwo(c.disk[name], k.down[..n], k.due[n..]);
      assert k.due == k.down[..n] + k.due[n..];
    }
  }

  lemma ClientCurrent(c: Client, k: Link, pc: Pc, files: Files, dirty: set<Name>, call: ClientCall)
    requires Talk(k, pc, files, dirty, Some(c)) && Current(c, k, files)
    ensures var (c', k') := ClientStep(c, k, call); Current(c', k', files)
  {
    hide Wire, Appends, AnswersDownload, Encode, ReadReply, ReadData, Piece;
    match (c.task, call)
    case (AwaitReply(_), TakeReply(stale)) => ReplyCurrent(c, k, pc, files, dirty, stale);
    case (Receiving(_, _), TakeData(wanted)) => DataCurrent(c, k, files, dirty, wanted);
    case _ =>
  }

  // ---------------------------------------------------------------- the server's calls

  /** With nothing left to serve, no call of the server changes a file or what is due. */
  lemma NothingLeft(s: Server, k: Link, who: Option<Client>, call: ServerCall)
    requires Talk(k, s.pc, s.files, s.dirty, who) && Todo(k) == [] && !s.pc.ReadingMac?
    ensures var (s', k') := ServerStep(s, k, call);
      s'.files == s.files && k'.served == k.served && k'.asked == k.asked && k'.due == k.due
  {
    hide Peer, Dispatch, SendingFits, Encode, OpOf, SizeOf, Hosted;
  }

  lemma DispatchCurrent(s: Server, k: Link, c: Client, mac: Mac, op: Byte, body: Bytes,
                        clock: Bytes, gap: Bytes, junk: nat)
    requires AtContent(k, op, body, Outgoing(Some(c))) && Sizable(s.files)
    requires c.task.AwaitReply? && Last(k.asked) == c.task.request && |k.served| < |k.asked|
    ensures var (s', k') := Dispatch(s, k, mac, op, body, clock, gap, junk); Current(c, k', s'.files)
  {
    hide Decode, UpOk, EncodeAll, AllWellFormed, Body, Response, AnswersDownload, Accepted, DownloadStatus, Hosted;
    PacketDecoded(k, op, body, Outgoing(Some(c)));
    var r := Todo(k)[0];
    if r.Download? {
      var padding := if |gap| == 4 then gap else [0, 0, 0, 0];
      DownloadOwed(s.files, {}, r.name, r.position, padding, junk);
    }
  }

  lemma StoreCurrent(s: Server, k: Link, c: Client, wanted: nat, failure: Failure)
    requires s.pc.Storing? && Talk(k, s.pc, s.files, s.dirty, Some(c)) && c.task.AwaitReply? && |k.served| < |k.asked|
    ensures var (s', k') := Store(s, k, s.pc.mac, s.pc.name, s.pc.size, s.pc.left, wanted, failure);
      Current(c, k', s'.files)
  {
    hide UpOk, EncodeAll, Encode, Hosted, Written, Accepted, Received, AnswersDownload, Settled, Owed;
  }

  lemma AllServed(k: Link, pc: Pc, files: Files, dirty: set<Name>, c: Client)
    requires Talk(k, pc, files, dirty, Some(c))
    requires c.task.Receiving? || (c.task.AwaitReply? && |k.served| == |k.asked|)
    ensures Todo(k) == [] && !pc.ReadingMac?
  {
    hide UpOk, EncodeAll;
  }

  lemma Unserved(k: Link, pc: Pc, files: Files, dirty: set<Name>, c: Client)
    requires Talk(k, pc, files, dirty, Some(c)) && c.task.AwaitReply? && |k.served| != |k.asked|
    ensures Last(k.asked) == c.task.request && |k.served| < |k.asked|
  {
  }

  lemma UnservedCurrent(s: Server, k: Link, c: Client, call: ServerCall)
    requires Talk(k, s.pc, s.files, s.dirty, Some(c)) && StoreOk(s)
    requires c.task.AwaitReply? && |k.served| != |k.asked|
    ensures var (s', k') := ServerStep(s, k, call); Current(c, k', s'.files)
  {
    hide Talk, Dispatch, Store, AnswersDownload, Todo, Greeting, Hosted;
    Unserved(k, s.pc, s.files, s.dirty, c);
    match (s.pc, call)
    case (ReadingBody(mac, op, size), TakeBody(clock, gap, junk)) =>
      if |k.up| >= size {
        BodyTaken(k, s.files, s.dirty, Some(c), mac, op, size);
        DispatchCurrent(s, TakeUp(k, size), c, mac, op, k.up[..size], clock, gap, junk);
      }
    case (ReadingHeader(mac), TakeHeader(clock)) =>
      if |k.up| >= HEADER_SIZE && SizeOf(k.up) == 0 {
        HeaderTaken(k, s.files, s.dirty, Some(c), mac);
        DispatchCurrent(s, TakeUp(k, HEADER_SIZE), c, mac, OpOf(k.up), [], clock, [], 0);
      }
    case (Storing(_, _, _, _), TakeContent(wanted, failure)) => StoreCurrent(s, k, c, wanted, failure);
    case _ =>
  }

  lemma ServerCurrent(s: Server, k: Link, c: Client, call: ServerCall)
    requires Talk(k, s.pc, s.files, s.dirty, Some(c)) && StoreOk(s) && Current(c, k, s.files)
    ensures var (s', k') := ServerStep(s, k, call); Current(c, k', s'.files)
  {
    hide Talk, ServerStep, Appends, AnswersDownload, Todo;
    if c.task.Receiving? || (c.task.AwaitReply? && |k.served| == |k.asked|) {
      AllServed(k, s.pc, s.files, s.dirty, c);
      NothingLeft(s, k, Some(c), call);
    } else if c.task.AwaitReply? {
      UnservedCurrent(s, k, c, call);
    }
  }

  // ---------------------------------------------------------------- one request

  /** The part of the copy a download goes on with. */
  function KeptOf(c: Client, r: Request): Bytes {
    if r.Download? && r.name in c.disk && r.position <= |c.disk[r.name]| then c.disk[r.name][..r.position] else []
  }

  /** The client is at the request `r`, a download of a copy that began with `kept`. */
  predicate Underway(c: Client, k: Link, r: Request, kept: Bytes) {
    && k.asked != [] && Last(k.asked) == r
    && (r.Download? ==> r.name in c.disk && r.position <= |c.disk[r.name]| && KeptOf(c, r) == kept)
    && match c.task
       case Requesting(q, _) => q == r
       case AwaitReply(q) => q == r
       case Receiving(name, _) => r.Download? && name == r.name
       case _ => false
  }

  /** What the client has in the end, given the hosted files: of an offered file the rest behind `kept`. */
  predicate Delivered(c: Client, files: Files, r: Request, kept: Bytes) {
    match r
    case Download(start, name) =>
      if DownloadStatus(files, name).Ready?
      then c.task == Idle(Loaded(name)) && name in c.disk && c.disk[name] == kept + Tail(Hosted(files, name), start)
      else c.task == Idle(Nothing) && name !in c.disk
    case Echo(data) => c.task == Idle(Echoed(data, data))
    case _ => c.task == Idle(Nothing)
  }

  lemma BusyUnderway(c: Client, k: Link, pc: Pc, files: Files, dirty: set<Name>)
    requires Talk(k, pc, files, dirty, Some(c)) && Current(c, k, files)
    requires c.task.Requesting? || c.task.AwaitReply? || c.task.Receiving?
    ensures k.asked != [] && Underway(c, k, Last(k.asked), KeptOf(c, Last(k.asked)))
    ensures Last(k.asked).Download? ==> |KeptOf(c, Last(k.asked))| == Last(k.asked).position
  {
    hide Wire, Settled, Owed, Encode, DownloadStatus, Hosted, Tail;
  }

  lemma ReplyDelivers(c: Client, k: Link, pc: Pc, files: Files, dirty: set<Name>, r: Request, kept: Bytes, stale: bool)
    requires c.task == AwaitReply(r) && Talk(k, pc, files, dirty, Some(c)) && Current(c, k, files) && !k.cut
    requires Underway(c, k, r, kept)
    ensures var (c', k') := ReadReply(c, k, r, stale); Underway(c', k', r, kept) || Delivered(c', files, r, kept)
  {
    hide Wire, Encode, StatusOf, TotalOf, Hosted;
    if |k.down| >= ReplySize(r) {
      assert ServedInOrder(k.asked, k.served) && AllWellFormed(k.asked) by { OrderKept(k, pc, files, dirty, Some(c)); }
      ReplyReady(c, k, files, dirty);
      if r.Download? {
        ResponseRead(k.due, k.down[..RESPONSE_SIZE]);
        assert kept == c.disk[r.name];
        assert kept + [] == kept;
      } else if r.Echo? {
        assert k.down[..|r.data|] == k.due[..|r.data|] == r.data;
      }
    }
  }

  lemma DataDelivers(c: Client, k: Link, files: Files, dirty: set<Name>, r: Request, kept: Bytes, wanted: nat)
    requires c.task.Receiving? && ClientFits(c, k, files, dirty) && Current(c, k, files) && !k.cut
    requires Underway(c, k, r, kept)
    ensures var (c', k') := ReadData(c, k, r.name, c.task.left, wanted);
      Underway(c', k', r, kept) || Delivered(c', files, r, kept)
  {
    hide Hosted, DownloadStatus, Tail;
    if k.down != [] {
      var name, n := c.task.name, Received(wanted, c.task.left, |k.down|);
      var copy := c.disk[name] + k.down[..n];
      assert copy[..r.position] == kept;
      AddedInTwo(c.disk[name], k.down[..n], k.due[n..]);
      assert k.due == k.down[..n] + k.due[n..];
      assert n == |k.due| ==> copy + [] == copy;
    }
  }

  /** On an intact connection, whichever call the client makes: it is still at its request, or has what the request
      delivers. */
  lemma ClientDelivers(c: Client, k: Link, pc: Pc, files: Files, dirty: set<Name>,
                       r: Request, kept: Bytes, call: ClientCall)
    requires Talk(k, pc, files, dirty, Some(c)) && Current(c, k, files) && !k.cut && Underway(c, k, r, kept)
    ensures var (c', k') := ClientStep(c, k, call); Underway(c', k', r, kept) || Delivered(c', files, r, kept)
  {
    hide Wire, Appends, AnswersDownload, Encode, ReadReply, ReadData, Piece;
    match (c.task, call)
    case (AwaitReply(_), TakeReply(stale)) => ReplyDelivers(c, k, pc, files, dirty, r, kept, stale);
    case (Receiving(_, _), TakeData(wanted)) => DataDelivers(c, k, files, dirty, r, kept, wanted);
    case _ =>
  }

  // ---------------------------------------------------------------- whole runs

  lemma ActCurrent(w: World, d: nat, call: ClientCall)
    requires Inv(w) && CurrentSession(w)
    ensures CurrentSession(Step(w, Act(d, call)))
  {
    hide Talk, DiskOk, Current, ClientStep;
    if d < |w.clients| && w.clients[d].link.Some? && 0 < w.accepted {
      assert HostFits(w, d);
      var l, m := w.accepted - 1, w.clients[d].link.value;
      LinkInOrder(w, l);
      ClientFrame(w.clients[d], w.links[m], call);
      if m == l && !Over(w.server.pc) {
        ClientCurrent(w.clients[d], w.links[l], View(w, l), w.server.files, w.server.dirty, call);
      }
    }
  }

  lemma ServeCurrent(w: World, call: ServerCall)
    requires Inv(w) && CurrentSession(w)
    ensures CurrentSession(Step(w, Serve(call)))
  {
    hide Talk, DiskOk, Current, ServerStep;
    if 0 < w.accepted {
      var l := w.accepted - 1;
      LinkInOrder(w, l);
      ServerFrame(w.server, w.links[l], call);
      if Over(w.server.pc) {
        OverStays(w.server, w.links[l], call);
      } else if Holder(w, l).Some? {
        ServerCurrent(w.server, w.links[l], Holder(w, l).value, call);
      }
    }
  }

  lemma NotBegun(k: Link, files: Files, dirty: set<Name>, c: Client)
    requires Talk(k, ReadingMac, files, dirty, Some(c))
    ensures Current(c, k, files)
  {
    hide UpOk, EncodeAll, AnswersDownload;
  }

  lemma ListenCurrent(w: World)
    requires Inv(w) && CurrentSession(w)
    ensures CurrentSession(Step(w, Listen))
  {
    hide Talk;
    var l := w.accepted;
    if l < |w.links| && Holder(w, l).Some? {
      LinkInOrder(w, l);
      NotBegun(w.links[l], w.server.files, w.server.dirty, Holder(w, l).value);
    }
  }

  lemma OtherCurrent(w: World, a: Action)
    requires Inv(w) && CurrentSession(w) && !a.Act? && !a.Serve? && !a.Listen?
    ensures CurrentSession(Step(w, a))
  {
    hide Talk, DiskOk, AnswersDownload, Appends;
    if 0 < w.accepted {
      var l := w.accepted - 1;
      LinkInOrder(w, l);
      match a
      case Connect(d) => if d < |w.clients| { assert HostFits(w, d); }
      case Kill(d, _) => if d < |w.clients| { assert HostFits(w, d); }
      case _ =>
    }
  }

  lemma StepCurrent(w: World, a: Action)
    requires Inv(w) && CurrentSession(w)
    ensures CurrentSession(Step(w, a))
  {
    hide Inv, CurrentSession, Step;
    match a
    case Act(d, call) => ActCurrent(w, d, call);
    case Serve(call) => ServeCurrent(w, call);
    case Listen => ListenCurrent(w);
    case _ => OtherCurrent(w, a);
  }

  /** In every run, what the client of the session the server is in waits for belongs to the files as they are,
      whatever has been uploaded before, and under whatever name. */
  lemma {:induction false} SessionsCurrent(w: World, actions: seq<Action>)
    requires Inv(w) && CurrentSession(w)
    ensures Inv(Run(w, actions)) && CurrentSession(Run(w, actions))
    decreases |actions|
  {
    hide Inv, CurrentSession, Step;
    if actions != [] {
      StepKeeps(w, actions[0]);
      StepCurrent(w, actions[0]);
      SessionsCurrent(Step(w, actions[0]), actions[1..]);
    }
  }

  lemma InitiallyCurrent(w: World)
    requires Initial(w)
    ensures Inv(w) && CurrentSession(w)
  {
    InitialFits(w);
  }
}
