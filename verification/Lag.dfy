/** How far a client's copy may lag behind the server's send loop, and so behind the stamp an interruption leaves. */
module Lag {
  import opened Bytes
  import opened Messages
  import opened Exchange
  import opened Machine
  import opened Conversation
  import opened ServerCalls
  import opened World
  import opened Stamps
  import opened Wrappers

  /** The send loop the server is in, or will be in once its reply is sent. */
  function Loop(pc: Pc): Option<Pc> {
    match pc
    case Sending(_, _, _, _, _) => Some(pc)
    case Replying(_, _, next) => if next.Sending? then Some(next) else None
    case _ => None
  }

  function Pending(pc: Pc): nat {
    if pc.Replying? then |pc.reply| else 0
  }

  /** No download still to be served starts inside the copy it is to go on with. */
  predicate Covered(c: Client, todo: seq<Request>) {
    forall r | r in todo && r.Download? :: LocalSize(c, r.name) <= r.position
  }

  /** The copy of the link's owner is no longer than what the loop has sent; while the owner is reading the reply,
      it is shorter by what is still under way. */
  predicate Behind(k: Link, pc: Pc, c: Client, holds: bool) {
    match Loop(pc)
    case None => true
    case Some(Sending(_, name, start, total, left)) =>
      && k.served != [] && Last(k.served) == Request.Download(start, name)
      && (pc.Replying? ==> |pc.reply| == RESPONSE_SIZE)
      && LocalSize(c, name) + left <= start + total
      && (holds && c.task.Receiving? ==> LocalSize(c, name) + |k.down| + Pending(pc) + left <= start + total)
      && (holds && c.task.AwaitReply? && |k.served| == |k.asked| ==>
            LocalSize(c, name) <= start && |k.down| + Pending(pc) + left <= RESPONSE_SIZE + total)
    case _ => true
  }

  // ---------------------------------------------------------------- the client's calls

  /** Only the receive loop makes a copy longer. */
  lemma OnlyReceivingGrows(c: Client, k: Link, call: ClientCall, name: Name)
    requires !c.task.Receiving?
    ensures LocalSize(ClientStep(c, k, call).0, name) <= LocalSize(c, name)
  {
    hide Encode, StatusOf, TotalOf, UntilNul;
  }

  /** Reading the reply header turns what the reply announces into what is to be received. */
  lemma AcceptLag(c: Client, k: Link, pc: Pc, files: Files, dirty: set<Name>, stale: bool)
    requires c.task.AwaitReply? && Talk(k, pc, files, dirty, Some(c))
    requires Covered(c, Todo(k)) && Behind(k, pc, c, true)
    ensures var (c', k') := ReadReply(c, k, c.task.request, stale);
      Covered(c', Todo(k')) && Behind(k', pc, c', true)
  {
    hide Encode, StatusOf, TotalOf, Owed, WholeReply, UpOk, Unread, EncodeAll, ServerFits;
    if |k.down| >= ReplySize(c.task.request) {
      ReplyReady(c, k, files, dirty);
    }
  }

  lemma DataLag(c: Client, k: Link, pc: Pc, files: Files, dirty: set<Name>, wanted: nat)
    requires c.task.Receiving? && Talk(k, pc, files, dirty, Some(c))
    requires Covered(c, Todo(k)) && Behind(k, pc, c, true)
    ensures var (c', k') := ReadData(c, k, c.task.name, c.task.left, wanted);
      Covered(c', Todo(k')) && Behind(k', pc, c', true)
  {
    hide Encode, UpOk, Unread, EncodeAll, ServerFits;
    assert Todo(k) == [];
    assert k.served == k.asked;
  }

  /** Beginning a request makes no copy longer. */
  lemma BeginShrinks(c: Client, k: Link, r: Request, name: Name)
    ensures LocalSize(Begin(c, k, r).0, name) <= LocalSize(c, name)
    ensures r.Download? && (r.position == 0 || r.position == LocalSize(c, r.name)) ==>
      LocalSize(Begin(c, k, r).0, r.name) <= r.position
  {
  }

  lemma BeginCovered(c: Client, k: Link, r: Request)
    requires Covered(c, Todo(k)) && ServedInOrder(k.asked, k.served)
    requires r.Download? ==> r.position == 0 || r.position == LocalSize(c, r.name)
    ensures var (c', k') := Begin(c, k, r); Covered(c', Todo(k'))
  {
    var (c', k') := Begin(c, k, r);
    assert Todo(k') == Todo(k) + [r];
    hide Begin, LocalSize, Todo;
    forall q | q in Todo(k') && q.Download? ensures LocalSize(c', q.name) <= q.position {
      BeginShrinks(c, k, r, q.name);
    }
  }

  lemma BeginLag(c: Client, k: Link, pc: Pc, r: Request)
    requires Covered(c, Todo(k)) && Behind(k, pc, c, true) && !c.task.Receiving? && !c.task.AwaitReply?
    requires ServedInOrder(k.asked, k.served)
    requires r.Download? ==> r.position == 0 || r.position == LocalSize(c, r.name)
    ensures var (c', k') := Begin(c, k, r);
      Covered(c', Todo(k')) && Behind(k', pc, c', true)
  {
    hide Covered, Todo, LocalSize;
    BeginCovered(c, k, r);
    if Loop(pc).Some? && Loop(pc).value.Sending? {
      BeginShrinks(c, k, r, Loop(pc).value.name);
    }
  }

  lemma PieceLag(c: Client, k: Link, pc: Pc, files: Files, dirty: set<Name>, accepted: bool)
    requires c.task.Requesting? && Talk(k, pc, files, dirty, Some(c))
    requires Covered(c, Todo(k)) && Behind(k, pc, c, true)
    ensures var (c', k') := SendNext(c, k, c.task.request, c.task.sent, accepted);
      Covered(c', Todo(k')) && Behind(k', pc, c', true)
  {
    hide Encode, UpOk, Unread, EncodeAll, ServerFits, Settled, Piece;
    var (c', k') := SendNext(c, k, c.task.request, c.task.sent, accepted);
    assert Todo(k') == Todo(k);
  }

  /** The greeting leaves every copy alone. */
  lemma StopLag(c: Client, k: Link, k': Link, pc: Pc, task: Task)
    requires Covered(c, Todo(k)) && Behind(k, pc, c, true)
    requires k'.served == k.served && k'.asked == k.asked && !task.Receiving? && !task.AwaitReply?
    ensures var c' := c.(task := task);
      Covered(c', Todo(k')) && Behind(k', pc, c', true)
  {
    assert Todo(k') == Todo(k);
  }

  lemma ClientLag(c: Client, k: Link, pc: Pc, files: Files, dirty: set<Name>, call: ClientCall)
    requires Talk(k, pc, files, dirty, Some(c))
    requires Covered(c, Todo(k)) && Behind(k, pc, c, true)
    ensures var (c', k') := ClientStep(c, k, call);
      Covered(c', Todo(k')) && Behind(k', pc, c', true)
  {
    hide Talk, Encode, Covered, Behind, ReadReply, ReadData, SendNext, Begin;
    assert ServedInOrder(k.asked, k.served) by { OrderKept(k, pc, files, dirty, Some(c)); }
    match (c.task, call)
    case (Idle(_), Ask(r, _)) =>
      if WellFormed(r) && (r.Download? ==> r.position == 0) { BeginLag(c, k, pc, r); }
    case (Deciding(name), Resume(_, _)) =>
      BeginLag(c, k, pc, Request.Download(LocalSize(c, name), name));
      StopLag(c, k, k, pc, Idle(Nothing));
    case (Requesting(_, _), SendPiece(accepted)) => PieceLag(c, k, pc, files, dirty, accepted);
    case (AwaitReply(_), TakeReply(stale)) => AcceptLag(c, k, pc, files, dirty, stale);
    case (Receiving(_, _), TakeData(wanted)) => DataLag(c, k, pc, files, dirty, wanted);
    case _ =>
      var (c', k') := ClientStep(c, k, call);
      if c' != c || k' != k { StopLag(c, k, k', pc, c'.task); }
  }

  // ---------------------------------------------------------------- the server's calls

  /** The owner of a link, as the server's half of the conversation sees it. */
  function HolderOf(c: Client, holds: bool): Option<Client> {
    if holds then Some(c) else None
  }

  lemma AnswerLag(s: Server, k: Link, c: Client, holds: bool, r: Request, reply: Bytes, mac: Mac)
    requires Covered(c, Todo(k)) && |k.served| <= |k.asked|
    ensures var (s', k') := Answer(s, k, r, reply, ReadingHeader(mac), []);
      Covered(c, Todo(k')) && Behind(k', s'.pc, c, holds)
  {
    TodoShrinks(k, Answer(s, k, r, reply, ReadingHeader(mac), []).1);
  }

  /** A download that is dispatched starts at the end of the copy or beyond. */
  lemma DownloadLag(s: Server, k: Link, c: Client, holds: bool, mac: Mac, gap: Bytes, junk: nat, op: Byte, body: Bytes)
    requires AtContent(k, op, body, Outgoing(HolderOf(c, holds))) && Todo(k)[0].Download?
    requires Peer(k, ReadingHeader(mac), s.files, s.dirty, HolderOf(c, holds)) && Covered(c, Todo(k))
    ensures var (s', k') := StartDownload(s, k, mac, Todo(k)[0].position, Todo(k)[0].name, gap, junk);
      Covered(c, Todo(k')) && Behind(k', s'.pc, c, holds)
  {
    hide Encode, EncodeAll, UpOk, Response, Owed, NumberAndName, StampBody;
    var (s', k') := StartDownload(s, k, mac, Todo(k)[0].position, Todo(k)[0].name, gap, junk);
    assert Todo(k') == Todo(k)[1..];
    assert Todo(k)[0] in Todo(k);
  }

  lemma DispatchLag(s: Server, k: Link, c: Client, holds: bool, mac: Mac, op: Byte, body: Bytes,
                    clock: Bytes, gap: Bytes, junk: nat)
    requires AtContent(k, op, body, Outgoing(HolderOf(c, holds)))
    requires Peer(k, ReadingHeader(mac), s.files, s.dirty, HolderOf(c, holds)) && Covered(c, Todo(k))
    ensures var (s', k') := Dispatch(s, k, mac, op, body, clock, gap, junk);
      Covered(c, Todo(k')) && Behind(k', s'.pc, c, holds)
  {
    hide Peer, Encode, EncodeAll, UpOk, NumberAndName, Response, Decode, StartDownload, Written, Accepted;
    hide Body, Covered, Answer;
    var r := Todo(k)[0];
    assert r in k.asked;
    DecodeInverts(r);
    if r.Download? {
      DownloadLag(s, k, c, holds, mac, gap, junk, op, body);
    } else if r.Echo? {
      AnswerLag(s, k, c, holds, r, r.data, mac);
    } else if r.Time? {
      AnswerLag(s, k, c, holds, r, if |clock| == TIME_SIZE then clock else LittleEndian(0, 8), mac);
    }
  }

  lemma ReplyLag(s: Server, k: Link, c: Client, holds: bool, accepted: bool, failure: Failure)
    requires s.pc.Replying? && Talk(k, s.pc, s.files, s.dirty, HolderOf(c, holds))
    requires Covered(c, Todo(k)) && Behind(k, s.pc, c, holds)
    ensures var (s', k') := SendReply(s, k, s.pc.reply, s.pc.next, accepted, failure);
      Covered(c, Todo(k')) && Behind(k', s'.pc, c, holds)
  {
    hide ClientFits, Encode, EncodeAll, UpOk;
    var (s', k') := SendReply(s, k, s.pc.reply, s.pc.next, accepted, failure);
    assert Todo(k') == Todo(k);
  }

  lemma ChunkLag(s: Server, k: Link, c: Client, holds: bool, accepted: bool)
    requires s.pc.Sending? && Talk(k, s.pc, s.files, s.dirty, HolderOf(c, holds))
    requires Covered(c, Todo(k)) && Behind(k, s.pc, c, holds)
    ensures var (s', k') := SendNextChunk(s, k, s.pc.mac, s.pc.name, s.pc.start, s.pc.total, s.pc.left, accepted);
      Covered(c, Todo(k')) && Behind(k', s'.pc, c, holds)
  {
    hide ClientFits, Encode, EncodeAll, UpOk, DownloadStatus;
    var (s', k') := SendNextChunk(s, k, s.pc.mac, s.pc.name, s.pc.start, s.pc.total, s.pc.left, accepted);
    assert Todo(k') == Todo(k);
  }

  /** Other calls only read, or finish an upload. */
  lemma OnlyReads(s: Server, k: Link, call: ServerCall)
    requires s.pc.ReadingMac? || s.pc.Storing? || s.pc.Ignoring?
    ensures var (s', k') := ServerStep(s, k, call);
      k'.asked == k.asked && |k.served| <= |k'.served| && Loop(s'.pc).None?
  {
    hide StampBody, Header, Hosted, Written, OpOf;
  }

  lemma ReadLag(s: Server, k: Link, c: Client, holds: bool, call: ServerCall)
    requires ServedInOrder(k.asked, k.served) && Covered(c, Todo(k))
    requires s.pc.ReadingMac? || s.pc.Storing? || s.pc.Ignoring?
    ensures var (s', k') := ServerStep(s, k, call);
      Covered(c, Todo(k')) && Behind(k', s'.pc, c, holds)
  {
    hide ServerStep;
    OnlyReads(s, k, call);
    TodoShrinks(k, ServerStep(s, k, call).1);
  }

  lemma TalkPeer(k: Link, pc: Pc, pc': Pc, s: Server, who: Option<Client>)
    requires Talk(k, pc, s.files, s.dirty, who) && !pc'.ReadingMac?
    ensures Peer(k, pc', s.files, s.dirty, who)
  {
  }

  lemma TakenLag(s: Server, k: Link, c: Client, holds: bool, n: nat)
    requires Covered(c, Todo(k))
    ensures n <= |k.up| ==> Covered(c, Todo(TakeUp(k, n)))
    ensures Covered(c, Todo(TakeUp(k, |k.up|)))
    ensures forall k: Link, pc: Pc | Loop(pc).None? :: Behind(k, pc, c, holds)
  {
    assert n <= |k.up| ==> Todo(TakeUp(k, n)) == Todo(k);
    assert Todo(TakeUp(k, |k.up|)) == Todo(k);
  }

  lemma HeaderLag(s: Server, k: Link, c: Client, holds: bool, clock: Bytes)
    requires s.pc.ReadingHeader? && Talk(k, s.pc, s.files, s.dirty, HolderOf(c, holds)) && Covered(c, Todo(k))
    ensures var (s', k') := ReadHeader(s, k, s.pc.mac, clock);
      Covered(c, Todo(k')) && Behind(k', s'.pc, c, holds)
  {
    hide Talk, Dispatch, Covered, Behind, SizeOf, OpOf, AtContent, Peer;
    if |k.up| >= HEADER_SIZE {
      HeaderTaken(k, s.files, s.dirty, HolderOf(c, holds), s.pc.mac);
      if SizeOf(k.up) == 0 {
        TalkPeer(TakeUp(k, HEADER_SIZE), ReadingBody(s.pc.mac, OpOf(k.up), 0), s.pc, s, HolderOf(c, holds));
        TakenLag(s, k, c, holds, HEADER_SIZE);
        DispatchLag(s, TakeUp(k, HEADER_SIZE), c, holds, s.pc.mac, OpOf(k.up), [], clock, [], 0);
      }
    }
    TakenLag(s, k, c, holds, HEADER_SIZE);
  }

  lemma BodyLag(s: Server, k: Link, c: Client, holds: bool, clock: Bytes, gap: Bytes, junk: nat)
    requires s.pc.ReadingBody? && Talk(k, s.pc, s.files, s.dirty, HolderOf(c, holds)) && Covered(c, Todo(k))
    ensures var (s', k') := ReadBody(s, k, s.pc.mac, s.pc.op, s.pc.size, clock, gap, junk);
      Covered(c, Todo(k')) && Behind(k', s'.pc, c, holds)
  {
    hide Talk, Dispatch, Covered, Behind, AtContent, Peer;
    TakenLag(s, k, c, holds, s.pc.size);
    if |k.up| >= s.pc.size {
      BodyTaken(k, s.files, s.dirty, HolderOf(c, holds), s.pc.mac, s.pc.op, s.pc.size);
      DispatchLag(s, TakeUp(k, s.pc.size), c, holds, s.pc.mac, s.pc.op, k.up[..s.pc.size], clock, gap, junk);
    }
  }

  lemma ServerLag(s: Server, k: Link, c: Client, holds: bool, call: ServerCall)
    requires Talk(k, s.pc, s.files, s.dirty, HolderOf(c, holds)) && StoreOk(s)
    requires Covered(c, Todo(k)) && Behind(k, s.pc, c, holds)
    ensures var (s', k') := ServerStep(s, k, call);
      Covered(c, Todo(k')) && Behind(k', s'.pc, c, holds)
  {
    hide Talk, Covered, Behind, SendReply, SendNextChunk, ReadHeader, ReadBody, ReadMac, Store, Ignore, Todo, StoreOk;
    var who := HolderOf(c, holds);
    match s.pc
    case Replying(_, _, _) => if call.Reply? { ReplyLag(s, k, c, holds, call.accepted, call.failure); }
    case Sending(_, _, _, _, _) => if call.SendChunk? { ChunkLag(s, k, c, holds, call.accepted); }
    case ReadingHeader(_) => if call.TakeHeader? { HeaderLag(s, k, c, holds, call.clock); }
    case ReadingBody(_, _, _) => if call.TakeBody? { BodyLag(s, k, c, holds, call.clock, call.gap, call.junk); }
    case _ =>
      OrderKept(k, s.pc, s.files, s.dirty, who);
      if s.pc.ReadingMac? || s.pc.Storing? || s.pc.Ignoring? { ReadLag(s, k, c, holds, call); }
  }

  // ---------------------------------------------------------------- whole runs

  predicate LinkLag(w: World, l: nat)
    requires l < |w.links|
  {
    var o := w.links[l].owner;
    && o < |w.clients|
    && Covered(w.clients[o], Todo(w.links[l]))
    && Behind(w.links[l], View(w, l), w.clients[o], w.clients[o].link == Some(l))
  }

  /** It holds of the connection in session and of those waiting to be accepted. */
  ghost predicate LagInv(w: World) {
    forall l | 0 <= l < |w.links| && w.accepted <= l + 1 :: LinkLag(w, l)
  }

  lemma UnacceptedIsNotReceiving(k: Link, files: Files, dirty: set<Name>, c: Client)
    requires Talk(k, ReadingMac, files, dirty, Some(c))
    ensures !c.task.Receiving?
  {
  }

  /** A client that reads a file is on the newest of its connections, and that one is in session or over. */
  lemma OnNewest(w: World, c: nat, l: nat)
    requires Inv(w) && c < |w.clients| && l < |w.links| && w.links[l].owner == c && w.accepted <= l + 1
    requires w.clients[c].link.Some? && w.clients[c].link != Some(l)
    ensures w.clients[c].link.value < |w.links| && !w.clients[c].task.Receiving?
  {
    hide Talk, DiskOk;
    assert HostFits(w, c);
    var h := w.clients[c].link.value;
    assert LinkFits(w, h);
    UnacceptedIsNotReceiving(w.links[h], w.server.files, w.server.dirty, w.clients[c]);
  }

  lemma OtherLinkLag(c: Client, h: Link, call: ClientCall, k: Link, pc: Pc)
    requires !c.task.Receiving? && Covered(c, Todo(k)) && Behind(k, pc, c, false)
    ensures var c' := ClientStep(c, h, call).0;
      Covered(c', Todo(k)) && Behind(k, pc, c', false)
  {
    hide ClientStep, LocalSize;
    forall name ensures LocalSize(ClientStep(c, h, call).0, name) <= LocalSize(c, name) {
      OnlyReceivingGrows(c, h, call, name);
    }
  }

  lemma ActLag(w: World, c: nat, call: ClientCall)
    requires Inv(w) && LagInv(w)
    ensures LagInv(Step(w, Act(c, call)))
  {
    hide Talk, DiskOk, ClientStep, Covered, Behind, Todo;
    if c < |w.clients| && w.clients[c].link.Some? {
      assert HostFits(w, c);
      var h := w.clients[c].link.value;
      var w' := Step(w, Act(c, call));
      assert LinkFits(w, h);
      ClientFrame(w.clients[c], w.links[h], call);
      forall l | 0 <= l < |w'.links| && w'.accepted <= l + 1 ensures LinkLag(w', l) {
        assert LinkLag(w, l);
        if l == h {
          ClientLag(w.clients[c], w.links[h], View(w, h), w.server.files, w.server.dirty, call);
        } else if w.links[l].owner == c {
          OnNewest(w, c, l);
          OtherLinkLag(w.clients[c], w.links[h], call, w.links[l], View(w, l));
        }
      }
    }
  }

  lemma ServeLag(w: World, call: ServerCall)
    requires Inv(w) && LagInv(w)
    ensures LagInv(Step(w, Serve(call)))
  {
    hide Talk, DiskOk, ServerStep, Covered, Behind, Todo;
    if 0 < w.accepted {
      var l := w.accepted - 1;
      var w' := Step(w, Serve(call));
      assert LinkFits(w, l) && LinkLag(w, l);
      ServerFrame(w.server, w.links[l], call);
      var o := w.links[l].owner;
      ServerLag(w.server, w.links[l], w.clients[o], w.clients[o].link == Some(l), call);
      forall i | 0 <= i < |w'.links| && w'.accepted <= i + 1 ensures LinkLag(w', i) {
        assert LinkLag(w, i);
      }
    }
  }

  lemma CutLag(w: World, l: nat, up: nat, down: nat)
    requires LagInv(w)
    ensures LagInv(Step(w, Cut(l, up, down)))
  {
    var w' := Step(w, Cut(l, up, down));
    forall i | 0 <= i < |w'.links| && w'.accepted <= i + 1 ensures LinkLag(w', i) {
      assert LinkLag(w, i);
      assert Todo(w'.links[i]) == Todo(w.links[i]);
    }
  }

  /** A copy that has lost its end, and a connection that is closed. */
  lemma LeftLag(k: Link, pc: Pc, c: Client, holds: bool, c': Client)
    requires Covered(c, Todo(k)) && Behind(k, pc, c, holds)
    requires forall name :: LocalSize(c', name) <= LocalSize(c, name)
    ensures forall cut :: Covered(c', Todo(k.(cut := cut))) && Behind(k.(cut := cut), pc, c', false)
  {
    hide LocalSize;
    assert forall cut :: Todo(k.(cut := cut)) == Todo(k);
  }

  lemma FlushedShorter(c: Client, kept: nat, task: Task, link: Option<nat>, name: Name)
    ensures LocalSize(c.(disk := Flushed(c, kept), task := task, link := link), name) <= LocalSize(c, name)
  {
  }

  lemma KillLag(w: World, c: nat, kept: nat)
    requires Inv(w) && LagInv(w)
    ensures LagInv(Step(w, Kill(c, kept)))
  {
    hide Talk, DiskOk, Covered, Behind, Todo, LocalSize, Flushed;
    if c < |w.clients| {
      var w' := Step(w, Kill(c, kept));
      assert HostFits(w, c);
      forall name ensures LocalSize(w'.clients[c], name) <= LocalSize(w.clients[c], name) {
        FlushedShorter(w.clients[c], kept, Idle(Nothing), None, name);
      }
      forall l | 0 <= l < |w'.links| && w'.accepted <= l + 1 ensures LinkLag(w', l) {
        assert LinkLag(w, l);
        if w.links[l].owner == c {
          LeftLag(w.links[l], View(w, l), w.clients[c], w.clients[c].link == Some(l), w'.clients[c]);
          assert w'.links[l] == w.links[l].(cut := w'.links[l].cut);
        }
      }
    }
  }

  lemma SameDisk(c: Client, c': Client)
    requires c.disk == c'.disk
    ensures forall name :: LocalSize(c', name) <= LocalSize(c, name)
  {
  }

  lemma NewLag(c: nat, client: Client)
    ensures Covered(client, Todo(NewLink(c, client.mac))) && Behind(NewLink(c, client.mac), ReadingMac, client, true)
  {
  }

  lemma ConnectLag(w: World, c: nat)
    requires Inv(w) && LagInv(w)
    ensures LagInv(Step(w, Connect(c)))
  {
    hide Talk, DiskOk, Covered, Behind, Todo;
    if c < |w.clients| && w.clients[c].task.Idle? {
      var w' := Step(w, Connect(c));
      assert HostFits(w, c);
      NewLag(c, w'.clients[c]);
      forall l | 0 <= l < |w'.links| && w'.accepted <= l + 1 ensures LinkLag(w', l) {
        if l < |w.links| {
          assert LinkLag(w, l);
          if w.links[l].owner == c {
            SameDisk(w.clients[c], w'.clients[c]);
            LeftLag(w.links[l], View(w, l), w.clients[c], w.clients[c].link == Some(l), w'.clients[c]);
            assert w'.links[l] == w.links[l].(cut := w'.links[l].cut);
          }
        }
      }
    }
  }

  lemma ListenLag(w: World)
    requires LagInv(w)
    ensures LagInv(Step(w, Listen))
  {
    hide Covered, Behind;
    var w' := Step(w, Listen);
    forall l | 0 <= l < |w'.links| && w'.accepted <= l + 1 ensures LinkLag(w', l) {
      assert LinkLag(w, l);
    }
  }

  lemma StepLag(w: World, a: Action)
    requires Inv(w) && LagInv(w)
    ensures LagInv(Step(w, a))
  {
    hide Inv, LagInv, Step;
    match a
    case Connect(c) => ConnectLag(w, c);
    case Kill(c, kept) => KillLag(w, c, kept);
    case Cut(l, up, down) => CutLag(w, l, up, down);
    case Listen => ListenLag(w);
    case Serve(call) => ServeLag(w, call);
    case Act(c, call) => ActLag(w, c, call);
  }

  lemma {:induction false} RunLag(w: World, actions: seq<Action>)
    requires Inv(w) && LagInv(w)
    ensures Inv(Run(w, actions)) && LagInv(Run(w, actions))
    decreases |actions|
  {
    if actions != [] {
      hide Inv, LagInv, Step;
      StepKeeps(w, actions[0]);
      StepLag(w, actions[0]);
      RunLag(Step(w, actions[0]), actions[1..]);
    }
  }

  /** The copy of the client whose connection the server is in. */
  function SessionCopy(w: World, name: Name): nat {
    if 0 < w.accepted <= |w.links| && w.links[w.accepted - 1].owner < |w.clients|
    then LocalSize(w.clients[w.links[w.accepted - 1].owner], name)
    else 0
  }

  lemma StepCovers(w: World, call: ServerCall, mac: Mac)
    requires LagInv(w) && 0 < w.accepted <= |w.links|
    requires mac !in w.server.stamps && mac in Step(w, Serve(call)).server.stamps
    ensures var w' := Step(w, Serve(call));
      && 0 < w'.accepted <= |w'.links| && w'.links[w'.accepted - 1].owner < |w'.clients|
      && SessionCopy(w', w'.server.stamps[mac].path) <= w'.server.stamps[mac].position
  {
    hide Covered;
    var l := w.accepted - 1;
    assert LinkLag(w, l);
    OnlySendingStamps(w.server, w.links[l], call, mac);
    ServerFrame(w.server, w.links[l], call);
    hide ServerStep;
  }

  /** In every run, a stamp's position is at least the length of the copy its owner has at that moment. */
  lemma StampCoversCopy(w: World, actions: seq<Action>, call: ServerCall, mac: Mac)
    requires Initial(w)
    requires var w' := Run(w, actions);
      mac !in w'.server.stamps && mac in Step(w', Serve(call)).server.stamps
    ensures var w' := Step(Run(w, actions), Serve(call));
      && 0 < w'.accepted <= |w'.links|
      && var stamp, owner := w'.server.stamps[mac], w'.links[w'.accepted - 1].owner;
         owner < |w'.clients| && (stamp.path in w'.clients[owner].disk ==>
            |w'.clients[owner].disk[stamp.path]| <= stamp.position)
  {
    hide LinkLag, LinkFits, HostFits, ServerStep;
    InitialFits(w);
    RunLag(w, actions);
    StepCovers(Run(w, actions), call, mac);
  }
}
