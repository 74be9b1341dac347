/** Why a resumed download makes the file whole, whoever uploads what meanwhile and whatever breaks. */
module Recovery {
  import opened Bytes
  import opened Messages
  import opened Exchange
  import opened Machine
  import opened Conversation
  import opened ServerCalls
  import opened World
  import opened Stamps
  import opened Resume
  import opened Progress
  import Deliveries
  import Lag
  import opened Wrappers

  // ---------------------------------------------------------------- one copy

  /** The client's copy is a first part of the hosted file, and what the client waits for belongs to that file. */
  predicate Secure(w: World, c: nat, name: Name)
    requires c < |w.clients|
  {
    && CopyOf(w.clients[c], name) <= Hosted(w.server.files, name)
    && (w.clients[c].link.Some? && w.clients[c].link.value < |w.links| ==>
          ClientFits(w.clients[c], w.links[w.clients[c].link.value], w.server.files, Others(w.server, name)))
  }

  /** The client without what it has said last. */
  function Silent(c: Client): Client {
    if c.task.Idle? then c.(task := Idle(Nothing)) else c
  }

  lemma SilentFits(c: Client, k: Link, files: Files, dirty: set<Name>, name: Name)
    requires ClientFits(c, k, files, dirty - {name}) && DiskOk(c, files, dirty)
    requires CopyOf(c, name) <= Hosted(files, name)
    ensures ClientFits(Silent(c), k, files, dirty - {name}) && DiskOk(Silent(c), files, dirty - {name})
    ensures Outgoing(Some(Silent(c))) == Outgoing(Some(c))
  {
    hide Settled, GreetingOk, Prepared, Owed, Encode, StampBody, Hosted;
  }

  lemma SilentSteps(c: Client, k: Link, call: ClientCall)
    ensures ClientStep(c, k, call) == ClientStep(Silent(c), k, call)
      || (c.task.Idle? && ClientStep(c, k, call) == (c, k))
  {
    hide Encode, WellFormed;
  }

  /** No call of the client makes its copy anything else; and if the call ends the download, the copy is the file. */
  lemma ClientSecure(c: Client, k: Link, pc: Pc, files: Files, dirty: set<Name>, name: Name, call: ClientCall)
    requires Sound((c, k), pc, files, dirty)
    requires ClientFits(c, k, files, dirty - {name}) && CopyOf(c, name) <= Hosted(files, name)
    ensures var (c', k') := ClientStep(c, k, call);
      && ClientFits(c', k', files, dirty - {name}) && CopyOf(c', name) <= Hosted(files, name)
      && (!c.task.Idle? && c'.task == Idle(Loaded(name)) ==>
            name in c'.disk && c'.disk[name] == Hosted(files, name))
  {
    hide ClientFits, Wire, ClientStep, Hosted;
    SilentFits(c, k, files, dirty, name);
    ClientKeeps(Silent(c), k, pc, files, dirty - {name}, call);
    SilentSteps(c, k, call);
  }

  lemma ActSecure(w: World, c: nat, d: nat, call: ClientCall, name: Name)
    requires Inv(w) && c < |w.clients| && Secure(w, c, name)
    ensures Secure(Step(w, Act(d, call)), c, name)
  {
    hide Talk, DiskOk, ClientFits, ClientStep, Hosted, CopyOf;
    if d < |w.clients| && w.clients[d].link.Some? {
      assert HostFits(w, d) && HostFits(w, c);
      var l := w.clients[d].link.value;
      ClientFrame(w.clients[d], w.links[l], call);
      if d == c {
        assert LinkFits(w, l) && Holder(w, l) == Some(w.clients[c]);
        ClientSecure(w.clients[c], w.links[l], View(w, l), w.server.files, w.server.dirty, name, call);
      }
    }
  }

  lemma FlushedSecure(c: Client, kept: nat, files: Files, name: Name)
    requires CopyOf(c, name) <= Hosted(files, name)
    ensures CopyOf(c.(disk := Flushed(c, kept), task := Idle(Nothing), link := None), name) <= Hosted(files, name)
  {
    hide Hosted;
  }

  lemma SameCopy(c: Client, c': Client, name: Name)
    requires c'.disk == c.disk
    ensures CopyOf(c', name) == CopyOf(c, name)
  {
  }

  lemma SecureTalk(w: World, c: nat, name: Name)
    requires Inv(w) && c < |w.clients| && Secure(w, c, name) && w.clients[c].link.Some?
    ensures var l := w.clients[c].link.value;
      && l < |w.links| && w.links[l].owner == c && Holder(w, l) == Some(w.clients[c])
      && Talk(w.links[l], View(w, l), w.server.files, Others(w.server, name), Some(w.clients[c]))
  {
    hide ClientFits, DiskOk, Wire, Others, Hosted, CopyOf;
    assert HostFits(w, c);
    assert LinkFits(w, w.clients[c].link.value);
  }

  lemma OtherSecure(w: World, c: nat, a: Action, name: Name)
    requires Inv(w) && c < |w.clients| && Secure(w, c, name) && !a.Serve? && !a.Act?
    ensures c < |Step(w, a).clients| && Secure(Step(w, a), c, name)
  {
    hide Wire, Settled, GreetingOk, Owed, Hosted, CopyOf;
    var w', others := Step(w, a), Others(w.server, name);
    if w.clients[c].link.Some? {
      SecureTalk(w, c, name);
    }
    match a
    case Connect(d) =>
      SameCopy(w.clients[c], w'.clients[c], name);
      if d == c && w.clients[c].task.Idle? {
        NewTalk(c, w'.clients[c], w.server.files, others);
      } else if d < |w.clients| && w.clients[d].link.Some? {
        assert HostFits(w, d);
      }
    case Kill(d, kept) =>
      if d == c {
        FlushedSecure(w.clients[c], kept, w.server.files, name);
      } else if d < |w.clients| && w.clients[d].link.Some? {
        assert HostFits(w, d);
      }
    case Cut(l, up, down) =>
      if w.clients[c].link == Some(l) {
        CutTalk(w.links[l], View(w, l), w.server.files, others, Some(w.clients[c]), up, down);
      }
    case _ =>
  }

  /** A call of the server that touches no file and belongs to no upload. */
  predicate FilesKept(s: Server, s': Server) {
    s'.files == s.files && s'.dirty == s.dirty && !s.pc.Storing? && !s.pc.Ignoring? && !s'.pc.Storing?
  }

  lemma DispatchSame(s: Server, k: Link, mac: Mac, op: Byte, body: Bytes,
                     clock: Bytes, gap: Bytes, junk: nat, name: Name)
    requires FilesKept(s.(pc := Accepting), Dispatch(s, k, mac, op, body, clock, gap, junk).0)
    ensures var t := s.(dirty := Others(s, name)); Spares(name, t, Dispatch(t, k, mac, op, body, clock, gap, junk).0)
  {
    hide Decode, Response, Hosted, Written, DownloadStatus, Accepted, Tail, Remaining, Find;
  }

  lemma StepSame(s: Server, k: Link, call: ServerCall, name: Name)
    requires FilesKept(s, ServerStep(s, k, call).0)
    ensures var t := s.(dirty := Others(s, name)); Spares(name, t, ServerStep(t, k, call).0)
  {
    hide Dispatch, Hosted, Written, OpOf, SizeOf, Greeting, Received;
    match (s.pc, call)
    case (ReadingBody(mac, op, size), TakeBody(clock, gap, junk)) =>
      if |k.up| >= size {
        DispatchSame(s, TakeUp(k, size), mac, op, k.up[..size], clock, gap, junk, name);
      }
    case (ReadingHeader(mac), TakeHeader(clock)) =>
      if |k.up| >= HEADER_SIZE && SizeOf(k.up) == 0 {
        DispatchSame(s, TakeUp(k, HEADER_SIZE), mac, OpOf(k.up), [], clock, [], 0, name);
      }
    case _ =>
  }

  /** A call of the server on the client's own connection. */
  lemma ServedSecure(s: Server, k: Link, c: Client, call: ServerCall, name: Name)
    requires Talk(k, s.pc, s.files, Others(s, name), Some(c)) && StoreOk(s) && FilesKept(s, ServerStep(s, k, call).0)
    ensures var (s', k') := ServerStep(s, k, call); ClientFits(c, k', s'.files, Others(s', name))
  {
    hide Talk, ServerStep;
    var t := s.(dirty := Others(s, name));
    StepSame(s, k, call, name);
    ServerKeeps(t, k, Some(c), call);
    MarksDoNotMatter(s, k, call, name);
    PeerFits(ServerStep(t, k, call).1, ServerStep(t, k, call).0, c);
  }

  lemma ServeSecure(w: World, c: nat, call: ServerCall, name: Name)
    requires Inv(w) && c < |w.clients| && Secure(w, c, name) && FilesKept(w.server, Step(w, Serve(call)).server)
    ensures Secure(Step(w, Serve(call)), c, name)
  {
    hide Talk, DiskOk, ClientFits, ServerStep, Hosted, CopyOf;
    if 0 < w.accepted {
      var l := w.accepted - 1;
      if w.clients[c].link == Some(l) {
        SecureTalk(w, c, name);
        ServedSecure(w.server, w.links[l], w.clients[c], call, name);
      }
    }
  }

  // ---------------------------------------------------------------- one session

  predicate Flat(name: Name) {
    SLASH !in name
  }

  /** Only the first request of a connection goes on with a copy, and it is for the name that was offered. */
  predicate ResumesFirst(k: Link) {
    forall i | 0 <= i < |k.asked| && k.asked[i].Download? && k.asked[i].position > 0 ::
      i == 0 && k.offer.Some? && k.asked[i].name == FileName(k.offer.value.path)
  }

  /** All names are bare file names, and an offer fits its packet. */
  predicate FlatLink(k: Link) {
    && (forall r | r in k.asked && r.Download? :: Flat(r.name))
    && (k.offer.Some? ==> Flat(k.offer.value.path) && StampOk(k.offer.value))
  }

  /** What a session may leave a stamp for, or has offered: the download served last, or the offer if nothing has been
      served yet. While an upload is going on it is nothing. */
  function Concern(k: Link, pc: Pc): Option<Name> {
    if pc.Storing? || pc.Ignoring? then None
    else if k.served == [] then (if k.offer.Some? then Some(k.offer.value.path) else None)
    else if Last(k.served).Download? then Some(Last(k.served).name)
    else None
  }

  /** A session whose identifier did not arrive whole: nothing can be read any more. */
  predicate Garbled(k: Link, pc: Pc) {
    k.cut && k.up == [] && k.served == [] && (pc.ReadingHeader? || (pc.Replying? && pc.next.ReadingHeader?))
  }

  /** The download a session serves next. */
  predicate ServesDownload(k: Link, k': Link) {
    |k.served| < |k.asked| && k'.served == k.served + [Todo(k)[0]] && Todo(k)[0].Download?
  }

  /** Where a call of the server leaves a session: with the same concern and the same files, or at its end, or with
      another download. */
  predicate Turned(s: Server, k: Link, p: (Server, Link)) {
    var (s', k') := p;
    && k'.offer == k.offer && s'.stamps == s.stamps
    && (Over(s'.pc) || SessionMac(s'.pc) == SessionMac(s.pc))
    && (!Over(s'.pc) && Concern(k', s'.pc).Some? ==>
          && FilesKept(s, s')
          && ((k'.served == k.served && Concern(k, s.pc) == Concern(k', s'.pc)) || ServesDownload(k, k')))
  }

  lemma DispatchTurns(s: Server, k: Link, outgoing: Bytes, mac: Mac, op: Byte, body: Bytes,
                      clock: Bytes, gap: Bytes, junk: nat)
    requires AtContent(k, op, body, outgoing) && SessionMac(s.pc) == Some(mac) && !s.pc.Storing? && !s.pc.Ignoring?
    ensures Turned(s, k, Dispatch(s, k, mac, op, body, clock, gap, junk))
  {
    hide Decode, Response, Hosted, Written, DownloadStatus, Accepted, Tail, Remaining, OpCode, Body, AtContent;
    PacketDecoded(k, op, body, outgoing);
  }

  lemma ReadTurns(s: Server, k: Link, who: Option<Client>, call: ServerCall)
    requires s.pc.ReadingHeader? || s.pc.ReadingBody?
    requires Talk(k, s.pc, s.files, s.dirty, who)
    ensures Turned(s, k, ServerStep(s, k, call))
  {
    hide Talk, Dispatch, AtContent, OpOf, SizeOf;
    match (s.pc, call)
    case (ReadingBody(mac, op, size), TakeBody(clock, gap, junk)) =>
      if |k.up| >= size {
        BodyTaken(k, s.files, s.dirty, who, mac, op, size);
        TodoTaken(k, size);
        DispatchTurns(s, TakeUp(k, size), Outgoing(who), mac, op, k.up[..size], clock, gap, junk);
      }
    case (ReadingHeader(mac), TakeHeader(clock)) =>
      if |k.up| >= HEADER_SIZE && SizeOf(k.up) == 0 {
        HeaderTaken(k, s.files, s.dirty, who, mac);
        TodoTaken(k, HEADER_SIZE);
        DispatchTurns(s, TakeUp(k, HEADER_SIZE), Outgoing(who), mac, OpOf(k.up), [], clock, [], 0);
      }
    case _ =>
  }

  lemma SendTurns(s: Server, k: Link, call: ServerCall)
    requires s.pc.Replying? || s.pc.Sending?
    requires s.pc.Replying? ==> (s.pc.next.ReadingHeader? || s.pc.next.Sending?) && s.pc.next.mac == s.pc.mac
    requires !(s.pc.Sending? && k.cut && call == SendChunk(false))
    ensures Turned(s, k, ServerStep(s, k, call))
  {
    hide Hosted, Dispatch;
  }

  lemma UploadTurns(s: Server, k: Link, call: ServerCall)
    requires s.pc.Storing? || s.pc.Ignoring?
    ensures Turned(s, k, ServerStep(s, k, call))
  {
    hide Hosted, Written, Received, Dispatch;
  }

  lemma SamePlace(s: Server)
    requires StampInv(s)
    ensures s.pc.Replying? ==> (s.pc.next.ReadingHeader? || s.pc.next.Sending?) && s.pc.next.mac == s.pc.mac
    ensures SessionMac(s.pc).Some? ==> s.stamps == map[]
  {
    hide Orderly;
  }

  /** What any call of the server makes of the session it is in. */
  lemma SessionTurns(s: Server, k: Link, who: Option<Client>, call: ServerCall)
    requires SessionMac(s.pc).Some? && StampInv(s) && Talk(k, s.pc, s.files, s.dirty, who)
    requires !(s.pc.Sending? && k.cut && call == SendChunk(false))
    ensures Turned(s, k, ServerStep(s, k, call))
  {
    hide Talk, ServerStep, StampInv, Turned;
    SamePlace(s);
    if s.pc.ReadingHeader? || s.pc.ReadingBody? {
      ReadTurns(s, k, who, call);
    } else if s.pc.Replying? || s.pc.Sending? {
      SendTurns(s, k, call);
    } else {
      UploadTurns(s, k, call);
    }
  }

  /** A call of the client asks for nothing but what it is told to, and to go on with what it has been offered. */
  lemma ClientAsks(c: Client, k: Link, call: ClientCall, files: Files, dirty: set<Name>)
    requires ClientFits(c, k, files, dirty) && ResumesFirst(k) && FlatLink(k)
    requires call.Ask? && call.request.Download? && call.request.position == 0 ==> Flat(call.request.name)
    ensures var k' := ClientStep(c, k, call).1;
      && ResumesFirst(k') && FlatLink(k') && k'.served == k.served && k'.offer == k.offer && (k.cut ==> k'.up == k.up)
  {
    hide Encode, Settled, Owed, GreetingOk, StampBody, OpOf, SizeOf, HasNumberAndName, NameOf, StatusOf, TotalOf;
  }

  // ---------------------------------------------------------------- whole runs

  /** Every client has an identifier of its own. */
  predicate Distinct(w: World) {
    forall i, j | 0 <= i < j < |w.clients| :: w.clients[i].mac != w.clients[j].mac
  }

  predicate LinkNamed(w: World, l: nat)
    requires l < |w.links|
  {
    var k := w.links[l];
    k.owner < |w.clients| && k.mac == w.clients[k.owner].mac && ResumesFirst(k) && FlatLink(k)
  }

  /** The hosted file can be read, and its copy at the client is a first part of it. */
  predicate Resumable(w: World, c: nat, name: Name)
    requires c < |w.clients|
  {
    DownloadStatus(w.server.files, name).Ready? && Secure(w, c, name)
  }

  predicate StampSecure(w: World, mac: Mac)
    requires mac in w.server.stamps
  {
    var name := w.server.stamps[mac].path;
    && Flat(name)
    && forall c | 0 <= c < |w.clients| && w.clients[c].mac == mac :: Resumable(w, c, name)
  }

  predicate SessionSecure(w: World) {
    0 < w.accepted <= |w.links| && SessionMac(w.server.pc).Some? ==>
      var k := w.links[w.accepted - 1];
      if SessionMac(w.server.pc).value != k.mac then Garbled(k, w.server.pc)
      else
        match Concern(k, w.server.pc)
        case Some(name) =>
          && k.owner < |w.clients| && Secure(w, k.owner, name)
          && (k.served == [] ==> Resumable(w, k.owner, name))
        case None => true
  }

  ghost predicate RecoveryInv(w: World) {
    && Distinct(w)
    && StampInv(w.server)
    && (forall l | 0 <= l < |w.links| :: LinkNamed(w, l))
    && (forall mac | mac in w.server.stamps :: StampSecure(w, mac))
    && SessionSecure(w)
  }

  /** What the run tells its clients to download are bare file names. */
  predicate FlatDownloads(actions: seq<Action>) {
    forall a | a in actions && a.Act? && a.clientCall.Ask?
      && a.clientCall.request.Download? && a.clientCall.request.position == 0 ::
      Flat(a.clientCall.request.name)
  }

  lemma ActRecovers(w: World, c: nat, call: ClientCall)
    requires Inv(w) && RecoveryInv(w) && FlatDownloads([Act(c, call)])
    ensures RecoveryInv(Step(w, Act(c, call)))
  {
    hide Talk, DiskOk, ClientFits, ClientStep, Secure, StampInv, ResumesFirst, FlatLink, DownloadStatus;
    if c < |w.clients| && w.clients[c].link.Some? {
      assert HostFits(w, c);
      var l, w' := w.clients[c].link.value, Step(w, Act(c, call));
      ClientFrame(w.clients[c], w.links[l], call);
      assert LinkFits(w, l) && LinkNamed(w, l) && Holder(w, l) == Some(w.clients[c]);
      assert Act(c, call) in [Act(c, call)];
      TalkFits((w.clients[c], w.links[l]), View(w, l), w.server.files, w.server.dirty);
      ClientAsks(w.clients[c], w.links[l], call, w.server.files, w.server.dirty);
      forall i | 0 <= i < |w'.links| ensures LinkNamed(w', i) {
        assert LinkNamed(w, i);
      }
      forall mac | mac in w'.server.stamps ensures StampSecure(w', mac) {
        assert StampSecure(w, mac);
        forall d | 0 <= d < |w'.clients| && w'.clients[d].mac == mac
          ensures Secure(w', d, w'.server.stamps[mac].path)
        {
          assert Resumable(w, d, w.server.stamps[mac].path);
          ActSecure(w, d, c, call, w.server.stamps[mac].path);
        }
      }
      if 0 < w.accepted {
        var k := w.links[w.accepted - 1];
        if SessionMac(w.server.pc) == Some(k.mac) && Concern(k, w.server.pc).Some? {
          ActSecure(w, k.owner, c, call, Concern(k, w.server.pc).value);
        }
      }
    }
  }

  /** What breaks, leaves or joins loses bytes and nothing else. */
  predicate Same(w: World, w': World, l: nat)
    requires l < |w.links|
  {
    && l < |w'.links|
    && var (k, k') := (w.links[l], w'.links[l]);
    && k'.owner == k.owner && k'.mac == k.mac && k'.asked == k.asked && k'.served == k.served && k'.offer == k.offer
    && (k.cut ==> k'.cut) && (k.up == [] ==> k'.up == [])
  }

  lemma OtherSame(w: World, a: Action)
    requires !a.Serve? && !a.Act?
    ensures var w' := Step(w, a);
      && |w'.clients| == |w.clients| && (forall c | 0 <= c < |w.clients| :: w'.clients[c].mac == w.clients[c].mac)
      && |w.links| <= |w'.links| && (forall l | 0 <= l < |w.links| :: Same(w, w', l))
      && (forall l | |w.links| <= l < |w'.links| :: LinkNamed(w', l))
      && w'.server == w.server.(pc := w'.server.pc)
      && (if w'.server == w.server then w'.accepted == w.accepted else w'.server.pc.ReadingMac?)
  {
    hide Flushed;
  }

  lemma NamedSame(w: World, w': World, l: nat)
    requires l < |w.links| && LinkNamed(w, l) && Same(w, w', l) && |w'.clients| == |w.clients|
    requires forall c | 0 <= c < |w.clients| :: w'.clients[c].mac == w.clients[c].mac
    ensures LinkNamed(w', l)
  {
  }

  lemma AcceptedFirst(w: World)
    requires Inv(w)
    ensures w.accepted <= |w.links|
  {
  }

  lemma OtherRecovers(w: World, a: Action)
    requires Inv(w) && RecoveryInv(w) && !a.Serve? && !a.Act?
    ensures RecoveryInv(Step(w, a))
  {
    hide Inv, Step, Secure, DownloadStatus, Orderly, LinkNamed;
    var w' := Step(w, a);
    OtherSame(w, a);
    assert w.accepted <= |w.links| by { AcceptedFirst(w); }
    forall i | 0 <= i < |w.links| ensures LinkNamed(w', i) {
      NamedSame(w, w', i);
    }
    forall mac | mac in w'.server.stamps ensures StampSecure(w', mac) {
      assert StampSecure(w, mac);
      forall d | 0 <= d < |w'.clients| && w'.clients[d].mac == mac
        ensures Secure(w', d, w'.server.stamps[mac].path)
      {
        assert Resumable(w, d, w.server.stamps[mac].path);
        OtherSecure(w, d, a, w.server.stamps[mac].path);
      }
    }
    if 0 < w.accepted && w'.server == w.server {
      var k := w.links[w.accepted - 1];
      assert Same(w, w', w.accepted - 1);
      if SessionMac(w.server.pc) == Some(k.mac) && Concern(k, w.server.pc).Some? {
        OtherSecure(w, k.owner, a, Concern(k, w.server.pc).value);
      }
    }
  }

  lemma GreetsRight(k: Link, files: Files, dirty: set<Name>, who: Option<Client>)
    requires Talk(k, ReadingMac, files, dirty, who)
    ensures |k.up| >= MAC_SIZE ==> k.up[..MAC_SIZE] == k.mac
    ensures k.offer.None? && k.served == []
  {
    hide EncodeAll;
  }

  /** A greeting that is not for the connection's own client goes out on a connection that is broken. */
  lemma GreetTurns(s: Server, k: Link, who: Option<Client>, call: ServerCall)
    requires s.pc.ReadingMac? && Talk(k, s.pc, s.files, s.dirty, who)
    ensures var (s', k') := ServerStep(s, k, call);
      && FilesKept(s, s') && k'.served == [] && k'.asked == k.asked
      && s'.stamps.Keys <= s.stamps.Keys && (forall mac | mac in s'.stamps :: s'.stamps[mac] == s.stamps[mac])
      && (k'.offer.Some? ==> exists mac :: mac in s.stamps && s.stamps[mac] == k'.offer.value)
      && (SessionMac(s'.pc).Some? ==>
            var mac := SessionMac(s'.pc).value;
            && (k'.offer.Some? ==> mac in s.stamps && k'.offer.value == s.stamps[mac])
            && s'.pc.Replying? && (mac != k.mac ==> Garbled(k', s'.pc)))
  {
    hide Talk, Greeting;
    GreetsRight(k, s.files, s.dirty, who);
  }

  lemma NamedByGreeting(k: Link, k': Link)
    requires ResumesFirst(k) && FlatLink(k) && k.offer.None? && k'.asked == k.asked
    requires k'.offer.Some? ==> Flat(k'.offer.value.path) && StampOk(k'.offer.value)
    ensures ResumesFirst(k') && FlatLink(k')
  {
  }

  lemma StampsFit(w: World)
    requires Inv(w)
    ensures StampsOk(w.server.stamps)
  {
  }

  lemma GreetRecovers(w: World, call: ServerCall)
    requires Inv(w) && RecoveryInv(w) && 0 < w.accepted && w.server.pc.ReadingMac?
    ensures RecoveryInv(Step(w, Serve(call)))
  {
    hide Inv, Talk, ServerStep, Secure, DownloadStatus, StampInv, ResumesFirst, FlatLink;
    var l, w' := w.accepted - 1, Step(w, Serve(call));
    AcceptedFirst(w);
    LinkInOrder(w, l);
    var k := w.links[l];
    GreetsRight(k, w.server.files, w.server.dirty, Holder(w, l));
    GreetTurns(w.server, k, Holder(w, l), call);
    StampsFit(w);
    ServerStamps(w.server, k, call);
    ServerFrame(w.server, k, call);
    forall mac | mac in w.server.stamps
      ensures forall c | 0 <= c < |w'.clients| && w'.clients[c].mac == mac ::
        Resumable(w', c, w.server.stamps[mac].path)
    {
      assert StampSecure(w, mac);
      forall c | 0 <= c < |w'.clients| && w'.clients[c].mac == mac
        ensures Resumable(w', c, w.server.stamps[mac].path)
      {
        assert Resumable(w, c, w.server.stamps[mac].path);
        ServeSecure(w, c, call, w.server.stamps[mac].path);
      }
    }
    forall i | 0 <= i < |w'.links| ensures LinkNamed(w', i) {
      assert LinkNamed(w, i);
      if i == l {
        NamedByGreeting(k, w'.links[l]);
      }
    }
    if SessionMac(w'.server.pc) == Some(k.mac) && w'.links[l].offer.Some? {
      assert LinkNamed(w, l);
      assert Resumable(w', k.owner, w.server.stamps[k.mac].path);
    }
  }

  lemma GarbledTurns(s: Server, k: Link, call: ServerCall)
    requires Garbled(k, s.pc) && StampInv(s)
    ensures var (s', k') := ServerStep(s, k, call);
      && k'.offer == k.offer && s'.stamps == map[]
      && (Over(s'.pc) || (Garbled(k', s'.pc) && SessionMac(s'.pc) == SessionMac(s.pc)))
  {
    hide Orderly;
  }

  /** Whoever has a request still to be served is not reading the reply to it. */
  lemma NotReading(k: Link, pc: Pc, files: Files, dirty: set<Name>, c: Client, name: Name)
    requires Talk(k, pc, files, dirty, Some(c)) && (pc.ReadingMac? || |k.served| < |k.asked|)
    ensures ClientFits(c, k, files, dirty - {name})
  {
    FitsUnmarked(c, k, files, dirty, name);
  }

  /** A download that starts inside the copy goes on with what has been offered; any other starts with an empty one. */
  lemma NextSecure(w: World)
    requires Inv(w) && Lag.LagInv(w) && RecoveryInv(w) && 0 < w.accepted
    requires SessionMac(w.server.pc) == Some(w.links[w.accepted - 1].mac)
    requires !w.server.pc.Storing? && !w.server.pc.Ignoring?
    requires var k := w.links[w.accepted - 1]; |k.served| < |k.asked| && Todo(k)[0].Download?
    ensures var k := w.links[w.accepted - 1]; k.owner < |w.clients| && Secure(w, k.owner, Todo(k)[0].name)
  {
    hide Talk, DiskOk, StampInv, ClientFits, Hosted;
    var l := w.accepted - 1;
    var k := w.links[l];
    assert LinkNamed(w, l) && Lag.LinkLag(w, l);
    var c, r := w.clients[k.owner], Todo(k)[0];
    assert HostFits(w, k.owner);
    assert r in Todo(k) && r == k.asked[|k.served|];
    if r.position == 0 {
      assert CopyOf(c, r.name) == [];
    }
    if c.link.Some? {
      var h := c.link.value;
      assert LinkFits(w, h) && Holder(w, h) == Some(c);
      NotReading(w.links[h], View(w, h), w.server.files, w.server.dirty, c, r.name);
    }
  }

  lemma MakesStamp(s: Server, k: Link)
    requires StampInv(s) && s.pc.Sending? && k.cut
    requires 0 < s.pc.left <= s.pc.total && s.pc.start + s.pc.total == |Hosted(s.files, s.pc.name)|
    ensures var (s', k') := ServerStep(s, k, SendChunk(false));
      && FilesKept(s, s') && k' == k && Over(s'.pc) && s'.stamps.Keys == {s.pc.mac}
      && s'.stamps[s.pc.mac].path == s.pc.name
  {
    hide Orderly;
  }

  /** A stamp is made for the download in hand. */
  lemma LoopConcern(w: World)
    requires Inv(w) && Lag.LagInv(w) && RecoveryInv(w) && 0 < w.accepted && w.server.pc.Sending?
    ensures var k := w.links[w.accepted - 1];
      && k.owner < |w.clients| && k.mac == w.clients[k.owner].mac && Flat(w.server.pc.name)
      && Resumable(w, k.owner, w.server.pc.name) && SessionMac(w.server.pc) == Some(k.mac)
      && 0 < w.server.pc.left <= w.server.pc.total
      && w.server.pc.start + w.server.pc.total == |Hosted(w.server.files, w.server.pc.name)|
  {
    hide Talk, DiskOk, StampInv, ClientFits, Hosted, Secure, DownloadStatus, Lag.Covered, ResumesFirst;
    var l := w.accepted - 1;
    var k := w.links[l];
    assert LinkNamed(w, l) && Lag.LinkLag(w, l) && LinkFits(w, l);
    SendingInOrder(k, w.server.pc, w.server.files, w.server.dirty, Holder(w, l));
    OrderKept(k, w.server.pc, w.server.files, w.server.dirty, Holder(w, l));
    assert Last(k.served) in k.asked;
  }

  lemma StampRecovers(w: World)
    requires Inv(w) && Lag.LagInv(w) && RecoveryInv(w) && 0 < w.accepted
    requires w.server.pc.Sending? && w.links[w.accepted - 1].cut
    ensures RecoveryInv(Step(w, Serve(SendChunk(false))))
  {
    hide Inv, Lag.LagInv, ServerStep, Secure, DownloadStatus, StampInv, ResumesFirst, FlatLink;
    AcceptedFirst(w);
    var l, w' := w.accepted - 1, Step(w, Serve(SendChunk(false)));
    var k, name := w.links[l], w.server.pc.name;
    LoopConcern(w);
    MakesStamp(w.server, k);
    ServerStamps(w.server, k, SendChunk(false));
    ServeSecure(w, k.owner, SendChunk(false), name);
    forall mac | mac in w'.server.stamps ensures StampSecure(w', mac) {
      forall c | 0 <= c < |w'.clients| && w'.clients[c].mac == mac ensures Resumable(w', c, name) {
        assert c == k.owner;
      }
    }
    forall i | 0 <= i < |w'.links| ensures LinkNamed(w', i) {
      assert LinkNamed(w, i);
    }
  }

  lemma NamedServed(k: Link, k': Link)
    requires ResumesFirst(k) && FlatLink(k) && k'.asked == k.asked && k'.offer == k.offer
    ensures ResumesFirst(k') && FlatLink(k')
  {
  }

  lemma SessionRecovers(w: World, call: ServerCall)
    requires Inv(w) && Lag.LagInv(w) && RecoveryInv(w) && 0 < w.accepted
    requires SessionMac(w.server.pc).Some?
    requires !(w.server.pc.Sending? && w.links[w.accepted - 1].cut && call == SendChunk(false))
    ensures RecoveryInv(Step(w, Serve(call)))
  {
    hide Inv, Lag.LagInv, Talk, ServerStep, Secure, DownloadStatus, StampInv, ResumesFirst, FlatLink, Todo;
    AcceptedFirst(w);
    var l, w' := w.accepted - 1, Step(w, Serve(call));
    var k, k' := w.links[l], w'.links[l];
    LinkInOrder(w, l);
    ServerStamps(w.server, k, call);
    ServerFrame(w.server, k, call);
    SamePlace(w.server);
    if SessionMac(w.server.pc) != Some(k.mac) {
      GarbledTurns(w.server, k, call);
    }
    SessionTurns(w.server, k, Holder(w, l), call);
    assert LinkNamed(w, l);
    forall i | 0 <= i < |w'.links| ensures LinkNamed(w', i) {
      assert LinkNamed(w, i);
      if i == l {
        NamedServed(k, k');
      }
    }
    if SessionMac(w'.server.pc) == Some(k.mac) && Concern(k', w'.server.pc).Some? {
      var name := Concern(k', w'.server.pc).value;
      if ServesDownload(k, k') {
        NextSecure(w);
      }
      ServeSecure(w, k.owner, call, name);
    }
  }

  lemma StepRecovers(w: World, a: Action)
    requires Inv(w) && Lag.LagInv(w) && RecoveryInv(w) && FlatDownloads([a])
    ensures RecoveryInv(Step(w, a))
  {
    hide Inv, Lag.LagInv, Secure, StampInv, StampSecure, LinkNamed, ClientStep;
    match a
    case Serve(call) =>
      if 0 < w.accepted <= |w.links| {
        if w.server.pc.ReadingMac? {
          GreetRecovers(w, call);
        } else if Over(w.server.pc) {
          OverStays(w.server, w.links[w.accepted - 1], call);
          assert Step(w, a) == w;
        } else if w.server.pc.Sending? && w.links[w.accepted - 1].cut && call == SendChunk(false) {
          StampRecovers(w);
        } else {
          SessionRecovers(w, call);
        }
      }
    case Act(c, call) => ActRecovers(w, c, call);
    case _ => OtherRecovers(w, a);
  }

  lemma {:induction false} RunRecovers(w: World, actions: seq<Action>)
    requires Inv(w) && Lag.LagInv(w) && RecoveryInv(w) && FlatDownloads(actions)
    ensures var w' := Run(w, actions); Inv(w') && Lag.LagInv(w') && RecoveryInv(w')
    decreases |actions|
  {
    hide Inv, Lag.LagInv, RecoveryInv, Step;
    if actions != [] {
      var a := actions[0];
      assert forall b | b in [a] || b in actions[1..] :: b in actions;
      StepKeeps(w, a);
      Lag.StepLag(w, a);
      StepRecovers(w, a);
      RunRecovers(Step(w, a), actions[1..]);
    }
  }

  lemma BareNames(actions: seq<Action>)
    requires forall d, name, canOpen | Act(d, Ask(Download(0, name), canOpen)) in actions :: 47 !in name
    ensures FlatDownloads(actions)
  {
    forall a | a in actions && a.Act? && a.clientCall.Ask?
      && a.clientCall.request.Download? && a.clientCall.request.position == 0
      ensures Flat(a.clientCall.request.name)
    {
      assert a == Act(a.client, Ask(Download(0, a.clientCall.request.name), a.clientCall.canOpen));
    }
  }

  lemma InitiallyRecovers(w: World)
    requires Initial(w) && Distinct(w)
    ensures Inv(w) && Lag.LagInv(w) && RecoveryInv(w)
  {
    hide Inv;
    InitialFits(w);
  }

  lemma DecidingConcern(c: Client, k: Link, pc: Pc, files: Files, dirty: set<Name>)
    requires Talk(k, pc, files, dirty, Some(c)) && c.task.Deciding? && !k.cut && !Over(pc) && FlatLink(k)
    ensures k.served == [] && Concern(k, pc) == Some(c.task.name) && SessionMac(pc).Some?
  {
    hide Settled, EncodeAll, UpOk, Unread;
  }

  /** What a client is asked about is a file it has a first part of. */
  lemma OfferRecovers(w: World, c: nat)
    requires Inv(w) && RecoveryInv(w) && InSession(w, c) && w.clients[c].task.Deciding?
    ensures Resumable(w, c, w.clients[c].task.name) && FlatLink(SessionLink(w))
  {
    hide Talk, DiskOk, Secure, StampInv, DownloadStatus;
    var l := w.accepted - 1;
    assert HostFits(w, c) && LinkFits(w, l) && LinkNamed(w, l);
    DecidingConcern(w.clients[c], w.links[l], w.server.pc, w.server.files, w.server.dirty);
  }

  lemma OfferWellFormed(c: Client, k: Link, files: Files, dirty: set<Name>)
    requires ClientFits(c, k, files, dirty) && c.task.Deciding? && Sizable(files) && FlatLink(k)
    requires DownloadStatus(files, c.task.name).Ready? && CopyOf(c, c.task.name) <= Hosted(files, c.task.name)
    ensures WellFormed(Request.Download(LocalSize(c, c.task.name), c.task.name))
  {
    hide Settled;
    assert c.task.name in files;
  }

  /** Recovery works. If every client has an identifier of its own and all names are bare file names: after any run,
      with uploads of anything by anybody and anything broken or killed, what a client is offered is a file of which it
      has a first part; and if it says yes, the two ends can bring the download to its end, with the whole file. */
  lemma ResumesAreWhole(w: World, before: seq<Action>, c: nat) returns (actions: seq<Action>)
    requires Initial(w) && forall i, j | 0 <= i < j < |w.clients| :: w.clients[i].mac != w.clients[j].mac
    requires forall d, name, canOpen | Act(d, Ask(Download(0, name), canOpen)) in before :: 47 !in name
    requires InSession(Run(w, before), c) && Run(w, before).clients[c].task.Deciding?
    ensures var w1 := Run(w, before);
      var name, hosted := w1.clients[c].task.name, Hosted(w1.server.files, w1.clients[c].task.name);
      && DownloadStatus(w1.server.files, name).Ready? && CopyOf(w1.clients[c], name) <= hosted
      && (forall a | a in actions :: OfSession(a, c))
      && var w' := Run(w1, actions);
      && c < |w'.clients| && w'.server.files == w1.server.files
      && w'.clients[c].task == Idle(Loaded(name))
      && name in w'.clients[c].disk && w'.clients[c].disk[name] == hosted
  {
    hide Inv, RecoveryInv, Lag.LagInv, Deliveries.CurrentSession, ClientFits, WellFormed;
    var w1 := Run(w, before);
    InitiallyRecovers(w);
    BareNames(before);
    RunRecovers(w, before);
    Deliveries.InitiallyCurrent(w);
    Deliveries.SessionsCurrent(w, before);
    OfferRecovers(w1, c);
    SessionFits(w1, c);
    PeerFits(SessionLink(w1), w1.server, w1.clients[c]);
    OfferWellFormed(w1.clients[c], SessionLink(w1), w1.server.files, w1.server.dirty);
    actions := ResumeCanFinish(w1, c);
  }

  /** What a client waits for has been served. */
  lemma LoadedServed(c: Client, k: Link, files: Files, dirty: set<Name>, call: ClientCall, name: Name)
    requires ClientFits(c, k, files, dirty) && ServedInOrder(k.asked, k.served) && AllWellFormed(k.asked)
    requires !c.task.Idle? && ClientStep(c, k, call).0.task == Idle(Loaded(name))
    ensures k.asked != [] && |k.served| == |k.asked| && Last(k.asked).Download? && Last(k.asked).name == name
  {
    hide Encode, Owed, StatusOf, TotalOf, Settled, GreetingOk, StampBody, WellFormed, OpOf, SizeOf, HasNumberAndName;
    if c.task.AwaitReply? && |k.down| >= ReplySize(c.task.request) {
      ReplyReady(c, k, files, dirty);
    }
  }

  lemma ServedConcern(k: Link, pc: Pc, files: Files, dirty: set<Name>, who: Option<Client>)
    requires Talk(k, pc, files, dirty, who) && k.asked != [] && |k.served| == |k.asked| && Last(k.asked).Download?
    ensures Concern(k, pc) == Some(Last(k.asked).name)
  {
    hide Peer, EncodeAll, UpOk, Unread, Unsent, AllWellFormed, Hosted;
    assert Todo(k) == [];
  }

  lemma LoadedConcern(c: Client, k: Link, pc: Pc, files: Files, dirty: set<Name>, call: ClientCall, name: Name)
    requires Talk(k, pc, files, dirty, Some(c))
    requires !c.task.Idle? && ClientStep(c, k, call).0.task == Idle(Loaded(name))
    ensures k.served != [] && Concern(k, pc) == Some(name)
  {
    hide ClientFits, Wire, ClientStep;
    OrderKept(k, pc, files, dirty, Some(c));
    LoadedServed(c, k, files, dirty, call, name);
    ServedConcern(k, pc, files, dirty, Some(c));
  }

  /** Under the same conditions every download that succeeds while its session lasts, fresh or resumed, leaves exactly
      the file that is hosted at that moment - whoever has uploaded it, and whatever has happened on the way. */
  lemma LoadedIsHosted(w: World, before: seq<Action>, c: nat, call: ClientCall, name: Name)
    requires Initial(w) && forall i, j | 0 <= i < j < |w.clients| :: w.clients[i].mac != w.clients[j].mac
    requires forall d, name, canOpen | Act(d, Ask(Download(0, name), canOpen)) in before :: 47 !in name
    requires var w1 := Run(w, before);
      && 0 < w1.accepted && c < |w1.clients| && w1.clients[c].link == Some(w1.accepted - 1)
      && SessionMac(w1.server.pc).Some?
      && !w1.clients[c].task.Idle? && Step(w1, Act(c, call)).clients[c].task == Idle(Loaded(name))
    ensures var w1 := Run(w, before);
      var disk := Step(w1, Act(c, call)).clients[c].disk;
      name in disk && disk[name] == Hosted(w1.server.files, name)
  {
    hide Talk, DiskOk, ClientStep, Run, StampInv, ClientFits, Hosted, CopyOf;
    var w1 := Run(w, before);
    InitiallyRecovers(w);
    BareNames(before);
    RunRecovers(w, before);
    var l := w1.accepted - 1;
    var k := w1.links[l];
    assert HostFits(w1, c) && LinkFits(w1, l) && LinkNamed(w1, l) && Holder(w1, l) == Some(w1.clients[c]);
    LoadedConcern(w1.clients[c], k, w1.server.pc, w1.server.files, w1.server.dirty, call, name);
    ClientSecure(w1.clients[c], k, w1.server.pc, w1.server.files, w1.server.dirty, name, call);
  }
}
