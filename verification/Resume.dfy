/** What the invariant says about whole runs: copies are first parts, streams are in step,
    requests are served in order, uploads arrive byte for byte. */
module Resume {
  import opened Bytes
  import opened Messages
  import opened Exchange
  import opened Machine
  import opened Conversation
  import opened ServerCalls
  import opened World
  import opened Deliveries
  import opened Wrappers

  /** The names some client is told to upload during a run. */
  function Uploads(actions: seq<Action>): set<Name> {
    if actions == [] then {}
    else
      var rest := Uploads(actions[1..]);
      match actions[0]
      case Act(_, Ask(Upload(name, _), _)) => {name} + rest
      case _ => rest
  }

  predicate NoUploadOf(name: Name, requests: seq<Request>) {
    forall r | r in requests && r.Upload? :: r.name != name
  }

  /** The server will still read from this connection. */
  predicate Pending(w: World, l: nat) {
    l >= w.accepted || (l == w.accepted - 1 && !Over(w.server.pc))
  }

  /** No upload under the name is going on, and none has been asked for that the server may still come to. */
  predicate Untouched(w: World, name: Name) {
    && (w.server.pc.Storing? ==> w.server.pc.name != name)
    && forall l | 0 <= l < |w.links| && Pending(w, l) :: NoUploadOf(name, Todo(w.links[l]))
  }

  lemma UnservedUploads(k: Link, name: Name)
    requires |k.served| <= |k.asked|
    ensures NoUploadOf(name, Todo(k)) <==> forall i | |k.served| <= i < |k.asked| ::
        k.asked[i].Upload? ==> k.asked[i].name != name
  {
    forall i | |k.served| <= i < |k.asked| ensures k.asked[i] in Todo(k) {
      assert k.asked[i] == Todo(k)[i - |k.served|];
    }
  }

  /** That is: of the connections that wait and the one the server reads from, none has an upload of it unserved. */
  lemma NoUploadUnserved(w: World, name: Name)
    requires forall l | 0 <= l < |w.links| :: |w.links[l].served| <= |w.links[l].asked|
    ensures Untouched(w, name) <==>
      && (w.server.pc.Storing? ==> w.server.pc.name != name)
      && forall l, i | 0 <= l < |w.links| && |w.links[l].served| <= i < |w.links[l].asked|
          && (l >= w.accepted || (l == w.accepted - 1 && !w.server.pc.Accepting? && !w.server.pc.Undefined?)) ::
          w.links[l].asked[i].Upload? ==> w.links[l].asked[i].name != name
  {
    forall l | 0 <= l < |w.links|
      ensures NoUploadOf(name, Todo(w.links[l])) <==>
        forall i | |w.links[l].served| <= i < |w.links[l].asked| ::
          w.links[l].asked[i].Upload? ==> w.links[l].asked[i].name != name
    {
      UnservedUploads(w.links[l], name);
    }
  }

  /** A call of the server leaves alone every file that it is not storing and that no request before it uploads. */
  predicate Spares(name: Name, s: Server, s': Server) {
    && (s'.pc.Storing? ==> s'.pc.name != name)
    && Find(s'.files, name) == Find(s.files, name)
    && (name !in s.dirty ==> name !in s'.dirty)
  }

  lemma DispatchSpares(s: Server, k: Link, outgoing: Bytes, mac: Mac, op: Byte, body: Bytes,
                       clock: Bytes, gap: Bytes, junk: nat, name: Name)
    requires AtContent(k, op, body, outgoing) && NoUploadOf(name, Todo(k))
    ensures Spares(name, s, Dispatch(s, k, mac, op, body, clock, gap, junk).0)
  {
    hide Decode, AtContent, Todo, Response, Hosted, DownloadStatus, Accepted;
    PacketDecoded(k, op, body, outgoing);
    var r := Todo(k)[0];
    assert r in Todo(k);
  }

  lemma NextIsNoUpload(k: Link, pc: Pc, files: Files, dirty: set<Name>, who: Option<Client>)
    requires Talk(k, pc, files, dirty, who)
    ensures pc.Replying? ==> !pc.next.Storing?
  {
  }

  lemma ServerSpares(s: Server, k: Link, who: Option<Client>, call: ServerCall, name: Name)
    requires Talk(k, s.pc, s.files, s.dirty, who) && NoUploadOf(name, Todo(k))
    requires s.pc.Storing? ==> s.pc.name != name
    ensures Spares(name, s, ServerStep(s, k, call).0)
  {
    hide Talk, Dispatch, NoUploadOf, Todo, Received, Greeting, Hosted;
    NextIsNoUpload(k, s.pc, s.files, s.dirty, who);
    match (s.pc, call)
    case (ReadingBody(mac, op, size), TakeBody(clock, gap, junk)) =>
      if |k.up| >= size {
        BodyTaken(k, s.files, s.dirty, who, mac, op, size);
        TodoTaken(k, size);
        DispatchSpares(s, TakeUp(k, size), Outgoing(who), mac, op, k.up[..size], clock, gap, junk, name);
      }
    case (ReadingHeader(mac), TakeHeader(clock)) =>
      if |k.up| >= HEADER_SIZE && SizeOf(k.up) == 0 {
        HeaderTaken(k, s.files, s.dirty, who, mac);
        TodoTaken(k, HEADER_SIZE);
        DispatchSpares(s, TakeUp(k, HEADER_SIZE), Outgoing(who), mac, OpOf(k.up), [], clock, [], 0, name);
      }
    case _ =>
  }

  /** Serving only takes requests off the list. */
  lemma ServedLess(s: Server, k: Link, call: ServerCall, name: Name)
    requires |k.served| <= |k.asked| && NoUploadOf(name, Todo(k))
    ensures NoUploadOf(name, Todo(ServerStep(s, k, call).1))
  {
    ServerFrame(s, k, call);
    hide ServerStep;
    TodoShrinks(k, ServerStep(s, k, call).1);
  }

  function Offered(c: Client): Name {
    if c.task.Deciding? then c.task.name else []
  }

  lemma OneMoreToDo(k: Link, k': Link, r: Request, name: Name)
    requires |k.served| <= |k.asked| && k'.served == k.served && NoUploadOf(name, Todo(k))
    requires k'.asked == k.asked || k'.asked == k.asked + [r]
    requires r.Upload? ==> r.name != name
    ensures NoUploadOf(name, Todo(k'))
  {
    assert Todo(k') == Todo(k) || Todo(k') == Todo(k) + [r];
  }

  /** Only a command adds a request, its own. */
  lemma AskedMore(c: Client, k: Link, call: ClientCall, name: Name)
    requires |k.served| <= |k.asked| && NoUploadOf(name, Todo(k))
    requires call.Ask? && call.request.Upload? ==> call.request.name != name
    ensures NoUploadOf(name, Todo(ClientStep(c, k, call).1))
  {
    hide Encode, LittleEndian, Todo, NoUploadOf;
    var k' := ClientStep(c, k, call).1;
    var r := if call.Ask? then call.request else Request.Download(LocalSize(c, Offered(c)), Offered(c));
    assert k'.served == k.served && (k'.asked == k.asked || k'.asked == k.asked + [r]);
    OneMoreToDo(k, k', r, name);
  }

  lemma ServeUntouched(w: World, call: ServerCall, name: Name)
    requires Inv(w) && Untouched(w, name) && 0 < w.accepted
    ensures Untouched(Step(w, Serve(call)), name) && Spares(name, w.server, Step(w, Serve(call)).server)
  {
    hide Talk, DiskOk, ServerStep, NoUploadOf, Todo;
    var l := w.accepted - 1;
    var k := w.links[l];
    LinkInOrder(w, l);
    if Over(w.server.pc) {
      OverStays(w.server, k, call);
    } else {
      assert Pending(w, l);
      ServerSpares(w.server, k, Holder(w, l), call, name);
      OrderKept(k, w.server.pc, w.server.files, w.server.dirty, Holder(w, l));
      ServedLess(w.server, k, call, name);
    }
  }

  lemma ActUntouched(w: World, c: nat, call: ClientCall, name: Name)
    requires Inv(w) && Untouched(w, name) && name !in Uploads([Act(c, call)])
    ensures Untouched(Step(w, Act(c, call)), name)
  {
    hide Talk, DiskOk, ClientStep, NoUploadOf, Todo;
    if c < |w.clients| && w.clients[c].link.Some? {
      assert HostFits(w, c);
      var l := w.clients[c].link.value;
      LinkInOrder(w, l);
      OrderKept(w.links[l], View(w, l), w.server.files, w.server.dirty, Holder(w, l));
      if call.Ask? && call.request.Upload? {
        assert Act(c, call) == Act(c, Ask(Upload(call.request.name, call.request.content), call.canOpen));
      }
      if Pending(w, l) {
        AskedMore(w.clients[c], w.links[l], call, name);
      }
    }
  }

  lemma NothingAsked(name: Name)
    ensures NoUploadOf(name, [])
  {
  }

  lemma OtherUntouched(w: World, a: Action, name: Name)
    requires Inv(w) && Untouched(w, name) && !a.Serve? && !a.Act?
    ensures Untouched(Step(w, a), name)
  {
    hide Talk, DiskOk, NoUploadOf;
    var w' := Step(w, a);
    forall l | 0 <= l < |w'.links| && Pending(w', l) ensures NoUploadOf(name, Todo(w'.links[l])) {
      if l < |w.links| {
        assert Pending(w, l);
        assert Todo(w'.links[l]) == Todo(w.links[l]);
      } else {
        assert NoUploadOf(name, []) by { NothingAsked(name); }
      }
    }
  }

  lemma StepUntouched(w: World, a: Action, name: Name)
    requires Inv(w) && Untouched(w, name) && name !in Uploads([a])
    ensures Untouched(Step(w, a), name) && Spares(name, w.server, Step(w, a).server)
  {
    hide Inv, ServerStep, ClientStep, NoUploadOf, Todo, Uploads;
    match a
    case Serve(call) =>
      if 0 < w.accepted {
        ServeUntouched(w, call, name);
      }
    case Act(c, call) => ActUntouched(w, c, call, name);
    case _ => OtherUntouched(w, a, name);
  }

  lemma OneByOne(actions: seq<Action>)
    requires actions != []
    ensures Uploads([actions[0]]) <= Uploads(actions) && Uploads(actions[1..]) <= Uploads(actions)
  {
    assert [actions[0]][1..] == [];
  }

  /** A hosted file changes only through an upload under its name: from any reachable state in which none is under way,
      it stays as it is for as long as nobody is told to upload one. */
  lemma {:induction false} HostedStays(w: World, actions: seq<Action>, name: Name)
    requires Inv(w) && Untouched(w, name) && name !in Uploads(actions)
    ensures Untouched(Run(w, actions), name)
    ensures Find(Run(w, actions).server.files, name) == Find(w.server.files, name)
    decreases |actions|
  {
    hide Inv, Untouched, Step;
    if actions != [] {
      var a := actions[0];
      OneByOne(actions);
      StepKeeps(w, a);
      StepUntouched(w, a, name);
      HostedStays(Step(w, a), actions[1..], name);
    }
  }

  // ---------------------------------------------------------------- one client's copy

  /** The names other than `name` that an upload has opened: what is claimed of them does not matter to its copy. */
  function Others(s: Server, name: Name): set<Name> {
    s.dirty - {name}
  }

  lemma Reordered(d: set<Name>, name: Name)
    ensures forall n | n != name :: d - {name} + {n} == (d + {n}) - {name}
  {
  }

  lemma DispatchUnmarked(s: Server, k: Link, mac: Mac, op: Byte, body: Bytes,
                         clock: Bytes, gap: Bytes, junk: nat, name: Name)
    requires var t := s.(dirty := Others(s, name)); Spares(name, t, Dispatch(t, k, mac, op, body, clock, gap, junk).0)
    ensures var (s', k') := Dispatch(s, k, mac, op, body, clock, gap, junk);
      Dispatch(s.(dirty := Others(s, name)), k, mac, op, body, clock, gap, junk) == (s'.(dirty := Others(s', name)), k')
  {
    hide Decode, Response, Hosted, Written, DownloadStatus, Accepted, Tail, Remaining, Find;
    Reordered(s.dirty, name);
  }

  /** Nothing the server does depends on which names are marked. */
  lemma MarksDoNotMatter(s: Server, k: Link, call: ServerCall, name: Name)
    requires var t := s.(dirty := Others(s, name)); Spares(name, t, ServerStep(t, k, call).0)
    ensures var (s', k') := ServerStep(s, k, call);
      ServerStep(s.(dirty := Others(s, name)), k, call) == (s'.(dirty := Others(s', name)), k')
  {
    hide Dispatch, Spares, Hosted, Written, OpOf, SizeOf, Greeting, Received;
    match (s.pc, call)
    case (ReadingBody(mac, op, size), TakeBody(clock, gap, junk)) =>
      if |k.up| >= size {
        DispatchUnmarked(s, TakeUp(k, size), mac, op, k.up[..size], clock, gap, junk, name);
      }
    case (ReadingHeader(mac), TakeHeader(clock)) =>
      if |k.up| >= HEADER_SIZE && SizeOf(k.up) == 0 {
        DispatchUnmarked(s, TakeUp(k, HEADER_SIZE), mac, OpOf(k.up), [], clock, [], 0, name);
      }
    case _ =>
  }

  /** Client `c` and its connection are in order with `name` counted among the names no upload has opened. */
  predicate Tracked(w: World, c: nat, name: Name)
    requires c < |w.clients|
  {
    && DiskOk(w.clients[c], w.server.files, Others(w.server, name))
    && (w.clients[c].link.Some? && w.clients[c].link.value < |w.links| ==>
          ClientFits(w.clients[c], w.links[w.clients[c].link.value], w.server.files, Others(w.server, name)))
  }

  /** The client's copy is a first part of the hosted file, all of it if the client has said so, and no reply to a
      download of it is under way. */
  predicate InOrder(w: World, c: nat, name: Name)
    requires c < |w.clients|
  {
    var client, hosted := w.clients[c], Hosted(w.server.files, name);
    && (name in client.disk ==> client.disk[name] <= hosted)
    && (client.task == Idle(Loaded(name)) ==> name in client.disk && client.disk[name] == hosted)
    && !(client.task.Receiving? && client.task.name == name)
    && (client.task.AwaitReply? && client.task.request.Download? && client.task.request.name == name ==>
          && client.link.Some? && client.link.value < |w.links|
          && var k := w.links[client.link.value]; |k.served| < |k.asked|)
  }

  lemma FitsUnmarked(c: Client, k: Link, files: Files, dirty: set<Name>, name: Name)
    requires ClientFits(c, k, files, dirty)
    requires !(c.task.Receiving? && c.task.name == name)
    requires c.task.AwaitReply? && c.task.request.Download? && c.task.request.name == name ==> |k.served| < |k.asked|
    ensures ClientFits(c, k, files, dirty - {name})
  {
    hide Settled, GreetingOk, Prepared, WholeReply, AnswersDownload, Encode, StampBody, Hosted;
  }

  lemma InOrderTracked(w: World, c: nat, name: Name)
    requires Inv(w) && c < |w.clients| && InOrder(w, c, name)
    ensures Tracked(w, c, name)
  {
    assert HostFits(w, c);
    if w.clients[c].link.Some? {
      var l := w.clients[c].link.value;
      LinkInOrder(w, l);
      assert Holder(w, l) == Some(w.clients[c]);
      FitsUnmarked(w.clients[c], w.links[l], w.server.files, w.server.dirty, name);
    }
  }

  lemma TrackedTalk(w: World, c: nat, name: Name)
    requires Inv(w) && c < |w.clients| && Tracked(w, c, name) && w.clients[c].link.Some?
    ensures var l := w.clients[c].link.value;
      && l < |w.links| && w.links[l].owner == c && Holder(w, l) == Some(w.clients[c])
      && Talk(w.links[l], View(w, l), w.server.files, Others(w.server, name), Some(w.clients[c]))
  {
    hide ClientFits, DiskOk, Wire, Others;
    assert HostFits(w, c);
    assert LinkFits(w, w.clients[c].link.value);
  }

  lemma TalkFits(p: (Client, Link), pc: Pc, files: Files, dirty: set<Name>)
    requires Sound(p, pc, files, dirty)
    ensures ClientFits(p.0, p.1, files, dirty) && DiskOk(p.0, files, dirty)
  {
  }

  lemma ActTracked(w: World, c: nat, d: nat, call: ClientCall, name: Name)
    requires Inv(w) && c < |w.clients| && Tracked(w, c, name)
    ensures Tracked(Step(w, Act(d, call)), c, name)
  {
    hide Talk, DiskOk, ClientFits, ClientStep;
    if d < |w.clients| && w.clients[d].link.Some? {
      assert HostFits(w, d);
      var l := w.clients[d].link.value;
      ClientFrame(w.clients[d], w.links[l], call);
      if d == c {
        TrackedTalk(w, c, name);
        ClientKeeps(w.clients[c], w.links[l], View(w, l), w.server.files, Others(w.server, name), call);
        TalkFits(ClientStep(w.clients[c], w.links[l], call), View(w, l), w.server.files, Others(w.server, name));
      } else if w.clients[c].link.Some? {
        TrackedTalk(w, c, name);
      }
    }
  }

  lemma PeerFits(k: Link, s: Server, c: Client)
    requires Talk(k, s.pc, s.files, s.dirty, Some(c))
    ensures ClientFits(c, k, s.files, s.dirty)
  {
  }

  /** A call of the server on the client's own connection. */
  lemma ServedTracked(s: Server, k: Link, c: Client, call: ServerCall, name: Name)
    requires Talk(k, s.pc, s.files, Others(s, name), Some(c)) && StoreOk(s)
    requires NoUploadOf(name, Todo(k)) && (s.pc.Storing? ==> s.pc.name != name)
    ensures var (s', k') := ServerStep(s, k, call); ClientFits(c, k', s'.files, Others(s', name))
  {
    hide Talk, ServerStep, NoUploadOf, Todo;
    var t := s.(dirty := Others(s, name));
    ServerSpares(t, k, Some(c), call, name);
    ServerKeeps(t, k, Some(c), call);
    MarksDoNotMatter(s, k, call, name);
    PeerFits(ServerStep(t, k, call).1, ServerStep(t, k, call).0, c);
  }

  /** Whatever the server changes, it is under other names. */
  lemma AgreeOthers(s: Server, s': Server, name: Name)
    requires Agree(s.files, s'.files, s.dirty, s'.dirty) && Find(s'.files, name) == Find(s.files, name)
    ensures Agree(s.files, s'.files, Others(s, name), Others(s', name))
  {
  }

  lemma SparesFinds(name: Name, s: Server, s': Server)
    requires Spares(name, s, s')
    ensures Find(s'.files, name) == Find(s.files, name)
  {
  }

  lemma OtherFits(k: Link, s: Server, s': Server, dirty: set<Name>, dirty': set<Name>, c: Client)
    requires ClientFits(c, k, s.files, dirty) && Agree(s.files, s'.files, dirty, dirty')
    ensures ClientFits(c, k, s'.files, dirty')
  {
    hide ClientFits;
    AgreePeer(k, Accepting, s.files, s'.files, dirty, dirty', Some(c));
  }

  lemma ServeTracked(w: World, c: nat, call: ServerCall, name: Name)
    requires Inv(w) && c < |w.clients| && Tracked(w, c, name) && Untouched(w, name) && 0 < w.accepted
    ensures Tracked(Step(w, Serve(call)), c, name)
  {
    hide Talk, DiskOk, ClientFits, ServerStep, Spares, Agree, Others;
    var l, w' := w.accepted - 1, Step(w, Serve(call));
    LinkInOrder(w, l);
    ServerKeeps(w.server, w.links[l], Holder(w, l), call);
    ServeUntouched(w, call, name);
    AgreeOthers(w.server, w'.server, name) by {
      assert Find(w'.server.files, name) == Find(w.server.files, name) by { SparesFinds(name, w.server, w'.server); }
    }
    OtherDisk(w.clients[c], w.server.files, w'.server.files, Others(w.server, name), Others(w'.server, name));
    if w.clients[c].link.Some? {
      TrackedTalk(w, c, name);
      var m := w.clients[c].link.value;
      if m != l {
        OtherFits(w.links[m], w.server, w'.server, Others(w.server, name), Others(w'.server, name), w.clients[c]);
      } else if Over(w.server.pc) {
        OverStays(w.server, w.links[l], call);
      } else {
        assert Pending(w, l);
        ServedTracked(w.server, w.links[l], w.clients[c], call, name);
      }
    }
  }

  lemma OtherTracked(w: World, c: nat, a: Action, name: Name)
    requires Inv(w) && c < |w.clients| && Tracked(w, c, name) && !a.Serve? && !a.Act?
    ensures c < |Step(w, a).clients| && Tracked(Step(w, a), c, name)
  {
    hide Wire, Settled, GreetingOk, Owed;
    var w', others := Step(w, a), Others(w.server, name);
    if w.clients[c].link.Some? {
      TrackedTalk(w, c, name);
    }
    match a
    case Connect(d) =>
      if d == c && w.clients[c].task.Idle? {
        NewTalk(c, w'.clients[c], w.server.files, others);
      } else if d < |w.clients| && w.clients[d].link.Some? {
        assert HostFits(w, d);
      }
    case Kill(d, kept) =>
      if d == c {
        KilledDisk(w.clients[c], w.server.files, others, kept);
      } else if d < |w.clients| && w.clients[d].link.Some? {
        assert HostFits(w, d);
      }
    case Cut(l, up, down) =>
      if w.clients[c].link == Some(l) {
        CutTalk(w.links[l], View(w, l), w.server.files, others, Some(w.clients[c]), up, down);
      }
    case _ =>
  }

  lemma StepTracked(w: World, c: nat, a: Action, name: Name)
    requires Inv(w) && c < |w.clients| && Tracked(w, c, name) && Untouched(w, name)
    ensures c < |Step(w, a).clients| && Tracked(Step(w, a), c, name)
  {
    hide Inv, Tracked, Untouched, ClientStep, ServerStep;
    match a
    case Serve(call) =>
      if 0 < w.accepted {
        ServeTracked(w, c, call, name);
      }
    case Act(d, call) => ActTracked(w, c, d, call, name);
    case _ => OtherTracked(w, c, a, name);
  }

  lemma {:induction false} RunTracked(w: World, c: nat, actions: seq<Action>, name: Name)
    requires Inv(w) && c < |w.clients| && Tracked(w, c, name) && Untouched(w, name) && name !in Uploads(actions)
    ensures c < |Run(w, actions).clients| && Tracked(Run(w, actions), c, name)
    decreases |actions|
  {
    hide Inv, Tracked, Untouched, Step;
    if actions != [] {
      var a := actions[0];
      OneByOne(actions);
      StepKeeps(w, a);
      StepTracked(w, c, a, name);
      StepUntouched(w, a, name);
      RunTracked(Step(w, a), c, actions[1..], name);
    }
  }

  /** Resume correctness. From every reachable state in which no upload under the name is under way and the client's
      copy is in order - absent or a first part of the hosted file, all of it if a download of it has just succeeded,
      and no reply to one under way: whatever breaks, is killed, reconnects or resumes from there on, as long as nobody
      is told to upload under the name again, the hosted file stays, the copy stays a first part of it, and once
      `Client::Download` has returned Success on a reply it could read, it is the whole file. Who uploaded or downloaded
      it before does not matter, nor do other clients' copies. */
  lemma CopiesAreFirstParts(w: World, before: seq<Action>, after: seq<Action>, c: nat, name: Name)
    requires Initial(w) && c < |Run(w, before).clients|
    requires Untouched(Run(w, before), name) && InOrder(Run(w, before), c, name) && name !in Uploads(after)
    ensures var w1 := Run(w, before);
      var w' := Run(w1, after);
      && Find(w'.server.files, name) == Find(w1.server.files, name)
      && c < |w'.clients|
      && (name in w'.clients[c].disk ==> w'.clients[c].disk[name] <= Hosted(w1.server.files, name))
      && (w'.clients[c].task == Idle(Loaded(name)) ==>
            name in w'.clients[c].disk && w'.clients[c].disk[name] == Hosted(w1.server.files, name))
  {
    hide Inv, Untouched, Run;
    InitialFits(w);
    RunKeeps(w, before);
    var w1 := Run(w, before);
    InOrderTracked(w1, c, name);
    HostedStays(w1, after, name);
    RunTracked(w1, c, after, name);
  }

  /** Before anything has happened all this holds of every client and every name. */
  lemma InitiallyInOrder(w: World, c: nat, name: Name)
    requires Initial(w) && c < |w.clients|
    ensures Untouched(Run(w, []), name) && InOrder(Run(w, []), c, name)
  {
    assert w.clients[c] in w.clients;
  }

  lemma TornCopy(c: Client, k: Link, pc: Pc, files: Files, dirty: set<Name>, stale: bool)
    requires c.task.AwaitReply? && c.task.request.Download? && Talk(k, pc, files, dirty, Some(c))
    requires ReadReply(c, k, c.task.request, stale).0.task.Idle?
    requires ReadReply(c, k, c.task.request, stale).0.task.last.Torn?
    ensures var Download(start, name) := c.task.request;
      var c' := ReadReply(c, k, c.task.request, stale).0;
      && c'.task == Idle(Torn(c.task.request)) && c'.disk == c.disk && name in c'.disk && |c'.disk[name]| == start
  {
    hide Wire, Settled, Owed, StatusOf, TotalOf, Hosted;
  }

  /** The one way Success is reported on other terms: the stream ends inside the reply header, and the rest of the
      header is what the buffer held before. The copy is then as it was, and the whole file exactly when it was a first
      part of it - as it is in the runs above - and the request had asked for nothing more. */
  lemma TornReply(w: World, c: nat, call: ClientCall)
    requires Inv(w) && c < |w.clients| && w.clients[c].task.AwaitReply? && w.clients[c].link.Some?
    requires w.clients[c].task.request.Download?
    requires Step(w, Act(c, call)).clients[c].task.Idle? && Step(w, Act(c, call)).clients[c].task.last.Torn?
    ensures var Download(start, name) := w.clients[c].task.request;
      var c', hosted := Step(w, Act(c, call)).clients[c], Hosted(w.server.files, name);
      && c'.task == Idle(Torn(w.clients[c].task.request)) && c'.disk == w.clients[c].disk && name in c'.disk
      && (c'.disk[name] == hosted <==> c'.disk[name] <= hosted && start >= |hosted|)
      && (Tracked(w, c, name) ==> c'.disk[name] <= hosted)
  {
    hide ReadReply, Talk;
    assert HostFits(w, c);
    var l := w.clients[c].link.value;
    LinkInOrder(w, l);
    assert call.TakeReply?;
    TornCopy(w.clients[c], w.links[l], View(w, l), w.server.files, w.server.dirty, call.stale);
  }

  /** The reply under way belongs to the hosted file as it is: nobody uploads under the name, or the session goes on. */
  predicate ReplyStands(w: World, c: nat, name: Name)
    requires c < |w.clients|
  {
    Tracked(w, c, name) || (CurrentSession(w) && w.clients[c].link == Some(w.accepted - 1) && !Over(w.server.pc))
  }

  lemma ReplyServed(c: Client, k: Link, pc: Pc, files: Files, dirty: set<Name>)
    requires Talk(k, pc, files, dirty, Some(c)) && c.task.AwaitReply? && c.task.request.Download? && k.down != []
    ensures |k.served| == |k.asked| && |k.due| >= RESPONSE_SIZE
    ensures c.task.request.name !in dirty ==>
      StatusOf(k.due) == StatusCode(DownloadStatus(files, c.task.request.name))
  {
    hide Wire, DownloadStatus, Hosted, StatusOf, TotalOf;
    OrderKept(k, pc, files, dirty, Some(c));
  }

  lemma StatusStands(w: World, c: nat)
    requires Inv(w) && c < |w.clients| && w.clients[c].link.Some? && w.clients[c].link.value < |w.links|
    requires w.clients[c].task.AwaitReply? && w.clients[c].task.request.Download?
    requires w.links[w.clients[c].link.value].down != []
    ensures var r, k := w.clients[c].task.request, w.links[w.clients[c].link.value];
      |k.due| >= RESPONSE_SIZE && (ReplyStands(w, c, r.name) ==>
        StatusOf(k.due) == StatusCode(DownloadStatus(w.server.files, r.name)))
  {
    hide Talk, DownloadStatus, StatusOf;
    var c0, l := w.clients[c], w.clients[c].link.value;
    LinkInOrder(w, l);
    HostInOrder(w, c);
    ReplyServed(c0, w.links[l], View(w, l), w.server.files, w.server.dirty);
    if Tracked(w, c, c0.task.request.name) {
      TrackedTalk(w, c, c0.task.request.name);
      ReplyServed(c0, w.links[l], View(w, l), w.server.files, Others(w.server, c0.task.request.name));
    }
  }

  lemma OneByteRead(c: Client, k: Link)
    requires c.task.AwaitReply? && c.task.request.Download? && k.cut && |k.down| == 1
    ensures var r := c.task.request;
      var c' := ReadReply(c, k, r, true).0;
      (c'.task == Idle(Torn(r)) <==> k.down[0] == 0) && (k.down[0] == 0 ==> c'.disk == c.disk)
  {
  }

  /** The first byte of a Ready status is zero. */
  lemma FirstIsZero(c: Client, k: Link, pc: Pc, files: Files, dirty: set<Name>)
    requires Talk(k, pc, files, dirty, Some(c)) && c.task.AwaitReply? && c.task.request.Download? && k.down != []
    ensures |k.due| >= RESPONSE_SIZE && (StatusOf(k.due) == StatusCode(Ready) ==> k.down[0] == 0)
  {
    hide Wire, DownloadStatus, Hosted, TotalOf;
    ReplyServed(c, k, pc, files, dirty);
    assert k.down[0] == k.due[0] == k.due[..4][0];
  }

  /** It happens: from every reachable state in which the reply to a download is on its way, a break that lets one byte
      through, on a buffer that is blank otherwise, makes `Client::Download` return Success on the copy as it was,
      exactly if that byte is zero - as it is whenever the reply is a Ready one. */
  lemma TornReplyHappens(w: World, c: nat)
    requires Inv(w) && c < |w.clients| && w.clients[c].link.Some? && w.clients[c].link.value < |w.links|
    requires w.clients[c].task.AwaitReply? && w.clients[c].task.request.Download?
    requires w.links[w.clients[c].link.value].down != []
    ensures var w' := Run(w, [Cut(w.clients[c].link.value, 0, 1), Act(c, TakeReply(true))]);
      var r, k := w.clients[c].task.request, w.links[w.clients[c].link.value];
      && |w'.clients| == |w.clients| && w'.server == w.server
      && (w'.clients[c].task == Idle(Torn(r)) <==> k.down[0] == 0)
      && (k.down[0] == 0 ==> w'.clients[c].disk == w.clients[c].disk)
      && |k.due| >= RESPONSE_SIZE && (StatusOf(k.due) == StatusCode(Ready) ==> k.down[0] == 0)
      && (Tracked(w, c, r.name)
          || (CurrentSession(w) && w.clients[c].link == Some(w.accepted - 1) && !Over(w.server.pc)) ==>
            StatusOf(k.due) == StatusCode(DownloadStatus(w.server.files, r.name)))
  {
    hide Inv, DownloadStatus, Talk, ReadReply, CurrentSession, Tracked, StatusOf, DiskOk, ServerStep, View;
    var l := w.clients[c].link.value;
    var a1, a2 := Cut(l, 0, 1), Act(c, TakeReply(true));
    assert [a1, a2][1..] == [a2] && [a2][1..] == [];
    assert Run(w, [a1, a2]) == Run(Step(w, a1), [a2]) == Step(Step(w, a1), a2);
    var k := w.links[l];
    assert CutLink(k, 0, 1).down == [k.down[0]];
    OneByteRead(w.clients[c], CutLink(k, 0, 1));
    LinkInOrder(w, l);
    HostInOrder(w, c);
    FirstIsZero(w.clients[c], k, View(w, l), w.server.files, w.server.dirty);
    StatusStands(w, c);
  }

  /** Stream synchronisation: while a client is at its prompt and the server waits for a request on an intact
      connection, nothing is on its way back, and what is on its way up is exactly the requests not yet served. */
  lemma StreamsInStep(w: World, actions: seq<Action>, l: nat)
    requires Initial(w)
    requires var w' := Run(w, actions);
      && l < |w'.links| && l + 1 == w'.accepted && !w'.links[l].cut
      && w'.server.pc.ReadingHeader? && Holder(w', l).Some? && Holder(w', l).value.task.Idle?
    ensures var k := Run(w, actions).links[l];
      && |k.served| <= |k.asked|
      && k.down == [] && k.up == EncodeAll(k.asked[|k.served|..])
      && (k.up == [] <==> k.served == k.asked)
  {
    InitialFits(w);
    RunKeeps(w, actions);
    var w' := Run(w, actions);
    assert LinkFits(w', l);
    var k := w'.links[l];
    assert k.up + [] == k.up;
    assert Todo(k) != [] ==> |EncodeAll(Todo(k))| >= HEADER_SIZE;
  }

  /** Pipelined framing: however the streams are cut into pieces, the server has decoded a first part of
      what the client asked for, in order, and an upload it has finished is the client's file. */
  lemma ServedAsAsked(w: World, actions: seq<Action>, l: nat)
    requires Initial(w) && l < |Run(w, actions).links|
    ensures var k := Run(w, actions).links[l];
      |k.served| <= |k.asked| && k.served == k.asked[..|k.served|]
  {
    InitialFits(w);
    RunKeeps(w, actions);
    assert LinkFits(Run(w, actions), l);
  }

  /** The round of the store loop that serves an upload is its last. */
  lemma LastRound(s: Server, k: Link, call: ServerCall)
    requires s.pc.Storing? && |ServerStep(s, k, call).1.served| > |k.served|
    ensures s.pc.left <= |k.up|
    ensures var name, bytes := s.pc.name, Hosted(s.files, s.pc.name) + k.up[..s.pc.left];
      ServerStep(s, k, call) == (s.(files := Written(s.files, name, bytes), pc := ReadingHeader(s.pc.mac)),
                                 TakeUp(k, s.pc.left).(served := k.served + [Request.Upload(name, bytes)]))
  {
    hide Hosted, Written;
  }

  lemma UploadFinished(s: Server, k: Link, who: Option<Client>, call: ServerCall)
    requires Talk(k, s.pc, s.files, s.dirty, who) && StoreOk(s) && s.pc.Storing?
    requires |ServerStep(s, k, call).1.served| > |k.served|
    ensures var (s', k') := ServerStep(s, k, call);
      && |k.served| < |k.asked| && k.asked[|k.served|].Upload?
      && k'.served == k.served + [k.asked[|k.served|]] && k'.asked == k.asked
      && Hosted(s'.files, k.asked[|k.served|].name) == k.asked[|k.served|].content
      && s'.pc.ReadingHeader?
  {
    hide Peer, Wire, ServerStep, UpOk, EncodeAll, Written, Hosted, WellFormed;
    var Storing(mac, name, size, left) := s.pc;
    LastRound(s, k, call);
    LastRoundWire(k, s.files, Outgoing(who), mac, name, size, left);
    StoringIs(k, s.files, Outgoing(who), mac, name, size, left);
    WrittenFound(s.files, name, Hosted(s.files, name) + k.up[..left]);
  }

  lemma NothingBeyond(k: Link, pc: Pc, files: Files, dirty: set<Name>, who: Option<Client>)
    requires Talk(k, pc, files, dirty, who) && pc.ReadingHeader?
    ensures |k.served| <= |k.asked| && k.up <= EncodeAll(k.asked[|k.served|..])
  {
  }

  /** End-to-end upload: in every run, the step that finishes an upload leaves the hosted file equal to the
      file the client sent, and leaves unread exactly the requests that follow it. */
  lemma UploadArrives(w: World, call: ServerCall)
    requires Inv(w) && 0 < w.accepted <= |w.links| && w.server.pc.Storing?
    requires |ServerStep(w.server, w.links[w.accepted - 1], call).1.served| > |w.links[w.accepted - 1].served|
    ensures var l := w.accepted - 1;
      var (k, w') := (w.links[l], Step(w, Serve(call)));
      && |k.served| < |k.asked| && k.asked[|k.served|].Upload?
      && Hosted(w'.server.files, k.asked[|k.served|].name) == k.asked[|k.served|].content
      && w'.links[l].up <= EncodeAll(k.asked[|k.served| + 1..])
  {
    hide Talk, ServerStep, LinkFits, HostFits, EncodeAll, DiskOk;
    var l := w.accepted - 1;
    LinkInOrder(w, l);
    UploadFinished(w.server, w.links[l], Holder(w, l), call);
    StepKeeps(w, Serve(call));
    var w' := Step(w, Serve(call));
    LinkInOrder(w', l);
    hide Inv;
    NothingBeyond(w'.links[l], w'.server.pc, w'.server.files, w'.server.dirty, Holder(w', l));
  }
}
