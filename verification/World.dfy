/** The whole system and its runs: one server, any number of clients, every connection ever made. */
module World {
  import opened Bytes
  import opened Messages
  import opened Exchange
  import opened Machine
  import opened Conversation
  import opened ServerCalls
  import opened Wrappers

  /** Connections are accepted in the order they were made; the one in session is number `accepted - 1`. */
  datatype World = World(server: Server, clients: seq<Client>, links: seq<Link>, accepted: nat)

  datatype Action =
    | Connect(client: nat)                          // a client process connects and sends its identifier
    | Kill(client: nat, kept: nat)                  // it is killed; `kept` bytes of an open file were flushed
    | Cut(link: nat, up: nat, down: nat)            // a connection breaks; that much still arrives
    | Listen                                        // the server accepts the next connection
    | Serve(serverCall: ServerCall)
    | Act(client: nat, clientCall: ClientCall)

  function CutLink(k: Link, up: nat, down: nat): Link {
    k.(up := k.up[..Min(up, |k.up|)], down := k.down[..Min(down, |k.down|)], cut := true)
  }

  /** A client's end closes: the server still reads what was sent. */
  function Leave(w: World, c: nat): seq<Link>
    requires c < |w.clients|
  {
    match w.clients[c].link
    case None => w.links
    case Some(l) => if l < |w.links| then w.links[l := w.links[l].(cut := true)] else w.links
  }

  function NewLink(c: nat, mac: Mac): Link {
    Link(c, mac, mac, [], false, [], [], [], None)
  }

  /** An action that is not possible changes nothing. */
  function Step(w: World, a: Action): World {
    match a
    case Connect(c) =>
      if c < |w.clients| && w.clients[c].task.Idle? then
        var links := Leave(w, c);
        w.(links := links + [NewLink(c, w.clients[c].mac)],
           clients := w.clients[c := w.clients[c].(task := AwaitGreeting, link := Some(|links|))])
      else w
    case Kill(c, kept) =>
      if c < |w.clients| then
        var left := w.clients[c].(disk := Flushed(w.clients[c], kept), task := Idle(Nothing), link := None);
        w.(links := Leave(w, c), clients := w.clients[c := left])
      else w
    case Cut(l, up, down) => if l < |w.links| then w.(links := w.links[l := CutLink(w.links[l], up, down)]) else w
    case Listen =>
      if w.server.pc.Accepting? && w.accepted < |w.links|
      then w.(server := w.server.(pc := ReadingMac), accepted := w.accepted + 1)
      else w
    case Serve(call) =>
      if 0 < w.accepted <= |w.links| then
        var (s, k) := ServerStep(w.server, w.links[w.accepted - 1], call);
        w.(server := s, links := w.links[w.accepted - 1 := k])
      else w
    case Act(c, call) =>
      if c < |w.clients| && w.clients[c].link.Some? && w.clients[c].link.value < |w.links| then
        var l := w.clients[c].link.value;
        var (c', k) := ClientStep(w.clients[c], w.links[l], call);
        w.(clients := w.clients[c := c'], links := w.links[l := k])
      else w
  }

  function Run(w: World, actions: seq<Action>): World
    decreases |actions|
  {
    if actions == [] then w else Run(Step(w, actions[0]), actions[1..])
  }

  /** A server that has just started, and clients whose directories are empty. */
  predicate Initial(w: World) {
    && w.links == [] && w.accepted == 0
    && Sizable(w.server.files)
    && w.server.dirty == {} && w.server.stamps == map[] && w.server.ledger == [] && w.server.pc == Accepting
    && forall c | c in w.clients :: c.disk == map[] && c.task == Idle(Nothing) && c.link.None?
  }

  /** How far the server is with a connection. */
  function View(w: World, l: nat): Pc {
    if l >= w.accepted then ReadingMac else if l == w.accepted - 1 then w.server.pc else Accepting
  }

  /** The client still holding the other end of a connection. */
  function Holder(w: World, l: nat): Option<Client>
    requires l < |w.links|
  {
    var o := w.links[l].owner;
    if o < |w.clients| && w.clients[o].link == Some(l) then Some(w.clients[o]) else None
  }

  predicate LinkFits(w: World, l: nat)
    requires l < |w.links|
  {
    w.links[l].owner < |w.clients| && Talk(w.links[l], View(w, l), w.server.files, w.server.dirty, Holder(w, l))
  }

  predicate HostFits(w: World, c: nat)
    requires c < |w.clients|
  {
    && DiskOk(w.clients[c], w.server.files, w.server.dirty)
    && (w.clients[c].link.Some? ==>
          var l := w.clients[c].link.value;
          l < |w.links| && w.links[l].owner == c && forall i | l < i < |w.links| :: w.links[i].owner != c)
  }

  /** The invariant of the whole system. */
  ghost predicate Inv(w: World) {
    && StoreOk(w.server)
    && w.accepted <= |w.links|
    && (w.accepted == 0 ==> w.server.pc.Accepting?)
    && (forall l | 0 <= l < |w.links| :: LinkFits(w, l))
    && (forall c | 0 <= c < |w.clients| :: HostFits(w, c))
  }

  lemma LinkInOrder(w: World, l: nat)
    requires Inv(w) && l < |w.links|
    ensures w.links[l].owner < |w.clients|
    ensures Talk(w.links[l], View(w, l), w.server.files, w.server.dirty, Holder(w, l))
  {
    hide Talk;
    assert LinkFits(w, l);
  }

  lemma HostInOrder(w: World, c: nat)
    requires Inv(w) && c < |w.clients|
    ensures HostFits(w, c)
  {
  }

  // ---------------------------------------------------------------- what does not change

  lemma ClientFrame(c: Client, k: Link, call: ClientCall)
    ensures var (c', k') := ClientStep(c, k, call);
      c'.mac == c.mac && c'.link == c.link && k'.owner == k.owner && k'.mac == k.mac && k'.cut == k.cut
  {
  }

  lemma ServerFrame(s: Server, k: Link, call: ServerCall)
    ensures var k' := ServerStep(s, k, call).1;
      && k'.owner == k.owner && k'.mac == k.mac && k'.cut == k.cut
      && k'.asked == k.asked && |k.served| <= |k'.served|
  {
    hide Decode, Response, Hosted, Written, DownloadStatus, Accepted, Tail, Remaining, OpOf, SizeOf, Greeting;
  }

  lemma CutTalk(k: Link, pc: Pc, files: Files, dirty: set<Name>, who: Option<Client>, up: nat, down: nat)
    requires Talk(k, pc, files, dirty, who)
    ensures Talk(CutLink(k, up, down), pc, files, dirty, who)
  {
    var k' := CutLink(k, up, down);
    assert Todo(k') == Todo(k);
    assert k.down <= k.due ==> k'.down <= k'.due;
  }

  lemma LeaveTalk(k: Link, pc: Pc, files: Files, dirty: set<Name>, who: Option<Client>)
    requires Talk(k, pc, files, dirty, who)
    ensures Talk(k.(cut := true), pc, files, dirty, None)
  {
    assert Todo(k.(cut := true)) == Todo(k);
  }

  lemma NewTalk(c: nat, client: Client, files: Files, dirty: set<Name>)
    requires client.task.AwaitGreeting?
    ensures Talk(NewLink(c, client.mac), ReadingMac, files, dirty, Some(client))
  {
    var k := NewLink(c, client.mac);
    assert Todo(k) == [];
    assert k.mac + EncodeAll([]) == k.mac;
    assert k.up + [] == k.up;
  }

  /** A connection the server is not busy with survives whatever happens to files marked dirty. */
  lemma OtherTalk(k: Link, pc: Pc, files: Files, files': Files, dirty: set<Name>, dirty': set<Name>,
                  who: Option<Client>)
    requires Talk(k, pc, files, dirty, who) && Agree(files, files', dirty, dirty')
    requires pc.ReadingMac? || pc.Accepting?
    ensures Talk(k, pc, files', dirty', who)
  {
    hide ClientFits;
    AgreePeer(k, pc, files, files', dirty, dirty', who);
  }

  lemma OtherDisk(c: Client, files: Files, files': Files, dirty: set<Name>, dirty': set<Name>)
    requires DiskOk(c, files, dirty) && Agree(files, files', dirty, dirty')
    ensures DiskOk(c, files', dirty')
  {
    forall n | n in c.disk && n !in dirty' ensures c.disk[n] <= Hosted(files', n) {
      assert Find(files, n) == Find(files', n);
    }
    if c.task.Idle? && c.task.last.Loaded? {
      assert c.task.last.name !in dirty' ==> Find(files, c.task.last.name) == Find(files', c.task.last.name);
    }
  }

  // ---------------------------------------------------------------- every action keeps the invariant

  lemma ActKeeps(w: World, c: nat, call: ClientCall)
    requires Inv(w)
    ensures Inv(Step(w, Act(c, call)))
  {
    hide Talk, DiskOk, ClientStep;
    if c < |w.clients| && w.clients[c].link.Some? {
      assert HostFits(w, c);
      var l := w.clients[c].link.value;
      var w' := Step(w, Act(c, call));
      assert LinkFits(w, l);
      ClientFrame(w.clients[c], w.links[l], call);
      ClientKeeps(w.clients[c], w.links[l], View(w, l), w.server.files, w.server.dirty, call);
      forall i | 0 <= i < |w'.links| ensures LinkFits(w', i) {
        assert LinkFits(w, i);
        assert i != l ==> Holder(w', i) == Holder(w, i);
      }
      forall d | 0 <= d < |w'.clients| ensures HostFits(w', d) {
        assert HostFits(w, d);
      }
    }
  }

  lemma ServeKeeps(w: World, call: ServerCall)
    requires Inv(w)
    ensures Inv(Step(w, Serve(call)))
  {
    hide Talk, DiskOk, ServerStep;
    if 0 < w.accepted {
      var l := w.accepted - 1;
      var w' := Step(w, Serve(call));
      assert LinkFits(w, l);
      ServerFrame(w.server, w.links[l], call);
      ServerKeeps(w.server, w.links[l], Holder(w, l), call);
      forall i | 0 <= i < |w'.links| ensures LinkFits(w', i) {
        assert LinkFits(w, i);
        assert Holder(w', i) == Holder(w, i);
        if i != l {
          OtherTalk(w.links[i], View(w, i), w.server.files, w'.server.files, w.server.dirty, w'.server.dirty,
                    Holder(w, i));
        }
      }
      forall d | 0 <= d < |w'.clients| ensures HostFits(w', d) {
        assert HostFits(w, d);
        OtherDisk(w.clients[d], w.server.files, w'.server.files, w.server.dirty, w'.server.dirty);
      }
    }
  }

  lemma ListenKeeps(w: World)
    requires Inv(w)
    ensures Inv(Step(w, Listen))
  {
    hide Talk, DiskOk;
    var w' := Step(w, Listen);
    forall i | 0 <= i < |w'.links| ensures LinkFits(w', i) {
      assert LinkFits(w, i);
      assert Holder(w', i) == Holder(w, i) && View(w', i) == View(w, i);
    }
    forall d | 0 <= d < |w'.clients| ensures HostFits(w', d) {
      assert HostFits(w, d);
    }
  }

  lemma CutKeeps(w: World, l: nat, up: nat, down: nat)
    requires Inv(w)
    ensures Inv(Step(w, Cut(l, up, down)))
  {
    hide Talk, DiskOk;
    if l < |w.links| {
      var w' := Step(w, Cut(l, up, down));
      forall i | 0 <= i < |w'.links| ensures LinkFits(w', i) {
        assert LinkFits(w, i);
        assert Holder(w', i) == Holder(w, i);
        CutTalk(w.links[i], View(w, i), w.server.files, w.server.dirty, Holder(w, i), up, down);
      }
      forall d | 0 <= d < |w'.clients| ensures HostFits(w', d) {
        assert HostFits(w, d);
      }
    }
  }

  lemma LeaveKeeps(w: World, c: nat, i: nat)
    requires Inv(w) && c < |w.clients| && i < |w.links|
    ensures |Leave(w, c)| == |w.links| && Leave(w, c)[i].owner == w.links[i].owner
    ensures Talk(Leave(w, c)[i], View(w, i), w.server.files, w.server.dirty,
                 if w.links[i].owner == c then None else Holder(w, i))
  {
    hide Talk, DiskOk;
    assert LinkFits(w, i) && HostFits(w, c);
    if w.clients[c].link == Some(i) {
      LeaveTalk(w.links[i], View(w, i), w.server.files, w.server.dirty, Holder(w, i));
    }
  }

  lemma KilledDisk(c: Client, files: Files, dirty: set<Name>, kept: nat)
    requires DiskOk(c, files, dirty)
    ensures DiskOk(c.(disk := Flushed(c, kept), task := Idle(Nothing), link := None), files, dirty)
  {
  }

  lemma KillKeeps(w: World, c: nat, kept: nat)
    requires Inv(w)
    ensures Inv(Step(w, Kill(c, kept)))
  {
    if c < |w.clients| {
      var w' := Step(w, Kill(c, kept));
      assert HostFits(w, c);
      KilledDisk(w.clients[c], w.server.files, w.server.dirty, kept);
      hide Talk, DiskOk;
      assert |Leave(w, c)| == |w.links|;
      forall i | 0 <= i < |w'.links| ensures LinkFits(w', i) {
        LeaveKeeps(w, c, i);
        assert w.links[i].owner < |w.clients| by { assert LinkFits(w, i); }
      }
      forall d | 0 <= d < |w'.clients| ensures HostFits(w', d) {
        assert HostFits(w, d);
        forall i | 0 <= i < |w.links| ensures w'.links[i].owner == w.links[i].owner {
          LeaveKeeps(w, c, i);
        }
      }
    }
  }

  lemma ConnectKeeps(w: World, c: nat)
    requires Inv(w)
    ensures Inv(Step(w, Connect(c)))
  {
    hide Talk;
    if c < |w.clients| && w.clients[c].task.Idle? {
      var w' := Step(w, Connect(c));
      assert |Leave(w, c)| == |w.links|;
      NewTalk(c, w'.clients[c], w.server.files, w.server.dirty);
      forall i | 0 <= i < |w'.links| ensures LinkFits(w', i) {
        if i < |w.links| {
          LeaveKeeps(w, c, i);
          assert w.links[i].owner < |w.clients| by { assert LinkFits(w, i); }
        }
      }
      forall d | 0 <= d < |w'.clients| ensures HostFits(w', d) {
        assert HostFits(w, d);
        forall i | 0 <= i < |w.links| ensures w'.links[i].owner == w.links[i].owner {
          LeaveKeeps(w, c, i);
        }
      }
    }
  }

  lemma StepKeeps(w: World, a: Action)
    requires Inv(w)
    ensures Inv(Step(w, a))
  {
    hide Inv, Step;
    match a
    case Connect(c) => ConnectKeeps(w, c);
    case Kill(c, kept) => KillKeeps(w, c, kept);
    case Cut(l, up, down) => CutKeeps(w, l, up, down);
    case Listen => ListenKeeps(w);
    case Serve(call) => ServeKeeps(w, call);
    case Act(c, call) => ActKeeps(w, c, call);
  }

  lemma InitialFits(w: World)
    requires Initial(w)
    ensures Inv(w)
  {
    forall c | 0 <= c < |w.clients| ensures HostFits(w, c) {
      assert w.clients[c] in w.clients;
    }
  }

  /** Every reachable state satisfies the invariant. */
  lemma {:induction false} RunKeeps(w: World, actions: seq<Action>)
    requires Inv(w)
    ensures Inv(Run(w, actions))
    decreases |actions|
  {
    if actions != [] {
      StepKeeps(w, actions[0]);
      RunKeeps(Step(w, actions[0]), actions[1..]);
    }
  }

  // ---------------------------------------------------------------- what may happen

  /** A run may start with any files that fit 64-bit sizes and any clients. */
  lemma AnyStart(files: Files, macs: seq<Mac>)
    requires forall n | n in files && files[n].Regular? :: |files[n].bytes| < 0x1_0000_0000_0000_0000
    ensures var clients := seq(|macs|, i requires 0 <= i < |macs| => Client(macs[i], map[], Idle(Nothing), None));
      Initial(World(Server(files, {}, map[], [], Accepting), clients, [], 0))
  {
  }

  /** A connection may break anywhere in what is under way, each way. */
  lemma BreaksAnywhere(w: World, l: nat, up: Bytes, down: Bytes)
    requires l < |w.links| && up <= w.links[l].up && down <= w.links[l].down
    ensures var w' := Step(w, Cut(l, |up|, |down|));
      && w'.links == w.links[l := w.links[l].(up := up, down := down, cut := true)]
      && w' == w.(links := w'.links)
  {
    assert w.links[l].up[..|up|] == up && w.links[l].down[..|down|] == down;
  }

  /** A client killed in a download may leave any first part of what it has written, and nothing else of its changes. */
  lemma KilledAnywhere(w: World, c: nat, name: Name, left: Bytes)
    requires c < |w.clients| && w.clients[c].task.Receiving? && w.clients[c].task.name == name
    requires name in w.clients[c].disk && left <= w.clients[c].disk[name]
    ensures var w' := Step(w, Kill(c, |left|));
      && |w'.clients| == |w.clients| && w'.server == w.server
      && w'.clients[c] == w.clients[c].(disk := w.clients[c].disk[name := left], task := Idle(Nothing), link := None)
      && forall d | 0 <= d < |w.clients| && d != c :: w'.clients[d] == w.clients[d]
  {
    assert w.clients[c].disk[name][..|left|] == left;
  }

  /** A stream may arrive in any pieces that fit the buffer. */
  lemma AnyPiece(left: nat, available: nat, n: nat)
    requires 1 <= n <= 8192 && n <= left && n <= available
    ensures Received(n, left, available) == n
  {
  }
}
