/** Where recovery misleads, with the runs: a name that is not a bare file name, and an identifier two clients share. */
module Limits {
  import opened Bytes
  import opened Messages
  import opened Exchange
  import opened Machine
  import opened Conversation
  import opened World
  import opened Progress
  import opened Wrappers
  import Deliveries

  /** Some run leads from the one state to the other. */
  ghost predicate Leads(w: World, w': World) {
    exists actions: seq<Action> :: Run(w, actions) == w'
  }

  lemma {:induction false} RunBoth(w: World, first: seq<Action>, second: seq<Action>)
    ensures Run(w, first + second) == Run(Run(w, first), second)
    decreases |first|
  {
    hide Step;
    if first == [] {
      assert first + second == second;
    } else {
      assert (first + second)[1..] == first[1..] + second;
      RunBoth(Step(w, first[0]), first[1..], second);
    }
  }

  lemma Onward(w: World, w1: World, a: Action)
    requires Leads(w, w1)
    ensures Leads(w, Step(w1, a))
  {
    hide Step;
    var actions: seq<Action> :| Run(w, actions) == w1;
    RunBoth(w, actions, [a]);
    Unroll(w1, [a]);
  }

  lemma Start(w: World)
    ensures Leads(w, w)
  {
    assert Run(w, []) == w;
  }

  lemma Throughout(w: World, w1: World, w2: World)
    requires Leads(w, w1) && Leads(w1, w2)
    ensures Leads(w, w2)
  {
    hide Step;
    var first: seq<Action> :| Run(w, first) == w1;
    var second: seq<Action> :| Run(w1, second) == w2;
    RunBoth(w, first, second);
  }

  lemma Acts(w0: World, w: World, c: nat, s: Server, client: Client, k: Link, call: ClientCall)
    requires 0 < w.accepted <= |w.links| && c < |w.clients| && client.link == Some(w.accepted - 1)
    requires Leads(w0, With(w, c, s, client, k))
    ensures var (client', k') := ClientStep(client, k, call);
      Leads(w0, With(w, c, s, client', k')) && client'.link == client.link
  {
    hide ClientStep, Leads;
    StepWith(w, c, s, client, k, call);
    Onward(w0, With(w, c, s, client, k), Act(c, call));
  }

  lemma Serves(w0: World, w: World, c: nat, s: Server, client: Client, k: Link, call: ServerCall)
    requires 0 < w.accepted <= |w.links| && c < |w.clients|
    requires Leads(w0, With(w, c, s, client, k))
    ensures var (s', k') := ServerStep(s, k, call); Leads(w0, With(w, c, s', client, k'))
  {
    hide ServerStep, Leads;
    ServeWith(w, c, s, client, k, call);
    Onward(w0, With(w, c, s, client, k), Serve(call));
  }

  // ---------------------------------------------------------------- one request

  /** The client is at its prompt, the server waits for its request, and nothing is under way. */
  predicate Quiet(w: World, c: nat) {
    && 0 < w.accepted == |w.links| && c < |w.clients|
    && w.clients[c].link == Some(w.accepted - 1) && w.clients[c].task.Idle?
    && w.server.pc == ReadingHeader(w.clients[c].mac)
    && var k := SessionLink(w); !k.cut && k.up == [] && k.down == []
  }

  lemma Parts(r: Request)
    requires WellFormed(r)
    ensures var code, body := Encode(r), Body(r);
      && |code| == HEADER_SIZE + |body| + |Content(r)| && OpOf(code) == OpCode(r) && SizeOf(code) == |body|
      && code[HEADER_SIZE..][..|body|] == body && code[HEADER_SIZE..][|body|..] == Content(r)
      && (r.Download? || r.Upload? ==> |body| > 0)
  {
    hide Encode, NumberAndName;
    RequestRoundTrip(r, []);
    assert Encode(r) + [] == Encode(r);
    assert Body(r) + Content(r) + [] == Body(r) + Content(r);
  }

  /** What the client is like while it waits, and the connection with the request on its way. */
  function Asking(c: Client, r: Request): Client {
    c.(disk := if r.Download? then c.disk[r.name := []] else c.disk,
       task := if r.Download? then AwaitReply(r) else Idle(Nothing))
  }

  function Asked(k: Link, r: Request): Link {
    k.(up := Encode(r), asked := k.asked + [r])
  }

  lemma PieceSent(c: Client, k: Link, r: Request, sent: nat, n: nat)
    requires c.task == Requesting(r, sent) && !k.cut && sent < |Encode(r)| && n == Piece(r, sent)
    requires k.up == Encode(r)[..sent]
    ensures ClientStep(c, k, SendPiece(true)) ==
      (c.(task := if sent + n < |Encode(r)| then Requesting(r, sent + n)
                  else if r.Upload? || r.Close? then Idle(Nothing)
                  else AwaitReply(r)),
       k.(up := Encode(r)[..sent + n]))
  {
    hide Encode, Piece;
    assert Encode(r)[..sent] + Encode(r)[sent..sent + n] == Encode(r)[..sent + n];
  }

  lemma Begins(c: Client, k: Link, r: Request)
    requires c.task.Idle? && WellFormed(r) && (r.Download? || r.Upload?) && (r.Download? ==> r.position == 0)
    ensures ClientStep(c, k, Ask(r, true)) == (Asking(c, r).(task := Requesting(r, 0)), k.(asked := k.asked + [r]))
  {
    hide WellFormed;
  }

  lemma PieceSizes(r: Request)
    requires WellFormed(r) && (r.Download? || r.Upload?) && |Content(r)| <= BUFFER_SIZE
    ensures var body := HEADER_SIZE + |Body(r)|;
      && |Encode(r)| == body + |Content(r)| && |Body(r)| > 0
      && Piece(r, 0) == HEADER_SIZE && Piece(r, HEADER_SIZE) == |Body(r)|
      && (Content(r) != [] ==> Piece(r, body) == |Content(r)|)
  {
    hide Encode, NumberAndName;
    Parts(r);
  }

  /** Sending a request: its header, its body, and a content that fits the buffer. */
  lemma Sent(w: World, c: nat, r: Request)
    requires Quiet(w, c) && WellFormed(r) && (r.Download? || r.Upload?)
    requires r.Download? ==> r.position == 0
    requires r.Upload? ==> 0 < |r.content| <= BUFFER_SIZE
    ensures Leads(w, With(w, c, w.server, Asking(w.clients[c], r), Asked(SessionLink(w), r)))
  {
    hide Encode, WellFormed, Leads, Body, Piece, ClientStep;
    var c0, k0, s, code := w.clients[c], SessionLink(w), w.server, Encode(r);
    var body := HEADER_SIZE + |Body(r)|;
    PieceSizes(r);
    Start(w);
    assert With(w, c, s, c0, k0) == w;
    Begins(c0, k0, r);
    Acts(w, w, c, s, c0, k0, Ask(r, true));
    var c1, k1 := Asking(c0, r), k0.(asked := k0.asked + [r]);
    PieceSent(c1.(task := Requesting(r, 0)), k1, r, 0, HEADER_SIZE);
    Acts(w, w, c, s, c1.(task := Requesting(r, 0)), k1, SendPiece(true));
    PieceSent(c1.(task := Requesting(r, HEADER_SIZE)), k1.(up := code[..HEADER_SIZE]), r, HEADER_SIZE, |Body(r)|);
    Acts(w, w, c, s, c1.(task := Requesting(r, HEADER_SIZE)), k1.(up := code[..HEADER_SIZE]), SendPiece(true));
    if r.Upload? {
      PieceSent(c1.(task := Requesting(r, body)), k1.(up := code[..body]), r, body, |r.content|);
      Acts(w, w, c, s, c1.(task := Requesting(r, body)), k1.(up := code[..body]), SendPiece(true));
    }
    assert code[..|code|] == code;
  }

  /** Reading it: its header and its body. */
  lemma ReadWhole(s: Server, k: Link, r: Request)
    requires s.pc.ReadingHeader? && k.up == Encode(r) && WellFormed(r) && (r.Download? || r.Upload?)
    ensures |Encode(r)| >= HEADER_SIZE
    ensures var s1, k1 := s.(pc := ReadingBody(s.pc.mac, OpCode(r), |Body(r)|)), k.(up := Encode(r)[HEADER_SIZE..]);
      && ServerStep(s, k, TakeHeader([])) == (s1, k1)
      && ServerStep(s1, k1, TakeBody([], [], 0))
           == Dispatch(s1, k.(up := Content(r)), s.pc.mac, OpCode(r), Body(r), [], [], 0)
  {
    hide Encode, Decode, Dispatch, Body, Content, SizeOf, OpOf, WellFormed, OpCode;
    Parts(r);
  }

  lemma UploadStarts(s: Server, k: Link, mac: Mac, r: Request)
    requires WellFormed(r) && r.Upload? && r.content != [] && r.name != [] && Accepted(s.files, r.name)
    ensures Dispatch(s, k, mac, OpCode(r), Body(r), [], [], 0) ==
      (s.(files := Written(s.files, r.name, []), dirty := s.dirty + {r.name},
          pc := Storing(mac, r.name, |r.content|, |r.content|)), k)
  {
    hide Decode, Body, OpCode;
    DecodeInverts(r);
  }

  lemma Stores(s: Server, k: Link, mac: Mac, name: Name, content: Bytes)
    requires name != [] && 0 < |content| <= BUFFER_SIZE && k.up == content
    ensures ServerStep(s.(files := Written(s.files, name, []), pc := Storing(mac, name, |content|, |content|)), k,
                       TakeContent(|content|, Reported)) ==
      (s.(files := Written(s.files, name, content), pc := ReadingHeader(mac)),
       k.(up := [], served := k.served + [Request.Upload(name, content)]))
  {
    hide Written;
    WrittenFound(s.files, name, []);
    WrittenAgain(s.files, name, [], content);
    assert [] + content == content && content[..|content|] == content && content[|content|..] == [];
  }

  /** A whole upload. */
  lemma Uploads(w: World, c: nat, name: Name, content: Bytes) returns (w': World)
    requires Quiet(w, c) && WellFormed(Request.Upload(name, content)) && 0 < |content| <= BUFFER_SIZE
    requires name != [] && Accepted(w.server.files, name)
    ensures Leads(w, w') && Quiet(w', c) && |w'.clients| == |w.clients|
    ensures w'.server.files == Written(w.server.files, name, content) && w'.server.stamps == w.server.stamps
    ensures w'.clients == w.clients[c := w.clients[c].(task := Idle(Nothing))]
  {
    hide Encode, WellFormed, Leads, Body, OpCode, ServerStep, Dispatch, Written, Accepted;
    var r, s := Request.Upload(name, content), w.server;
    var c1, k1, mac := Asking(w.clients[c], r), Asked(SessionLink(w), r), s.pc.mac;
    Sent(w, c, r);
    ReadWhole(s, k1, r);
    Serves(w, w, c, s, c1, k1, TakeHeader([]));
    var s2, k2 := s.(pc := ReadingBody(mac, OpCode(r), |Body(r)|)), k1.(up := Encode(r)[HEADER_SIZE..]);
    Serves(w, w, c, s2, c1, k2, TakeBody([], [], 0));
    UploadStarts(s2, k1.(up := content), mac, r);
    var s3 := s.(dirty := s.dirty + {name});
    Stores(s3, k1.(up := content), mac, name, content);
    Serves(w, w, c, s3.(files := Written(s.files, name, []), pc := Storing(mac, name, |content|, |content|)), c1,
           k1.(up := content), TakeContent(|content|, Reported));
    w' := With(w, c, s3.(files := Written(s.files, name, content), pc := ReadingHeader(mac)), c1,
               k1.(up := [], served := k1.served + [r]));
  }

  lemma DownloadStarts(s: Server, k: Link, mac: Mac, r: Request)
    requires WellFormed(r) && r.Download? && r.position == 0
    requires DownloadStatus(s.files, r.name).Ready? && Hosted(s.files, r.name) != []
    ensures var n := |Hosted(s.files, r.name)|;
      var reply := Response(Ready, [0, 0, 0, 0], n);
      Dispatch(s, k, mac, OpCode(r), Body(r), [], [], 0) ==
        (s.(pc := Replying(mac, reply, Sending(mac, r.name, 0, n, n))),
         k.(served := k.served + [r], due := reply + Hosted(s.files, r.name)))
  {
    hide Decode, Body, OpCode, Response, DownloadStatus;
    DecodeInverts(r);
    assert Tail(Hosted(s.files, r.name), 0) == Hosted(s.files, r.name);
  }

  lemma HeaderOut(s: Server, k: Link, reply: Bytes, next: Pc)
    requires s.pc.Replying? && s.pc.reply == reply && s.pc.next == next && !k.cut && k.down == []
    ensures ServerStep(s, k, Reply(true, Reported)) == (s.(pc := next), k.(down := reply))
  {
    assert [] + reply == reply;
  }

  /** The connection behind the header of a reply. */
  function Replied(w: World, r: Request): Link
    requires 0 < w.accepted <= |w.links| && r.Download?
  {
    var bytes := Hosted(w.server.files, r.name);
    var reply := Response(Ready, [0, 0, 0, 0], |bytes|);
    var k := SessionLink(w);
    k.(down := reply, asked := k.asked + [r], served := k.served + [r], due := reply + bytes)
  }

  /** A download as far as the header of its reply. */
  lemma Replies(w: World, c: nat, r: Request)
    requires Quiet(w, c) && WellFormed(r) && r.Download? && r.position == 0
    requires DownloadStatus(w.server.files, r.name).Ready? && Hosted(w.server.files, r.name) != []
    ensures var n := |Hosted(w.server.files, r.name)|;
      Leads(w, With(w, c, w.server.(pc := Sending(w.server.pc.mac, r.name, 0, n, n)), Asking(w.clients[c], r),
                    Replied(w, r)))
  {
    hide Encode, WellFormed, Leads, Body, OpCode, ServerStep, Dispatch, DownloadStatus, Hosted, Response;
    var s, mac := w.server, w.server.pc.mac;
    var c1, k1 := Asking(w.clients[c], r), Asked(SessionLink(w), r);
    var bytes := Hosted(s.files, r.name);
    var reply := Response(Ready, [0, 0, 0, 0], |bytes|);
    Sent(w, c, r);
    ReadWhole(s, k1, r);
    Serves(w, w, c, s, c1, k1, TakeHeader([]));
    var s2, k2 := s.(pc := ReadingBody(mac, OpCode(r), |Body(r)|)), k1.(up := Encode(r)[HEADER_SIZE..]);
    Serves(w, w, c, s2, c1, k2, TakeBody([], [], 0));
    DownloadStarts(s2, k1.(up := []), mac, r);
    var next := Sending(mac, r.name, 0, |bytes|, |bytes|);
    var s3, k3 := s.(pc := Replying(mac, reply, next)), k1.(up := [], served := k1.served + [r], due := reply + bytes);
    Serves(w, w, c, s3, c1, k3, Reply(true, Reported));
    HeaderOut(s3, k3, reply, next);
  }

  lemma LastChunk(s: Server, k: Link, mac: Mac, name: Name, reply: Bytes)
    requires 0 < |Hosted(s.files, name)| <= BUFFER_SIZE && !k.cut && k.down == reply
    ensures var n := |Hosted(s.files, name)|;
      ServerStep(s.(pc := Sending(mac, name, 0, n, n)), k, SendChunk(true)) ==
        (s.(pc := ReadingHeader(mac)), k.(down := reply + Hosted(s.files, name)))
  {
    hide Hosted;
    var bytes := Hosted(s.files, name);
    assert bytes[0..|bytes|] == bytes;
  }

  lemma HeaderIn(c: Client, k: Link, r: Request, bytes: Bytes)
    requires c.task == AwaitReply(r) && r.Download? && 0 < |bytes| < U64
    requires k.down == k.due == Response(Ready, [0, 0, 0, 0], |bytes|) + bytes
    ensures ClientStep(c, k, TakeReply(false)) ==
      (c.(task := Receiving(r.name, |bytes|)), k.(down := bytes, due := bytes))
  {
    hide Response, StatusOf, TotalOf;
    var reply := Response(Ready, [0, 0, 0, 0], |bytes|);
    ResponseFields(Ready, [0, 0, 0, 0], |bytes|, []);
    assert (reply + bytes)[..RESPONSE_SIZE] == reply + [];
    assert (reply + bytes)[RESPONSE_SIZE..] == bytes;
  }

  lemma DataIn(c: Client, k: Link, name: Name, bytes: Bytes)
    requires c.task == Receiving(name, |bytes|) && name in c.disk && c.disk[name] == [] && 0 < |bytes| <= BUFFER_SIZE
    requires k.down == k.due == bytes
    ensures ClientStep(c, k, TakeData(|bytes|)) ==
      (c.(disk := c.disk[name := bytes], task := Idle(Loaded(name))), k.(down := [], due := []))
  {
    assert bytes[..|bytes|] == bytes && bytes[|bytes|..] == [] && [] + bytes == bytes;
  }

  /** A whole download. */
  lemma Downloads(w: World, c: nat, name: Name) returns (w': World)
    requires Quiet(w, c) && WellFormed(Request.Download(0, name))
    requires DownloadStatus(w.server.files, name).Ready? && 0 < |Hosted(w.server.files, name)| <= BUFFER_SIZE
    ensures Leads(w, w') && Quiet(w', c) && |w'.clients| == |w.clients| && w'.server == w.server
    ensures var disk := w.clients[c].disk[name := Hosted(w.server.files, name)];
      w'.clients == w.clients[c := w.clients[c].(disk := disk, task := Idle(Loaded(name)))]
  {
    hide WellFormed, Leads, ServerStep, ClientStep, DownloadStatus, Hosted, Response;
    var r, s, bytes := Request.Download(0, name), w.server, Hosted(w.server.files, name);
    var c1, k1, n := Asking(w.clients[c], r), Replied(w, r), |bytes|;
    Replies(w, c, r);
    LastChunk(s, k1, s.pc.mac, name, k1.down);
    Serves(w, w, c, s.(pc := Sending(s.pc.mac, name, 0, n, n)), c1, k1, SendChunk(true));
    var k2 := k1.(down := k1.due);
    HeaderIn(c1, k2, r, bytes);
    Acts(w, w, c, s, c1, k2, TakeReply(false));
    var c3, k3 := c1.(task := Receiving(name, n)), k2.(down := bytes, due := bytes);
    DataIn(c3, k3, name, bytes);
    Acts(w, w, c, s, c3, k3, TakeData(n));
    assert c3.disk[name := bytes] == w.clients[c].disk[name := bytes];
    w' := With(w, c, s, c3.(disk := c3.disk[name := bytes], task := Idle(Loaded(name))), k3.(down := [], due := []));
  }

  lemma ChunkFails(s: Server, k: Link, mac: Mac, name: Name, n: nat)
    requires n == |Hosted(s.files, name)| > 0 && k.cut && s.stamps == map[]
    ensures ServerStep(s.(pc := Sending(mac, name, 0, n, n)), k, SendChunk(false)) ==
      (s.(stamps := map[mac := Stamp(name, 0)], ledger := s.ledger + [Made(mac, Stamp(name, 0))], pc := Accepting), k)
  {
    assert map[][mac := Stamp(name, 0)] == map[mac := Stamp(name, 0)];
  }

  lemma GivesUp(c: Client, k: Link, r: Request)
    requires c.task == AwaitReply(r) && r.Download? && k.cut && k.down == []
    ensures ClientStep(c, k, TakeReply(false)).0 == c.(disk := c.disk - {r.name}, task := Idle(Nothing))
  {
  }

  /** A download that breaks before any of the file has gone out. */
  lemma Breaks(w: World, c: nat, name: Name) returns (w': World)
    requires Quiet(w, c) && WellFormed(Request.Download(0, name)) && w.server.stamps == map[]
    requires DownloadStatus(w.server.files, name).Ready? && Hosted(w.server.files, name) != []
    ensures Leads(w, w') && |w'.clients| == |w.clients| && w'.accepted == |w'.links|
    ensures w'.server.pc.Accepting? && w'.server.files == w.server.files
    ensures w'.server.stamps == map[w.clients[c].mac := Stamp(name, 0)]
    ensures w'.clients == w.clients[c := w.clients[c].(disk := w.clients[c].disk - {name}, task := Idle(Nothing))]
  {
    hide WellFormed, Leads, ServerStep, ClientStep, DownloadStatus, Hosted, Response;
    var r, s, n := Request.Download(0, name), w.server, |Hosted(w.server.files, name)|;
    var c1, k1 := Asking(w.clients[c], r), Replied(w, r);
    var s1 := s.(pc := Sending(s.pc.mac, name, 0, n, n));
    Replies(w, c, r);
    Onward(w, With(w, c, s1, c1, k1), Cut(w.accepted - 1, 0, 0));
    var k2 := CutLink(k1, 0, 0);
    assert Step(With(w, c, s1, c1, k1), Cut(w.accepted - 1, 0, 0)) == With(w, c, s1, c1, k2);
    ChunkFails(s, k2, s.pc.mac, name, n);
    Serves(w, w, c, s1, c1, k2, SendChunk(false));
    GivesUp(c1, k2, r);
    Acts(w, w, c, ServerStep(s1, k2, SendChunk(false)).0, c1, k2, TakeReply(false));
    w' := With(w, c, ServerStep(s1, k2, SendChunk(false)).0, ClientStep(c1, k2, TakeReply(false)).0,
               ClientStep(c1, k2, TakeReply(false)).1);
    assert c1.disk - {name} == w.clients[c].disk - {name};
  }

  // ---------------------------------------------------------------- one session after the other

  lemma EndRead(s: Server, k: Link)
    requires s.pc.ReadingHeader? && k.cut && k.up == []
    ensures ServerStep(s, k, TakeHeader([])) == (s.(pc := Accepting), k)
  {
  }

  /** The connection breaks while nothing is going on. */
  lemma Leaves(w: World, c: nat) returns (w': World)
    requires Quiet(w, c)
    ensures Leads(w, w') && w'.clients == w.clients && w'.accepted == |w'.links|
    ensures w'.server == w.server.(pc := Accepting)
  {
    hide Leads, ServerStep;
    var s, k := w.server, CutLink(SessionLink(w), 0, 0);
    Start(w);
    Onward(w, w, Cut(w.accepted - 1, 0, 0));
    assert Step(w, Cut(w.accepted - 1, 0, 0)) == With(w, c, s, w.clients[c], k);
    EndRead(s, k);
    Serves(w, w, c, s, w.clients[c], k, TakeHeader([]));
    w' := With(w, c, s.(pc := Accepting), w.clients[c], k);
  }

  /** What greets whoever connects with the identifier. */
  function Welcome(s: Server, mac: Mac): Bytes {
    Greeting(s.stamps, mac, 0)
  }

  lemma Greeted(s: Server, k: Link, mac: Mac)
    requires s.pc.ReadingMac? && k.up == mac && !k.cut && k.down == []
    ensures var (s1, k1) := ServerStep(s, k, TakeMac(0, Reported));
      var (s2, k2) := ServerStep(s1, k1, Reply(true, Reported));
      && s2.pc == ReadingHeader(mac) && s2.files == s.files && s2.stamps == StampsAfterGreeting(s.stamps, mac)
      && k2 == k.(up := [], down := Welcome(s, mac), due := Welcome(s, mac),
                  offer := if mac in s.stamps then Some(s.stamps[mac]) else None)
  {
    hide Greeting;
    assert mac[..MAC_SIZE] == mac && mac[MAC_SIZE..] == [];
    assert [] + Welcome(s, mac) == Welcome(s, mac);
  }

  /** A client connects, is accepted and greeted. */
  lemma Arrives(w: World, c: nat) returns (w': World)
    requires w.server.pc.Accepting? && w.accepted == |w.links| && c < |w.clients| && w.clients[c].task.Idle?
    ensures Leads(w, w') && 0 < w'.accepted == |w'.links|
    ensures var mac := w.clients[c].mac;
      && w'.server.pc == ReadingHeader(mac) && w'.server.files == w.server.files
      && w'.server.stamps == StampsAfterGreeting(w.server.stamps, mac)
      && w'.clients == w.clients[c := w.clients[c].(task := AwaitGreeting, link := Some(w'.accepted - 1))]
      && SessionLink(w') == NewLink(c, mac).(up := [], down := Welcome(w.server, mac), due := Welcome(w.server, mac),
           offer := if mac in w.server.stamps then Some(w.server.stamps[mac]) else None)
  {
    hide Leads, ServerStep, Greeting;
    var mac := w.clients[c].mac;
    Start(w);
    Onward(w, w, Connect(c));
    Onward(w, Step(w, Connect(c)), Listen);
    var w1 := Step(Step(w, Connect(c)), Listen);
    var s, k := w1.server, SessionLink(w1);
    Greeted(s, k, mac);
    assert With(w1, c, s, w1.clients[c], k) == w1;
    Serves(w, w1, c, s, w1.clients[c], k, TakeMac(0, Reported));
    var (s1, k1) := ServerStep(s, k, TakeMac(0, Reported));
    Serves(w, w1, c, s1, w1.clients[c], k1, Reply(true, Reported));
    var (s2, k2) := ServerStep(s1, k1, Reply(true, Reported));
    w' := With(w1, c, s2, w1.clients[c], k2);
  }

  lemma NoOffer(c: Client, k: Link, s: Server)
    requires c.task.AwaitGreeting? && k.down == k.due == Welcome(s, c.mac) && c.mac !in s.stamps
    ensures ClientStep(c, k, TakeGreeting) == (c.(task := Idle(Nothing)), k.(down := [], due := []))
  {
  }

  /** Nothing is offered. */
  lemma Connects(w: World, c: nat) returns (w': World)
    requires w.server.pc.Accepting? && w.accepted == |w.links| && c < |w.clients| && w.clients[c].task.Idle?
    requires w.clients[c].mac !in w.server.stamps
    ensures Leads(w, w') && Quiet(w', c) && w'.server.files == w.server.files && w'.server.stamps == map[]
    ensures w'.clients == w.clients[c := w.clients[c].(task := Idle(Nothing), link := Some(w'.accepted - 1))]
  {
    hide Leads, ClientStep, Greeting;
    var w1 := Arrives(w, c);
    NoOffer(w1.clients[c], SessionLink(w1), w.server);
    assert With(w1, c, w1.server, w1.clients[c], SessionLink(w1)) == w1;
    Acts(w, w1, c, w1.server, w1.clients[c], SessionLink(w1), TakeGreeting);
    w' := With(w1, c, w1.server, ClientStep(w1.clients[c], SessionLink(w1), TakeGreeting).0,
               ClientStep(w1.clients[c], SessionLink(w1), TakeGreeting).1);
  }

  lemma OfferRead(c: Client, k: Link, stamp: Stamp)
    requires c.task.AwaitGreeting? && StampOk(stamp)
    requires k.down == k.due == Header(DOWNLOAD_RECOVERY, |StampBody(stamp)|) + StampBody(stamp)
    ensures var (c1, k1) := ClientStep(c, k, TakeGreeting);
      ClientStep(c1, k1, TakeStamp) == (c.(task := Deciding(FileName(stamp.path))), k.(down := [], due := []))
  {
    hide Header, NumberAndName, HasNumberAndName, NameOf, OpOf, SizeOf;
    var body := StampBody(stamp);
    HeaderRoundTrip(DOWNLOAD_RECOVERY, |body|, body);
    NumberAndNameRoundTrip(stamp.position, FileName(stamp.path), []);
    assert body + [] == body && body[..|body|] == body && body[|body|..] == [];
  }

  /** The stamp that stands is offered to whoever connects with the identifier it was made for, under the bare name. */
  lemma Reconnects(w: World, c: nat) returns (w': World)
    requires w.server.pc.Accepting? && w.accepted == |w.links| && c < |w.clients| && w.clients[c].task.Idle?
    requires w.clients[c].mac in w.server.stamps && StampOk(w.server.stamps[w.clients[c].mac])
    ensures Leads(w, w') && InSession(w', c) && w'.server.files == w.server.files
    ensures var name := FileName(w.server.stamps[w.clients[c].mac].path);
      w'.clients == w.clients[c := w.clients[c].(task := Deciding(name), link := Some(w'.accepted - 1))]
  {
    hide Leads, ClientStep, StampOk;
    var w1 := Arrives(w, c);
    var s, c1, k1 := w1.server, w1.clients[c], SessionLink(w1);
    OfferRead(c1, k1, w.server.stamps[w.clients[c].mac]);
    assert With(w1, c, s, c1, k1) == w1;
    Acts(w, w1, c, s, c1, k1, TakeGreeting);
    var (c2, k2) := ClientStep(c1, k1, TakeGreeting);
    Acts(w, w1, c, s, c2, k2, TakeStamp);
    w' := With(w1, c, s, ClientStep(c2, k2, TakeStamp).0, ClientStep(c2, k2, TakeStamp).1);
  }

  // ---------------------------------------------------------------- the two runs

  lemma GoesOn(w0: World, w: World, c: nat) returns (actions: seq<Action>)
    requires Initial(w0) && Leads(w0, w) && InSession(w, c) && w.clients[c].task.Deciding?
    requires var name := w.clients[c].task.name;
      && WellFormed(Request.Download(LocalSize(w.clients[c], name), name))
      && DownloadStatus(w.server.files, name).Ready? && !(CopyOf(w.clients[c], name) <= Hosted(w.server.files, name))
    ensures var w', name := Run(w0, actions), w.clients[c].task.name;
      && c < |w'.clients| && w'.clients[c].task == Idle(Loaded(name)) && w'.server.files == w.server.files
      && name in w'.clients[c].disk && w'.clients[c].disk[name] != Hosted(w.server.files, name)
  {
    hide Inv, Deliveries.CurrentSession, WellFormed, DownloadStatus, Step, Hosted;
    var first: seq<Action> :| Run(w0, first) == w;
    Deliveries.InitiallyCurrent(w0);
    Deliveries.SessionsCurrent(w0, first);
    var second := ResumeCanFinish(w, c);
    RunBoth(w0, first, second);
    actions := first + second;
  }

  /** A file of which the client has a whole copy is uploaded anew, with a content the copy is no first part of. */
  predicate Renewed(files: Files, name: Name, content: Bytes) {
    && name != [] && WellFormed(Request.Upload(name, content)) && Accepted(files, name)
    && DownloadStatus(files, name).Ready? && 0 < |Hosted(files, name)| <= BUFFER_SIZE
    && 0 < |content| <= BUFFER_SIZE && !(Hosted(files, name) <= content)
  }

  lemma RenewedReady(files: Files, name: Name, content: Bytes)
    requires Renewed(files, name, content)
    ensures var files' := Written(files, name, content);
      && DownloadStatus(files', name).Ready? && Hosted(files', name) == content
      && forall n | n != name :: Find(files', n) == Find(files, n)
    ensures WellFormed(Request.Download(|Hosted(files, name)|, name)) && WellFormed(Request.Download(0, name))
  {
  }

  /** The client downloads the file and uploads it anew. */
  lemma Renews(w: World, name: Name, content: Bytes) returns (w': World)
    requires Initial(w) && w.clients != [] && Renewed(w.server.files, name, content)
    ensures Leads(w, w') && Quiet(w', 0) && |w'.clients| == |w.clients| && w'.server.stamps == map[]
    ensures w'.server.files == Written(w.server.files, name, content)
    ensures w'.clients[0].mac == w.clients[0].mac && w'.clients[1..] == w.clients[1..]
    ensures w'.clients[0].disk == map[name := Hosted(w.server.files, name)] && w'.clients[0].task.Idle?
  {
    hide Leads, Quiet, WellFormed, Accepted, Written, DownloadStatus, Hosted;
    RenewedReady(w.server.files, name, content);
    assert w.clients[0] in w.clients;
    var w1 := Connects(w, 0);
    var w2 := Downloads(w1, 0, name);
    Throughout(w, w1, w2);
    w' := Uploads(w2, 0, name, content);
    Throughout(w, w2, w');
  }

  /** A stamp for a file in a directory is offered as one for a file of the same bare name. So a client that has a copy
      of that one, since replaced, and is interrupted in a download of the other, is offered to go on with its copy; and
      `Client::Download` returns Success on a mixture. */
  lemma NestedNameMisleads(w: World, path: Name, content: Bytes) returns (actions: seq<Action>)
    requires Initial(w) && w.clients != [] && WellFormed(Request.Download(0, path)) && path != FileName(path)
    requires DownloadStatus(w.server.files, path).Ready? && Hosted(w.server.files, path) != []
    requires Renewed(w.server.files, FileName(path), content)
    ensures var w', name := Run(w, actions), FileName(path);
      && w'.clients != [] && w'.clients[0].task == Idle(Loaded(name))
      && w'.server.files == Written(w.server.files, name, content)
      && name in w'.clients[0].disk && w'.clients[0].disk[name] != content
  {
    hide Leads, Quiet, Accepted, Written, InSession, Initial;
    var name := FileName(path);
    RenewedReady(w.server.files, name, content);
    var w1 := Renews(w, name, content);
    var w2 := Breaks(w1, 0, path);
    Throughout(w, w1, w2);
    var w3 := Reconnects(w2, 0);
    Throughout(w, w2, w3);
    actions := GoesOn(w, w3, 0);
  }

  /** A stamp is offered to whoever connects with the identifier. So of two clients that share one - two on one machine,
      say, each with a directory of its own - one is offered what the other was downloading; and if its copy of that is
      an old one, `Client::Download` returns Success on a mixture. */
  lemma SharedIdentifierMisleads(w: World, name: Name, content: Bytes) returns (actions: seq<Action>)
    requires Initial(w) && |w.clients| >= 2 && w.clients[0].mac == w.clients[1].mac
    requires SLASH !in name && Renewed(w.server.files, name, content)
    ensures var w' := Run(w, actions);
      && w'.clients != [] && w'.clients[0].task == Idle(Loaded(name))
      && w'.server.files == Written(w.server.files, name, content)
      && name in w'.clients[0].disk && w'.clients[0].disk[name] != content
  {
    hide Leads, Quiet, Accepted, Written, InSession, DownloadStatus, Hosted;
    RenewedReady(w.server.files, name, content);
    assert w.clients[1] in w.clients;
    var w1 := Renews(w, name, content);
    assert w1.clients[1] == w1.clients[1..][0] == w.clients[1..][0];
    var w2 := Leaves(w1, 0);
    Throughout(w, w1, w2);
    var w3 := Connects(w2, 1);
    Throughout(w, w2, w3);
    var w4 := Breaks(w3, 1, name);
    Throughout(w, w3, w4);
    var w5 := Reconnects(w4, 0);
    Throughout(w, w4, w5);
    actions := GoesOn(w, w5, 0);
  }

  /** An input of each kind: "a/f" behind "f", and one "f" for two clients; "f" holds 1 first and then 2, 2. */
  lemma Inputs(w: World) returns (nested: seq<Action>, shared: seq<Action>)
    requires Initial(w) && |w.clients| >= 2 && w.clients[0].mac == w.clients[1].mac
    requires w.server.files == map[[102] := Regular([1], true, true), [97, 47, 102] := Regular([9], true, true)]
    ensures var (w1, w2) := (Run(w, nested), Run(w, shared));
      && w1.clients != [] && w1.clients[0].task == Idle(Loaded([102])) && [102] in w1.server.files
      && w1.server.files[[102]] == Regular([2, 2], true, true)
      && [102] in w1.clients[0].disk && w1.clients[0].disk[[102]] != [2, 2]
      && w2.clients != [] && w2.clients[0].task == Idle(Loaded([102])) && [102] in w2.server.files
      && w2.server.files[[102]] == Regular([2, 2], true, true)
      && [102] in w2.clients[0].disk && w2.clients[0].disk[[102]] != [2, 2]
  {
    hide Initial, Run;
    var f: Name, path: Name := [102], [97, 47, 102];
    BaseName([97], f);
    assert [97] + [47] + f == path;
    hide FileName;
    assert Renewed(w.server.files, f, [2, 2]) by {
      var first: Bytes, second: Bytes := [1], [2, 2];
      assert first[0] != second[0];
    }
    nested := NestedNameMisleads(w, path, [2, 2]);
    shared := SharedIdentifierMisleads(w, f, [2, 2]);
  }
}
