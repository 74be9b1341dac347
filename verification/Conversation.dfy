/** What holds between the two ends of one connection and the bytes between them, and why every
    call of either end keeps it. */
module Conversation {
  import opened Bytes
  import opened Messages
  import opened Exchange
  import opened Machine
  import opened Wrappers

  function Last<T>(s: seq<T>): T
    requires s != []
  {
    s[|s| - 1]
  }

  /** A request without a reply. */
  predicate Quiet(r: Request) {
    r.Upload? || r.Close?
  }

  predicate AllQuiet(rs: seq<Request>) {
    forall r | r in rs :: Quiet(r)
  }

  /** What the server has decoded so far is a first part of what the client asked for. */
  predicate ServedInOrder(asked: seq<Request>, served: seq<Request>) {
    |served| <= |asked| && served == asked[..|served|]
  }

  /** The requests the server has not finished with. */
  function Todo(k: Link): seq<Request> {
    if |k.served| <= |k.asked| then k.asked[|k.served|..] else []
  }

  /** The more is served, the less is left to do. */
  lemma TodoShrinks(k: Link, k': Link)
    requires k'.asked == k.asked && |k.served| <= |k'.served| && |k.served| <= |k.asked|
    ensures forall r | r in Todo(k') :: r in Todo(k)
  {
    forall i | |k'.served| <= i < |k.asked| ensures k.asked[i] in Todo(k) {
      assert k.asked[i] == Todo(k)[i - |k.served|];
    }
  }

  /** The server is past the session: it will not touch this stream again. */
  predicate Over(pc: Pc) {
    pc.Accepting? || pc.Undefined?
  }

  /** A download in progress stands inside a file that can be read. */
  predicate SendingFits(pc: Pc, files: Files)
    requires pc.Sending?
  {
    && DownloadStatus(files, pc.name).Ready?
    && pc.start + pc.total == |Hosted(files, pc.name)|
    && 0 < pc.left <= pc.total
    && StampOk(Stamp(pc.name, pc.start + pc.total - 1))   // so that a stamp made in any round fits
  }

  /** The first request left to do is an upload of which `left` bytes of content are still to come. */
  predicate UploadFits(todo: seq<Request>, left: nat) {
    todo != [] && todo[0].Upload? && 0 < left <= |todo[0].content|
  }

  /** What the server has decoded is what the client put into the stream. */
  predicate ServerFits(todo: seq<Request>, pc: Pc, files: Files) {
    match pc
    case ReadingBody(_, op, size) => todo != [] && op == OpCode(todo[0]) && size == |Body(todo[0])|
    case Replying(mac, reply, next) =>
      && reply != []
      && (next.ReadingHeader? || (next.Sending? && SendingFits(next, files) && next.left == next.total))
    case Sending(_, _, _, _, _) => SendingFits(pc, files)
    case Storing(_, name, size, left) =>
      && UploadFits(todo, left)
      && todo[0].name == name && name != [] && size == |todo[0].content|
      && Find(files, name).Regular? && Accepted(files, name)
      && Hosted(files, name) == todo[0].content[..size - left]
    case Ignoring(_, left) => UploadFits(todo, left) && !Accepted(files, todo[0].name)
    case _ => true
  }

  function LastOf(s: Bytes, n: nat): Bytes
    requires n <= |s|
  {
    s[|s| - n..]
  }

  function UnreadUpload(todo: seq<Request>, left: nat): Bytes {
    if UploadFits(todo, left) then LastOf(todo[0].content, left) + EncodeAll(todo[1..]) else []
  }

  /** What the server would still read if everything the client has asked for were delivered. */
  function Unread(mac: Mac, todo: seq<Request>, pc: Pc): Bytes {
    match pc
    case ReadingMac => mac + EncodeAll(todo)
    case ReadingBody(_, _, _) => if todo == [] then [] else Body(todo[0]) + Content(todo[0]) + EncodeAll(todo[1..])
    case Storing(_, _, _, left) => UnreadUpload(todo, left)
    case Ignoring(_, left) => UnreadUpload(todo, left)
    case _ => EncodeAll(todo)
  }

  /** The bytes under way to the server and those the client is still sending are what it has yet to read. */
  predicate UpOk(unread: Bytes, up: Bytes, outgoing: Bytes, cut: bool) {
    && up <= unread
    && |up| + |outgoing| <= |unread|
    && (!cut ==> up + outgoing == unread)
  }

  /** What the server has promised and not yet sent. */
  function Unsent(pc: Pc, files: Files): Bytes {
    match pc
    case Replying(_, reply, next) => reply + (if next.Sending? then Tail(Hosted(files, next.name), next.start) else [])
    case Sending(_, name, _, _, left) =>
      if left <= |Hosted(files, name)| then LastOf(Hosted(files, name), left) else []
    case _ => []
  }

  /** What the client has begun and not yet sent. */
  function Outgoing(who: Option<Client>): Bytes {
    if who.Some? && who.value.task.Requesting? && who.value.task.sent <= |Encode(who.value.task.request)|
    then Encode(who.value.task.request)[who.value.task.sent..]
    else []
  }

  predicate GreetingOk(due: Bytes, offer: Option<Stamp>) {
    match offer
    case Some(stamp) => StampOk(stamp) && due == Header(DOWNLOAD_RECOVERY, |StampBody(stamp)|) + StampBody(stamp)
    case None => |due| == HEADER_SIZE && OpOf(due) == NONE
  }

  /** A download's reply announces exactly the bytes that follow it. */
  predicate WholeReply(due: Bytes) {
    && |due| >= RESPONSE_SIZE
    && |due| == RESPONSE_SIZE + (if StatusOf(due) == StatusCode(Ready) then TotalOf(due) else 0)
  }

  predicate Owed(r: Request, due: Bytes, files: Files, dirty: set<Name>) {
    match r
    case Download(start, name) => WholeReply(due) && (name !in dirty ==> AnswersDownload(files, name, start, due))
    case _ => Answers(files, r, due)
  }

  /** The local file a download request continues has the length the request gives. */
  predicate Prepared(c: Client, r: Request) {
    r.Download? ==> r.name in c.disk && |c.disk[r.name]| == r.position
  }

  /** Nothing is due and every request before the `n` last ones needs no reply. */
  predicate Settled(k: Link, n: nat) {
    && k.down == []
    && (!k.cut ==> k.due == [] && n <= |Todo(k)| && AllQuiet(Todo(k)[..|Todo(k)| - n]))
  }

  predicate ClientFits(c: Client, k: Link, files: Files, dirty: set<Name>) {
    match c.task
    case Idle(_) => Settled(k, 0)
    case AwaitGreeting => k.asked == [] && k.down <= k.due && (k.due == [] || GreetingOk(k.due, k.offer))
    case AwaitStamp(size) =>
      && k.asked == [] && k.down <= k.due
      && k.offer.Some? && StampOk(k.offer.value) && k.due == StampBody(k.offer.value) && |k.due| == size
    case Deciding(name) =>
      k.asked == [] && Settled(k, 0) && k.offer.Some? && name == FileName(k.offer.value.path)
    case Requesting(r, sent) =>
      && |k.served| < |k.asked| && Last(k.asked) == r
      && sent < |Encode(r)| && Prepared(c, r) && Settled(k, 1)
    case AwaitReply(r) =>
      && k.asked != [] && Last(k.asked) == r && !Quiet(r) && Prepared(c, r)
      && (if |k.served| < |k.asked| then Settled(k, 1) else k.down <= k.due && Owed(r, k.due, files, dirty))
    case Receiving(name, left) =>
      && k.asked != [] && |k.served| == |k.asked| && Last(k.asked).Download? && Last(k.asked).name == name
      && name in c.disk && left > 0
      && |k.due| == left && k.down <= k.due
      && (name !in dirty ==> c.disk[name] + k.due == Hosted(files, name))
  }

  /** The server has not read the identifier yet. */
  predicate Unseen(k: Link) {
    k.served == [] && k.due == [] && k.down == [] && k.offer.None?
  }

  /** The server's half of the invariant. */
  predicate Wire(k: Link, pc: Pc, files: Files, outgoing: Bytes) {
    && ServedInOrder(k.asked, k.served)
    && AllWellFormed(k.asked)
    && ServerFits(Todo(k), pc, files)
    && (pc.ReadingMac? ==> Unseen(k))
    && (!Over(pc) ==> UpOk(Unread(k.mac, Todo(k), pc), k.up, outgoing, k.cut))
    && (!k.cut ==> k.down + Unsent(pc, files) == k.due)
  }

  /** The client's half; a client that has left has closed its end. */
  predicate Peer(k: Link, pc: Pc, files: Files, dirty: set<Name>, who: Option<Client>) {
    match who
    case None => k.cut
    case Some(c) => ClientFits(c, k, files, dirty) && (pc.ReadingMac? && !k.cut ==> c.task.AwaitGreeting?)
  }

  /** The invariant of one connection; `who` is the client still holding its other end. */
  predicate Talk(k: Link, pc: Pc, files: Files, dirty: set<Name>, who: Option<Client>) {
    Wire(k, pc, files, Outgoing(who)) && Peer(k, pc, files, dirty, who)
  }

  lemma OrderKept(k: Link, pc: Pc, files: Files, dirty: set<Name>, who: Option<Client>)
    requires Talk(k, pc, files, dirty, who)
    ensures ServedInOrder(k.asked, k.served) && AllWellFormed(k.asked)
  {
  }

  /** Every local copy is a first part of the hosted file, and all of it when the client said so. */
  predicate DiskOk(c: Client, files: Files, dirty: set<Name>) {
    && (forall n | n in c.disk && n !in dirty :: c.disk[n] <= Hosted(files, n))
    && (c.task.Idle? && c.task.last.Loaded? ==>
          var n := c.task.last.name;
          n in c.disk && (n !in dirty ==> c.disk[n] == Hosted(files, n)))
    && (c.task.Idle? && c.task.last.Echoed? ==> c.task.last.data == c.task.last.sent)
  }

  /** Only names an upload has opened may have changed. */
  ghost predicate Agree(files: Files, files': Files, dirty: set<Name>, dirty': set<Name>) {
    && dirty <= dirty'
    && forall n | n !in dirty' :: Find(files, n) == Find(files', n)
  }

  /** A client and its connection, in order. */
  predicate Sound(p: (Client, Link), pc: Pc, files: Files, dirty: set<Name>) {
    Talk(p.1, pc, files, dirty, Some(p.0)) && DiskOk(p.0, files, dirty)
  }

  // ---------------------------------------------------------------- the client's calls

  /** Reading what is due leaves the server's half alone. */
  lemma TakeDownWire(k: Link, pc: Pc, files: Files, n: nat)
    requires Wire(k, pc, files, []) && n <= |k.down| && k.down <= k.due
    ensures Wire(TakeDown(k, n), pc, files, [])
    ensures TakeDown(k, n).down <= TakeDown(k, n).due
  {
    var k' := TakeDown(k, n);
    assert k'.due == k.due[n..];
    assert Todo(k') == Todo(k);
    if !k.cut {
      assert k'.down + Unsent(pc, files) == k'.due;
    }
  }

  /** At the end of a stream whatever is left of it may be dropped. */
  lemma DropDownWire(k: Link, pc: Pc, files: Files)
    requires Wire(k, pc, files, []) && k.cut
    ensures Wire(k.(down := []), pc, files, [])
  {
    assert Todo(k.(down := [])) == Todo(k);
  }

  lemma GreetingRead(due: Bytes, down: Bytes, offer: Option<Stamp>)
    requires GreetingOk(due, offer) && down <= due && |down| >= HEADER_SIZE
    ensures match offer
      case Some(stamp) =>
        && OpOf(down) == DOWNLOAD_RECOVERY && SizeOf(down) == |StampBody(stamp)|
        && due[HEADER_SIZE..] == StampBody(stamp)
      case None => OpOf(down) == NONE && due[HEADER_SIZE..] == []
  {
    assert down[2..4] == due[2..4];
    if offer.Some? {
      HeaderRoundTrip(DOWNLOAD_RECOVERY, |StampBody(offer.value)|, StampBody(offer.value));
    }
  }

  /** At the end of a stream a client that stops waiting is in order again. */
  lemma StopFits(c: Client, k: Link, files: Files, dirty: set<Name>, disk: map<Name, Bytes>, last: Outcome)
    requires k.cut && DiskOk(c, files, dirty) && !last.Loaded? && !last.Echoed?
    requires forall n | n in disk :: n in c.disk && disk[n] == c.disk[n]
    ensures var c' := c.(disk := disk, task := Idle(last));
      ClientFits(c', k.(down := []), files, dirty) && DiskOk(c', files, dirty) && Outgoing(Some(c')) == []
  {
  }

  lemma DueSeen(k: Link, pc: Pc, files: Files)
    requires Wire(k, pc, files, []) && k.due != []
    ensures !pc.ReadingMac?
  {
  }

  lemma GreetingFits(c: Client, k: Link, files: Files, dirty: set<Name>)
    requires c.task.AwaitGreeting? && ClientFits(c, k, files, dirty) && |k.down| >= HEADER_SIZE
    ensures var (c', k') := ReadGreeting(c, k);
      ClientFits(c', k', files, dirty) && k.down <= k.due && k.due != []
  {
    GreetingRead(k.due, k.down, k.offer);
    hide Header, StampBody, OpOf, SizeOf;
    assert k.down[HEADER_SIZE..] <= k.due[HEADER_SIZE..];
  }

  lemma GreetingKeeps(c: Client, k: Link, pc: Pc, files: Files, dirty: set<Name>)
    requires Sound((c, k), pc, files, dirty) && c.task.AwaitGreeting?
    ensures Sound(ReadGreeting(c, k), pc, files, dirty)
  {
    hide ClientFits;
    if |k.down| >= HEADER_SIZE {
      GreetingFits(c, k, files, dirty);
      TakeDownWire(k, pc, files, HEADER_SIZE);
      hide Wire;
      assert !pc.ReadingMac? by { DueSeen(k, pc, files); }
    } else if k.cut {
      DropDownWire(k, pc, files);
      StopFits(c, k, files, dirty, c.disk, Nothing);
      hide Wire;
    }
  }

  lemma StampFits(c: Client, k: Link, files: Files, dirty: set<Name>)
    requires c.task.AwaitStamp? && ClientFits(c, k, files, dirty) && |k.down| >= c.task.size
    ensures var (c', k') := ReadStamp(c, k, c.task.size);
      ClientFits(c', k', files, dirty) && k.down <= k.due && k.due != [] && c'.task.Deciding?
  {
    var size, stamp := c.task.size, k.offer.value;
    NumberAndNameRoundTrip(stamp.position, FileName(stamp.path), []);
    assert k.down[..size] == StampBody(stamp) + [];
    hide NumberAndName, HasNumberAndName, NameOf;
    assert k.due[size..] == [];
  }

  lemma StampKeeps(c: Client, k: Link, pc: Pc, files: Files, dirty: set<Name>)
    requires Sound((c, k), pc, files, dirty) && c.task.AwaitStamp?
    ensures Sound(ReadStamp(c, k, c.task.size), pc, files, dirty)
  {
    hide ClientFits, HasNumberAndName, NameOf;
    if |k.down| >= c.task.size {
      StampFits(c, k, files, dirty);
      TakeDownWire(k, pc, files, c.task.size);
      hide Wire;
      assert !pc.ReadingMac? by { DueSeen(k, pc, files); }
    } else if k.cut {
      DropDownWire(k, pc, files);
      StopFits(c, k, files, dirty, c.disk, Nothing);
      hide Wire;
    }
  }

  lemma LaterAppended(todo: seq<Request>, r: Request)
    requires todo != []
    ensures EncodeAll((todo + [r])[1..]) == EncodeAll(todo[1..]) + Encode(r)
  {
    hide Encode;
    assert (todo + [r])[1..] == todo[1..] + [r];
    EncodeAllAppend(todo[1..], r);
  }

  lemma UnreadGrows(mac: Mac, todo: seq<Request>, pc: Pc, files: Files, r: Request)
    requires ServerFits(todo, pc, files)
    ensures ServerFits(todo + [r], pc, files)
    ensures Unread(mac, todo + [r], pc) == Unread(mac, todo, pc) + Encode(r)
  {
    hide Encode, EncodeAll, Body, Content, Accepted, Hosted, Find, LastOf, SendingFits;
    var code := Encode(r);
    EncodeAllAppend(todo, r);
    AddedInTwo(mac, EncodeAll(todo), code);
    if todo != [] {
      LaterAppended(todo, r);
      AddedInTwo(Body(todo[0]) + Content(todo[0]), EncodeAll(todo[1..]), code);
      if (pc.Storing? || pc.Ignoring?) && UploadFits(todo, pc.left) {
        AddedInTwo(LastOf(todo[0].content, pc.left), EncodeAll(todo[1..]), code);
      }
    }
  }

  lemma UpGrows(unread: Bytes, up: Bytes, cut: bool, code: Bytes)
    ensures UpOk(unread, up, [], cut) ==> UpOk(unread + code, up, code, cut)
  {
  }

  lemma BeginWire(k: Link, pc: Pc, files: Files, r: Request)
    requires Wire(k, pc, files, []) && WellFormed(r)
    ensures Wire(k.(asked := k.asked + [r]), pc, files, Encode(r))
    ensures Todo(k.(asked := k.asked + [r])) == Todo(k) + [r]
  {
    hide Encode, NumberAndName, UpOk, Unread, Unsent, ServerFits;
    assert Todo(k.(asked := k.asked + [r])) == Todo(k) + [r];
    UnreadGrows(k.mac, Todo(k), pc, files, r);
    UpGrows(Unread(k.mac, Todo(k), pc), k.up, k.cut, Encode(r));
  }

  lemma BeginDisk(c: Client, k: Link, files: Files, dirty: set<Name>, r: Request)
    requires DiskOk(c, files, dirty)
    requires r.Download? ==> r.position == 0 || r.position == LocalSize(c, r.name)
    ensures DiskOk(Begin(c, k, r).0, files, dirty) && Prepared(Begin(c, k, r).0, r)
  {
    hide Encode;
  }

  /** The client's half after a request has been begun. */
  lemma BeginFits(c: Client, k: Link, files: Files, dirty: set<Name>, r: Request)
    requires Settled(k, 0) && DiskOk(c, files, dirty) && ServedInOrder(k.asked, k.served)
    requires Todo(k.(asked := k.asked + [r])) == Todo(k) + [r]
    requires r.Download? ==> r.position == 0 || r.position == LocalSize(c, r.name)
    ensures var (c', k') := Begin(c, k, r);
      ClientFits(c', k', files, dirty) && DiskOk(c', files, dirty) && Outgoing(Some(c')) == Encode(r)
  {
    hide DiskOk, Prepared;
    BeginDisk(c, k, files, dirty, r);
    var k' := k.(asked := k.asked + [r]);
    assert |Encode(r)| >= HEADER_SIZE;
    hide Encode;
    assert Todo(k')[..|Todo(k')| - 1] == Todo(k)[..|Todo(k)|];
    assert Encode(r)[0..] == Encode(r);
  }

  lemma BeginKeeps(c: Client, k: Link, pc: Pc, files: Files, dirty: set<Name>, r: Request)
    requires Sound((c, k), pc, files, dirty) && WellFormed(r)
    requires c.task.Idle? || c.task.Deciding?
    requires r.Download? ==> r.position == 0 || r.position == LocalSize(c, r.name)
    ensures Sound(Begin(c, k, r), pc, files, dirty)
  {
    BeginWire(k, pc, files, r);
    BeginFits(c, k, files, dirty, r);
  }

  lemma PieceMoved(unread: Bytes, up: Bytes, code: Bytes, sent: nat, n: nat, cut: bool)
    requires sent + n <= |code|
    ensures UpOk(unread, up, code[sent..], cut) ==>
      UpOk(unread, if cut then up else up + code[sent..sent + n], code[sent + n..], cut)
  {
    assert code[sent..] == code[sent..sent + n] + code[sent + n..];
    assert up + code[sent..] == up + code[sent..sent + n] + code[sent + n..];
  }

  lemma PieceWire(k: Link, pc: Pc, files: Files, code: Bytes, sent: nat, n: nat)
    requires sent + n <= |code| && Wire(k, pc, files, code[sent..])
    ensures Wire(if k.cut then k else k.(up := k.up + code[sent..sent + n]), pc, files, code[sent + n..])
  {
    hide UpOk, Unread, Unsent, ServerFits;
    PieceMoved(Unread(k.mac, Todo(k), pc), k.up, code, sent, n, k.cut);
    assert Todo(k.(up := k.up + code[sent..sent + n])) == Todo(k);
  }

  /** The client's half after a piece of a request has been sent, or refused. */
  lemma PieceFits(c: Client, k: Link, files: Files, dirty: set<Name>, accepted: bool)
    requires c.task.Requesting? && ClientFits(c, k, files, dirty) && DiskOk(c, files, dirty)
    ensures var r, sent := c.task.request, c.task.sent;
      var (c', k') := SendNext(c, k, r, sent, accepted);
      && ClientFits(c', k', files, dirty) && DiskOk(c', files, dirty)
      && Outgoing(Some(c')) == if k.cut && !accepted then [] else Encode(r)[sent + Piece(r, sent)..]
  {
    hide Encode, NumberAndName, Owed, GreetingOk, Hosted, Piece, StampBody;
    var r := c.task.request;
    assert Todo(k) == Todo(k)[..|Todo(k)| - 1] + [r];
    assert Todo(k)[..|Todo(k)|] == Todo(k);
    assert Encode(r)[|Encode(r)|..] == [];
  }

  lemma CutWire(k: Link, pc: Pc, files: Files, outgoing: Bytes)
    requires Wire(k, pc, files, outgoing) && k.cut
    ensures Wire(k, pc, files, [])
  {
  }

  lemma PieceKeeps(c: Client, k: Link, pc: Pc, files: Files, dirty: set<Name>, accepted: bool)
    requires Sound((c, k), pc, files, dirty) && c.task.Requesting?
    ensures Sound(SendNext(c, k, c.task.request, c.task.sent, accepted), pc, files, dirty)
  {
    hide ClientFits, DiskOk, Encode, Wire;
    var r, sent := c.task.request, c.task.sent;
    PieceFits(c, k, files, dirty, accepted);
    if k.cut && !accepted {
      CutWire(k, pc, files, Outgoing(Some(c)));
    } else {
      PieceWire(k, pc, files, Encode(r), sent, Piece(r, sent));
    }
  }

  /** A copy of which `|copy|` bytes are there is completed by the reply to a download from that position. */
  lemma ReplyCompletes(files: Files, name: Name, copy: Bytes, due: Bytes)
    requires copy <= Hosted(files, name) && AnswersDownload(files, name, |copy|, due)
    requires StatusOf(due) == StatusCode(Ready)
    ensures copy + due[RESPONSE_SIZE..] == Hosted(files, name)
    ensures TotalOf(due) == |due| - RESPONSE_SIZE
  {
    var hosted := Hosted(files, name);
    assert hosted == hosted[..|copy|] + hosted[|copy|..];
  }

  /** The client's half after a reply that was read whole. */
  lemma AcceptFits(c: Client, k: Link, files: Files, dirty: set<Name>)
    requires c.task.AwaitReply? && ClientFits(c, k, files, dirty) && DiskOk(c, files, dirty)
    requires |k.served| == |k.asked| && |k.down| >= ReplySize(c.task.request)
    requires !k.cut ==> k.down <= k.due
    ensures var r := c.task.request;
      var c' := Accept(c, r, k.down[..ReplySize(r)]);
      ClientFits(c', TakeDown(k, ReplySize(r)), files, dirty) && DiskOk(c', files, dirty) && Outgoing(Some(c')) == []
  {
    hide Encode, NumberAndName, StatusOf, TotalOf, GreetingOk, Hosted;
    var r := c.task.request;
    var k' := TakeDown(k, ReplySize(r));
    assert k.down[..ReplySize(r)] == k.due[..ReplySize(r)];
    assert k'.due == k.due[ReplySize(r)..];
    assert Todo(k') == [];
    if r.Download? {
      ResponseRead(k.due, k.down[..RESPONSE_SIZE]);
      if StatusOf(k.due) == StatusCode(Ready) && r.name !in dirty {
        ReplyCompletes(files, r.name, c.disk[r.name], k.due);
      }
    }
  }

  /** A reply long enough to be read whole is the one that is owed. */
  lemma ReplyReady(c: Client, k: Link, files: Files, dirty: set<Name>)
    requires c.task.AwaitReply? && ClientFits(c, k, files, dirty)
    requires ServedInOrder(k.asked, k.served) && AllWellFormed(k.asked)
    requires |k.down| >= ReplySize(c.task.request)
    ensures |k.served| == |k.asked| && k.down <= k.due
  {
    assert c.task.request in k.asked && WellFormed(c.task.request);
  }

  lemma ReplyKeeps(c: Client, k: Link, pc: Pc, files: Files, dirty: set<Name>, stale: bool)
    requires Sound((c, k), pc, files, dirty) && c.task.AwaitReply?
    ensures Sound(ReadReply(c, k, c.task.request, stale), pc, files, dirty)
  {
    hide ClientFits, DiskOk, Accept;
    var r := c.task.request;
    if |k.down| >= ReplySize(r) {
      ReplyReady(c, k, files, dirty);
      TakeDownWire(k, pc, files, ReplySize(r));
      AcceptFits(c, k, files, dirty);
    } else if k.cut {
      DropDownWire(k, pc, files);
      var c' := ReadReply(c, k, r, stale).0;
      StopFits(c, k, files, dirty, c'.disk, c'.task.last);
    }
  }

  lemma DataFits(c: Client, k: Link, files: Files, dirty: set<Name>, n: nat)
    requires c.task.Receiving? && ClientFits(c, k, files, dirty) && DiskOk(c, files, dirty)
    requires 1 <= n <= c.task.left && n <= |k.down|
    ensures var name := c.task.name;
      var c' := c.(disk := c.disk[name := c.disk[name] + k.down[..n]],
                   task := if c.task.left == n then Idle(Loaded(name)) else Receiving(name, c.task.left - n));
      ClientFits(c', TakeDown(k, n), files, dirty) && DiskOk(c', files, dirty)
  {
    hide Encode, NumberAndName;
    var name := c.task.name;
    assert Todo(TakeDown(k, n)) == [];
    assert k.due == k.down[..n] + k.due[n..];
    assert (c.disk[name] + k.down[..n]) + k.due[n..] == c.disk[name] + k.due;
  }

  lemma DataKeeps(c: Client, k: Link, pc: Pc, files: Files, dirty: set<Name>, wanted: nat)
    requires Sound((c, k), pc, files, dirty) && c.task.Receiving?
    ensures Sound(ReadData(c, k, c.task.name, c.task.left, wanted), pc, files, dirty)
  {
    if k.down != [] {
      var n := Received(wanted, c.task.left, |k.down|);
      TakeDownWire(k, pc, files, n);
      DataFits(c, k, files, dirty, n);
    } else if k.cut {
      DropDownWire(k, pc, files);
    }
  }

  lemma DecideKeeps(c: Client, k: Link, pc: Pc, files: Files, dirty: set<Name>, yes: bool, canOpen: bool)
    requires Sound((c, k), pc, files, dirty) && c.task.Deciding?
    ensures Sound(Decide(c, k, c.task.name, yes, canOpen), pc, files, dirty)
  {
    var r := Request.Download(LocalSize(c, c.task.name), c.task.name);
    if yes && canOpen && WellFormed(r) {
      BeginKeeps(c, k, pc, files, dirty, r);
    } else {
      assert Todo(k) == [];
    }
  }

  lemma CommandKeeps(c: Client, k: Link, pc: Pc, files: Files, dirty: set<Name>, r: Request, canOpen: bool)
    requires Sound((c, k), pc, files, dirty) && c.task.Idle?
    ensures Sound(Command(c, k, r, canOpen), pc, files, dirty)
  {
    if WellFormed(r) && (r.Download? ==> r.position == 0 && canOpen) {
      BeginKeeps(c, k, pc, files, dirty, r);
    }
  }

  /** Every call of the client keeps the connection's invariant and its own directory's. */
  lemma ClientKeeps(c: Client, k: Link, pc: Pc, files: Files, dirty: set<Name>, call: ClientCall)
    requires Sound((c, k), pc, files, dirty)
    ensures Sound(ClientStep(c, k, call), pc, files, dirty)
  {
    match call
    case TakeGreeting => if c.task.AwaitGreeting? { GreetingKeeps(c, k, pc, files, dirty); }
    case TakeStamp => if c.task.AwaitStamp? { StampKeeps(c, k, pc, files, dirty); }
    case Resume(yes, canOpen) => if c.task.Deciding? { DecideKeeps(c, k, pc, files, dirty, yes, canOpen); }
    case Ask(r, canOpen) => if c.task.Idle? { CommandKeeps(c, k, pc, files, dirty, r, canOpen); }
    case SendPiece(accepted) => if c.task.Requesting? { PieceKeeps(c, k, pc, files, dirty, accepted); }
    case TakeReply(stale) => if c.task.AwaitReply? { ReplyKeeps(c, k, pc, files, dirty, stale); }
    case TakeData(wanted) => if c.task.Receiving? { DataKeeps(c, k, pc, files, dirty, wanted); }
  }
}
