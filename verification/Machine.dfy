/** The server, its clients and the byte streams between them as one machine.
    A step is one call of `Send`, `Receive` or `ReceiveAll`, or something the world does: a stream breaks,
    a client is killed, connects, or types a command. */
module Machine {
  import opened Bytes
  import opened Messages
  import opened Exchange
  import opened Wrappers

  /** What the history of recovery stamps is made of. */
  datatype Event =
    | Made(mac: Mac, stamp: Stamp)
    | Offered(mac: Mac, stamp: Stamp)
    | Cleared(mac: Mac)

  /** Where the driver loop stands (src/server/main.cpp:104-114). */
  datatype Pc =
    | Accepting
    | ReadingMac
    | ReadingHeader(mac: Mac)
    | ReadingBody(mac: Mac, op: Byte, size: nat)
    | Replying(mac: Mac, reply: Bytes, next: Pc)
    | Sending(mac: Mac, name: Name, start: nat, total: nat, left: nat)
    | Storing(mac: Mac, name: Name, size: nat, left: nat)
    | Ignoring(mac: Mac, left: nat)
    | Undefined   // an evicted handle or a truncated body has been used: no claim is made from here on

  datatype Server = Server(
    files: Files,
    dirty: set<Name>,               // names an upload has opened for writing so far
    stamps: map<Mac, Stamp>,
    ledger: seq<Event>,
    pc: Pc)

  /** One connection: the bytes under way, and its history, on which no step depends: what has been asked, served and
      offered on it and what is due. */
  datatype Link = Link(
    owner: nat,
    mac: Mac,
    up: Bytes,
    down: Bytes,
    cut: bool,                      // nothing more is delivered in either direction
    asked: seq<Request>,
    served: seq<Request>,           // as the server decoded and stored them
    due: Bytes,                     // what the server owes the client and the client has not read
    offer: Option<Stamp>)

  datatype Outcome =
    | Nothing
    | Loaded(name: Name)            // `Client::Download` returned Success
    | Torn(request: Request)        // a reply that was cut short has passed for one
    | Echoed(data: Bytes, sent: Bytes)

  datatype Task =
    | Idle(last: Outcome)
    | AwaitGreeting
    | AwaitStamp(size: nat)
    | Deciding(name: Name)
    | Requesting(request: Request, sent: nat)
    | AwaitReply(request: Request)
    | Receiving(name: Name, left: nat)

  datatype Client = Client(mac: Mac, disk: map<Name, Bytes>, task: Task, link: Option<nat>)

  /** What `connection->Fail()` says of a stream that has ended, by what `CheckFail` makes of it. */
  datatype Failure = EndOfStream | Reported | Evicting

  /** The server's calls; the arguments are what the operating system decides. */
  datatype ServerCall =
    | TakeMac(padding: Byte, failure: Failure)
    | Reply(accepted: bool, failure: Failure)
    | TakeHeader(clock: Bytes)
    | TakeBody(clock: Bytes, gap: Bytes, junk: nat)
    | SendChunk(accepted: bool)
    | TakeContent(size: nat, failure: Failure)

  datatype ClientCall =
    | TakeGreeting
    | TakeStamp
    | Resume(yes: bool, canOpen: bool)
    | Ask(request: Request, canOpen: bool)
    | SendPiece(accepted: bool)
    | TakeReply(stale: bool)
    | TakeData(size: nat)

  /** `n` bytes leave a stream from the front. */
  function TakeUp(k: Link, n: nat): Link
    requires n <= |k.up|
  {
    k.(up := k.up[n..])
  }

  function TakeDown(k: Link, n: nat): Link
    requires n <= |k.down|
  {
    k.(down := k.down[n..], due := k.due[Min(n, |k.due|)..])
  }

  /** A send: delivered on a live stream, lost on a cut one. */
  function Deliver(k: Link, bytes: Bytes): Link {
    if k.cut then k else k.(down := k.down + bytes)
  }

  function AfterFailure(pc: Pc, failure: Failure): Pc {
    match failure
    case EndOfStream => pc
    case Reported => Accepting
    case Evicting => Undefined
  }

  function Greet(s: Server, k: Link, mac: Mac, padding: Byte): (Server, Link) {
    var greeting := Greeting(s.stamps, mac, padding);
    var event := if mac in s.stamps then Offered(mac, s.stamps[mac]) else Cleared(mac);
    (s.(stamps := StampsAfterGreeting(s.stamps, mac),
        ledger := s.ledger + [event],
        pc := Replying(mac, greeting, ReadingHeader(mac))),
     k.(due := greeting, offer := if mac in s.stamps then Some(s.stamps[mac]) else None))
  }

  /** Send `reply`, then go on to `next`; `rest` is what `next` will send. */
  function Answer(s: Server, k: Link, r: Request, reply: Bytes, next: Pc, rest: Bytes): (Server, Link)
    requires next.ReadingHeader? || next.Sending?
  {
    (s.(pc := Replying(next.mac, reply, next)),
     k.(served := k.served + [r], due := reply + rest))
  }

  /** `HandleDownload` up to its first send (src/server/server.cpp:142-170); `junk` is the size left unset. */
  function StartDownload(s: Server, k: Link, mac: Mac, start: nat, name: Name, gap: Bytes, junk: nat): (Server, Link) {
    var status := DownloadStatus(s.files, name);
    var total := if status.Ready? then Remaining(Hosted(s.files, name), start) else junk;
    var padding := if |gap| == 4 then gap else [0, 0, 0, 0];
    var next := if status.Ready? && total > 0 then Sending(mac, name, start, total, total) else ReadingHeader(mac);
    var rest := if status.Ready? then Tail(Hosted(s.files, name), start) else [];
    Answer(s, k, Request.Download(start, name), Response(status, padding, total), next, rest)
  }

  /** `HandleUpload` up to its first receive (src/server/server.cpp:204-228). */
  function StartUpload(s: Server, k: Link, mac: Mac, size: nat, name: Name): (Server, Link) {
    if size == 0 then (s.(pc := Accepting), k)
    else if Accepted(s.files, name) then
      (s.(files := Written(s.files, name, []), dirty := s.dirty + {name}, pc := Storing(mac, name, size, size)), k)
    else (s.(pc := Ignoring(mac, size)), k)
  }

  /** `HandlePacket` (src/server/server.cpp:116-139) up to its first send or receive. */
  function Dispatch(s: Server, k: Link, mac: Mac, op: Byte, body: Bytes, clock: Bytes, gap: Bytes, junk: nat)
    : (Server, Link)
  {
    match Decode(op, body)
    case EchoOrder(data) => Answer(s, k, Request.Echo(data), data, ReadingHeader(mac), [])
    case TimeOrder =>
      var time := if |clock| == TIME_SIZE then clock else LittleEndian(0, 8);
      Answer(s, k, Request.Time, time, ReadingHeader(mac), [])
    case DownloadOrder(start, name) => StartDownload(s, k, mac, start, name, gap, junk)
    case UploadOrder(size, name) => StartUpload(s, k, mac, size, name)
    case Unknown => (s.(pc := Accepting), k)
    case Malformed => (s.(pc := Undefined), k)
  }

  /** How many bytes one `Receive` of at most a buffer returns. */
  function Received(wanted: nat, left: nat, available: nat): (n: nat)
    requires left > 0 && available > 0
    ensures 1 <= n <= BUFFER_SIZE && n <= left && n <= available
  {
    var most := Min(Min(BUFFER_SIZE, left), available);
    if wanted == 0 then 1 else Min(wanted, most)
  }

  /** The first half of `Listen` (src/server/server.cpp:38-61). */
  function ReadMac(s: Server, k: Link, padding: Byte, failure: Failure): (Server, Link) {
    if |k.up| >= MAC_SIZE then Greet(s, TakeUp(k, MAC_SIZE), k.up[..MAC_SIZE], padding)
    else if !k.cut then (s, k)
    else if failure.EndOfStream? then
      // The identifier keeps its zero bytes where nothing arrived.
      Greet(s, TakeUp(k, |k.up|), k.up + seq(MAC_SIZE - |k.up|, _ => 0), padding)
    else (s.(pc := AfterFailure(s.pc, failure)), TakeUp(k, |k.up|))
  }

  /** One reply followed by `CheckFail`. */
  function SendReply(s: Server, k: Link, reply: Bytes, next: Pc, accepted: bool, failure: Failure): (Server, Link) {
    if !k.cut || accepted || failure.EndOfStream? then (s.(pc := next), Deliver(k, reply))
    else (s.(pc := AfterFailure(next, failure)), k)
  }

  /** `Handle`, its first read (src/server/server.cpp:78-82). */
  function ReadHeader(s: Server, k: Link, mac: Mac, clock: Bytes): (Server, Link) {
    if |k.up| >= HEADER_SIZE then
      var op, size := OpOf(k.up), SizeOf(k.up);
      if size > 0
      then (s.(pc := ReadingBody(mac, op, size)), TakeUp(k, HEADER_SIZE))
      else Dispatch(s, TakeUp(k, HEADER_SIZE), mac, op, [], clock, [], 0)
    else if k.cut then (s.(pc := Accepting), TakeUp(k, |k.up|))
    else (s, k)
  }

  /** Its second read (src/server/server.cpp:83-86), which refuses only a return of 0. */
  function ReadBody(s: Server, k: Link, mac: Mac, op: Byte, size: nat, clock: Bytes, gap: Bytes, junk: nat)
    : (Server, Link)
  {
    if |k.up| >= size then Dispatch(s, TakeUp(k, size), mac, op, k.up[..size], clock, gap, junk)
    else if k.cut then (s.(pc := if k.up == [] then Accepting else Undefined), TakeUp(k, |k.up|))
    else (s, k)
  }

  /** One round of the send loop of `HandleDownload` (src/server/server.cpp:187-197). */
  function SendNextChunk(s: Server, k: Link, mac: Mac, name: Name, start: nat, total: nat, left: nat, accepted: bool)
    : (Server, Link)
  {
    var bytes := Hosted(s.files, name);
    var offset := start + total - left;
    if left == 0 || !(0 <= offset <= |bytes|) then (s, k)
    else if k.cut && !accepted then
      var stamp := Stamp(name, offset);
      (s.(stamps := s.stamps[mac := stamp], ledger := s.ledger + [Made(mac, stamp)], pc := Accepting), k)
    else
      var chunk := Min(BUFFER_SIZE, left);
      (s.(pc := if left == chunk then ReadingHeader(mac) else Sending(mac, name, start, total, left - chunk)),
       Deliver(k, bytes[offset..Min(offset + chunk, |bytes|)]))
  }

  /** One round of the store loop of `HandleUpload` (src/server/server.cpp:231-243). */
  function Store(s: Server, k: Link, mac: Mac, name: Name, size: nat, left: nat, wanted: nat, failure: Failure)
    : (Server, Link)
  {
    if left == 0 then (s, k)
    else if k.up != [] then
      var n := Received(wanted, left, |k.up|);
      var bytes := Hosted(s.files, name) + k.up[..n];
      var s' := s.(files := Written(s.files, name, bytes),
                   pc := if left == n then ReadingHeader(mac) else Storing(mac, name, size, left - n));
      (s', if left == n then TakeUp(k, n).(served := k.served + [Request.Upload(name, bytes)]) else TakeUp(k, n))
    else if !k.cut || failure.EndOfStream? then (s, k)   // the loop spins on an ended stream
    else if failure.Reported? then (s.(files := s.files - {name}, pc := Accepting), k)
    else (s.(pc := Undefined), k)
  }

  /** One round of the loop that drops a refused upload (src/server/server.cpp:211-218). */
  function Ignore(s: Server, k: Link, mac: Mac, left: nat, wanted: nat, failure: Failure): (Server, Link) {
    if left == 0 then (s, k)
    else if k.up != [] then
      var n := Received(wanted, left, |k.up|);
      (s.(pc := if left == n then Accepting else Ignoring(mac, left - n)), TakeUp(k, n))
    else if !k.cut then (s, k)
    else (s.(pc := AfterFailure(s.pc, failure)), k)
  }

  /** A call the server is not about to make changes nothing. */
  function ServerStep(s: Server, k: Link, call: ServerCall): (Server, Link) {
    match (s.pc, call)
    case (ReadingMac, TakeMac(padding, failure)) => ReadMac(s, k, padding, failure)
    case (Replying(_, reply, next), Reply(accepted, failure)) => SendReply(s, k, reply, next, accepted, failure)
    case (ReadingHeader(mac), TakeHeader(clock)) => ReadHeader(s, k, mac, clock)
    case (ReadingBody(mac, op, size), TakeBody(clock, gap, junk)) => ReadBody(s, k, mac, op, size, clock, gap, junk)
    case (Sending(mac, name, start, total, left), SendChunk(accepted)) =>
      SendNextChunk(s, k, mac, name, start, total, left, accepted)
    case (Storing(mac, name, size, left), TakeContent(wanted, failure)) =>
      Store(s, k, mac, name, size, left, wanted, failure)
    case (Ignoring(mac, left), TakeContent(wanted, failure)) => Ignore(s, k, mac, left, wanted, failure)
    case _ => (s, k)
  }

  /** `Client::Download` up to its first send (src/client/client.cpp:83-95): position zero truncates. */
  function Begin(c: Client, k: Link, r: Request): (Client, Link) {
    var disk :=
      if r.Download? then
        c.disk[r.name := if r.position > 0 && r.name in c.disk then c.disk[r.name] else []]
      else c.disk;
    (c.(disk := disk, task := Requesting(r, 0)), k.(asked := k.asked + [r]))
  }

  /** A download that does not succeed removes its file (src/client/client.cpp:133-137). */
  function GiveUp(c: Client, r: Request): Client {
    c.(disk := if r.Download? then c.disk - {r.name} else c.disk, task := Idle(Nothing))
  }

  /** The next piece a request is sent in: header, body, then the content a buffer at a time. */
  function Piece(r: Request, sent: nat): (n: nat)
    requires sent < |Encode(r)|
    ensures 1 <= n <= |Encode(r)| - sent
  {
    var body := HEADER_SIZE + |Body(r)|;
    if sent < HEADER_SIZE then HEADER_SIZE - sent
    else if sent < body then body - sent
    else Min(BUFFER_SIZE, |Encode(r)| - sent)
  }

  function ReplySize(r: Request): nat {
    match r
    case Echo(data) => |data|
    case Time => TIME_SIZE
    case _ => RESPONSE_SIZE
  }

  function CopyOf(c: Client, name: Name): Bytes {
    if name in c.disk then c.disk[name] else []
  }

  function LocalSize(c: Client, name: Name): nat {
    if name in c.disk then |c.disk[name]| else 0
  }

  /** `HandleDownloadRecovery`, its first read (src/client/client.cpp:29-31). */
  function ReadGreeting(c: Client, k: Link): (Client, Link) {
    if |k.down| >= HEADER_SIZE then
      (c.(task := if OpOf(k.down) == DOWNLOAD_RECOVERY then AwaitStamp(SizeOf(k.down)) else Idle(Nothing)),
       TakeDown(k, HEADER_SIZE))
    else if k.cut then (c.(task := Idle(Nothing)), k.(down := []))
    else (c, k)
  }

  /** Its second read (src/client/client.cpp:33-38). */
  function ReadStamp(c: Client, k: Link, size: nat): (Client, Link) {
    if |k.down| >= size && HasNumberAndName(k.down[..size]) then
      (c.(task := Deciding(NameOf(k.down[..size]))), TakeDown(k, size))
    else if k.cut then (c.(task := Idle(Nothing)), k.(down := []))
    else (c, k)
  }

  /** The recovery path of `ConnectCmd` (src/client/clientConsole.cpp:66-81): go on from the local size. */
  function Decide(c: Client, k: Link, name: Name, yes: bool, canOpen: bool): (Client, Link) {
    var r := Request.Download(LocalSize(c, name), name);
    if yes && canOpen && WellFormed(r) then Begin(c, k, r) else (c.(task := Idle(Nothing)), k)
  }

  /** A command; `DownloadCmd` always starts at zero (src/client/clientConsole.cpp:104-106). */
  function Command(c: Client, k: Link, r: Request, canOpen: bool): (Client, Link) {
    if WellFormed(r) && (r.Download? ==> r.position == 0 && canOpen) then Begin(c, k, r) else (c, k)
  }

  function SendNext(c: Client, k: Link, r: Request, sent: nat, accepted: bool): (Client, Link) {
    if sent >= |Encode(r)| then (c, k)
    else if k.cut && !accepted then (GiveUp(c, r), k)
    else
      var n := Piece(r, sent);
      var task :=
        if sent + n < |Encode(r)| then Requesting(r, sent + n)
        else if r.Upload? || r.Close? then Idle(Nothing)
        else AwaitReply(r);
      (c.(task := task), if k.cut then k else k.(up := k.up + Encode(r)[sent..sent + n]))
  }

  /** What the client makes of a reply it has read whole. */
  function Accept(c: Client, r: Request, reply: Bytes): Client
    requires |reply| == ReplySize(r)
  {
    match r
    case Download(start, name) =>
      if StatusOf(reply) != StatusCode(Ready) then GiveUp(c, r)
      else c.(task := if TotalOf(reply) == 0 then Idle(Loaded(name)) else Receiving(name, TotalOf(reply)))
    case Echo(data) => c.(task := Idle(Echoed(reply, data)))
    case _ => c.(task := Idle(Nothing))
  }

  /** What has arrived of a response header can still become Ready with nothing to follow. */
  predicate Blank(arrived: Bytes) {
    forall i | 0 <= i < |arrived| && (i < 4 || 8 <= i) :: arrived[i] == 0
  }

  function ReadReply(c: Client, k: Link, r: Request, stale: bool): (Client, Link) {
    if |k.down| >= ReplySize(r) then (Accept(c, r, k.down[..ReplySize(r)]), TakeDown(k, ReplySize(r)))
    else if !k.cut then (c, k)
    else if k.down != [] && (r.Download? ==> stale && Blank(k.down)) then
      // Only a return of 0 is refused: the rest is what the buffer held before. For a download, `stale` says whether
      // that completes the header to Ready with nothing to follow.
      (c.(task := Idle(Torn(r))), k.(down := []))
    else (GiveUp(c, r), k.(down := []))
  }

  /** The receive loop of `Client::Download` (src/client/client.cpp:117-125). */
  function ReadData(c: Client, k: Link, name: Name, left: nat, wanted: nat): (Client, Link) {
    if left == 0 || name !in c.disk then (c, k)
    else if k.down != [] then
      var n := Received(wanted, left, |k.down|);
      (c.(disk := c.disk[name := c.disk[name] + k.down[..n]],
          task := if left == n then Idle(Loaded(name)) else Receiving(name, left - n)),
       TakeDown(k, n))
    else if k.cut then (c.(disk := c.disk - {name}, task := Idle(Nothing)), k.(down := []))
    else (c, k)
  }

  function ClientStep(c: Client, k: Link, call: ClientCall): (Client, Link) {
    match (c.task, call)
    case (AwaitGreeting, TakeGreeting) => ReadGreeting(c, k)
    case (AwaitStamp(size), TakeStamp) => ReadStamp(c, k, size)
    case (Deciding(name), Resume(yes, canOpen)) => Decide(c, k, name, yes, canOpen)
    case (Idle(_), Ask(r, canOpen)) => Command(c, k, r, canOpen)
    case (Requesting(r, sent), SendPiece(accepted)) => SendNext(c, k, r, sent, accepted)
    case (AwaitReply(r), TakeReply(stale)) => ReadReply(c, k, r, stale)
    case (Receiving(name, left), TakeData(wanted)) => ReadData(c, k, name, left, wanted)
    case _ => (c, k)
  }

  /** What a kill leaves of a file that was being written: what had been flushed, some first part of it. */
  function Flushed(c: Client, kept: nat): map<Name, Bytes> {
    match c.task
    case Receiving(name, _) =>
      if name in c.disk then c.disk[name := c.disk[name][..Min(kept, |c.disk[name]|)]] else c.disk
    case _ => c.disk
  }
}
