/** The machine's client, call by call, carries out `Client::Download`: the same download directory, the same result and
    the same unread stream as the method is proved to leave, for some content of its buffer - and for any. */
module ClientRefinement {
  import opened Bytes
  import opened Messages
  import opened Exchange
  import opened Machine
  import FileClient

  /** The calls of a client up to where it is at its prompt again. */
  function UntilIdle(c: Client, k: Link, calls: seq<ClientCall>): (Client, Link)
    decreases |calls|
  {
    if calls == [] || c.task.Idle? then (c, k)
    else
      var (c', k') := ClientStep(c, k, calls[0]);
      UntilIdle(c', k', calls[1..])
  }

  /** The request could not be sent. */
  predicate NotSent(disk: map<Name, Bytes>, k: Link, r: Request, c': Client, k': Link)
    requires r.Download?
  {
    k.cut && c'.task == Idle(Nothing) && c'.disk == disk - {r.name} && k'.down == k.down
  }

  /** What the method leaves on a buffer that holds `stale`, given that `k.down` is all that still arrives. */
  predicate Downloaded(disk: map<Name, Bytes>, k: Link, r: Request, c': Client, k': Link, stale: Bytes)
    requires r.Download? && |stale| >= RESPONSE_SIZE
  {
    && c'.disk == FileClient.DiskAfter(disk, r.name, r.position, k.down, stale)
    && k'.down == FileClient.StreamAfter(k.down, stale)
    && c'.task.Idle?
    && ((c'.task.last == Loaded(r.name) || c'.task.last == Torn(r))
        == FileClient.Verdict(k.down, FileClient.Seen(k.down, stale, RESPONSE_SIZE)).Success?)
  }

  /** A download in progress, begun on `disk` with `k0.down` still to arrive. */
  predicate Downloading(disk: map<Name, Bytes>, k0: Link, r: Request, c: Client, k: Link)
    requires r.Download?
  {
    var kept := FileClient.Kept(disk, r.name, r.position);
    && k.cut == k0.cut
    && match c.task
       case Requesting(q, sent) => q == r && k.down == k0.down && c.disk == disk[r.name := kept]
       case AwaitReply(q) => q == r && k.down == k0.down && c.disk == disk[r.name := kept]
       case Receiving(name, left) =>
         && name == r.name && |k0.down| >= RESPONSE_SIZE
         && StatusOf(k0.down) == StatusCode(Ready) && 0 < left <= TotalOf(k0.down)
         && var n := TotalOf(k0.down) - left;
            && n <= |k0.down| - RESPONSE_SIZE
            && k.down == k0.down[RESPONSE_SIZE..][n..]
            && c.disk == disk[r.name := kept + k0.down[RESPONSE_SIZE..][..n]]
       case _ => false
  }

  lemma {:induction false} NonZero(s: Bytes, i: nat)
    requires i < |s| && s[i] != 0
    ensures FromLittleEndian(s) > 0
  {
    if i > 0 {
      NonZero(s[1..], i - 1);
    }
  }

  /** A buffer whose bytes complete a header cut short to Ready with nothing to follow, if any buffer does... */
  lemma BlankCompletes(arrived: Bytes)
    requires 0 < |arrived| < RESPONSE_SIZE && Blank(arrived)
    ensures var header := FileClient.Seen(arrived, seq(RESPONSE_SIZE, _ => 0), RESPONSE_SIZE);
      StatusOf(header) == StatusCode(Ready) && TotalOf(header) == 0
  {
    var header := FileClient.Seen(arrived, seq(RESPONSE_SIZE, _ => 0), RESPONSE_SIZE);
    assert forall i | 8 <= i < RESPONSE_SIZE :: header[i] == 0;
    LoadZeros(header[..4]);
    LoadZeros(header[8..16]);
  }

  lemma OnlyBlankCompletes(arrived: Bytes, stale: Bytes)
    requires 0 < |arrived| < RESPONSE_SIZE && |stale| >= RESPONSE_SIZE
    requires var header := FileClient.Seen(arrived, stale, RESPONSE_SIZE);
      StatusOf(header) == StatusCode(Ready) && TotalOf(header) == 0
    ensures Blank(arrived)
  {
    var header := FileClient.Seen(arrived, stale, RESPONSE_SIZE);
    forall i | 0 <= i < |arrived| && (i < 4 || 8 <= i) ensures arrived[i] == 0 {
      assert header[i] == arrived[i];
      if arrived[i] != 0 {
        if i < 4 {
          NonZero(header[..4], i);
        } else {
          NonZero(header[8..16], i - 8);
        }
      }
    }
  }

  /** ... and one on which it is no such header. */
  lemma OnesDoNot(arrived: Bytes)
    requires |arrived| < RESPONSE_SIZE
    ensures var header := FileClient.Seen(arrived, seq(RESPONSE_SIZE, _ => 1), RESPONSE_SIZE);
      TotalOf(header) > 0
  {
    var header := FileClient.Seen(arrived, seq(RESPONSE_SIZE, _ => 1), RESPONSE_SIZE);
    assert header[15] == 1;
    NonZero(header[8..16], 7);
  }

  /** Reading a reply that ends inside its header: what a buffer makes of it. */
  lemma ShortReply(disk: map<Name, Bytes>, k0: Link, r: Request, c: Client, k: Link, stale: Bytes)
    requires r.Download? && Downloading(disk, k0, r, c, k) && c.task.AwaitReply?
    requires k.cut && |k0.down| < RESPONSE_SIZE <= |stale|
    ensures var torn := FileClient.Verdict(k.down, FileClient.Seen(k.down, stale, RESPONSE_SIZE)).Success?;
      && (torn ==> k.down != [] && Blank(k.down))
      && var (c', k') := ReadReply(c, k, r, torn); Downloaded(disk, k0, r, c', k', stale)
  {
    hide StatusOf, TotalOf, FileClient.Seen, Blank;
    var header := FileClient.Seen(k.down, stale, RESPONSE_SIZE);
    assert FileClient.BehindHeader(k.down) == [];
    var kept := FileClient.Kept(disk, r.name, r.position);
    assert kept + [] == kept;
    if FileClient.Verdict(k.down, header).Success? {
      OnlyBlankCompletes(k.down, stale);
    }
  }

  /** Reading a reply whose header is all there. */
  lemma HeaderRead(disk: map<Name, Bytes>, k0: Link, r: Request, c: Client, k: Link, stale: Bytes, flag: bool)
    requires r.Download? && Downloading(disk, k0, r, c, k) && c.task.AwaitReply?
    requires |k0.down| >= RESPONSE_SIZE && |stale| >= RESPONSE_SIZE
    ensures var (c', k') := ReadReply(c, k, r, flag);
      Downloading(disk, k0, r, c', k') || Downloaded(disk, k0, r, c', k', stale)
  {
    hide StatusOf, TotalOf;
    var D := k0.down;
    ResponseRead(D, D[..RESPONSE_SIZE]);
    assert FileClient.Seen(D, stale, RESPONSE_SIZE) == D[..RESPONSE_SIZE];
    var rest, kept := D[RESPONSE_SIZE..], FileClient.Kept(disk, r.name, r.position);
    assert rest[..0] == [] && rest[0..] == rest && kept + [] == kept;
    assert FileClient.BehindHeader(D) == rest;
  }

  /** What the method makes of a stream whose response header, a Ready one, is all there. */
  lemma OfferedReply(disk: map<Name, Bytes>, k: Link, r: Request, c': Client, k': Link, stale: Bytes)
    requires r.Download? && |stale| >= RESPONSE_SIZE
    requires |k.down| >= RESPONSE_SIZE && StatusOf(k.down) == StatusCode(Ready)
    ensures var (rest, total) := (k.down[RESPONSE_SIZE..], TotalOf(k.down));
      var kept := FileClient.Kept(disk, r.name, r.position);
      (if total <= |rest|
       then
         && c'.task == Idle(Loaded(r.name))
         && c'.disk == disk[r.name := kept + rest[..total]] && k'.down == rest[total..]
       else c'.task == Idle(Nothing) && c'.disk == disk - {r.name} && k'.down == [])
      ==> Downloaded(disk, k, r, c', k', stale)
  {
    hide StatusOf, TotalOf, FileClient.Kept;
    ResponseRead(k.down, k.down[..RESPONSE_SIZE]);
    assert FileClient.Seen(k.down, stale, RESPONSE_SIZE) == k.down[..RESPONSE_SIZE];
    assert FileClient.BehindHeader(k.down) == k.down[RESPONSE_SIZE..];
  }

  lemma DataRead(disk: map<Name, Bytes>, k0: Link, r: Request, c: Client, k: Link, stale: Bytes, wanted: nat)
    requires r.Download? && Downloading(disk, k0, r, c, k) && c.task.Receiving? && |stale| >= RESPONSE_SIZE
    ensures var (c', k') := ReadData(c, k, r.name, c.task.left, wanted);
      Downloading(disk, k0, r, c', k') || Downloaded(disk, k0, r, c', k', stale)
  {
    hide StatusOf, TotalOf, FileClient.Kept, Downloaded, Received;
    var rest, kept := k0.down[RESPONSE_SIZE..], FileClient.Kept(disk, r.name, r.position);
    var left, n := c.task.left, TotalOf(k0.down) - c.task.left;
    var (c', k') := ReadData(c, k, r.name, left, wanted);
    if k.down != [] {
      var m := Received(wanted, left, |k.down|);
      TakenInTwo(rest, n, m);
      AddedInTwo(kept, rest[..n], k.down[..m]);
      assert c'.disk == disk[r.name := kept + rest[..n + m]];
    }
    OfferedReply(disk, k0, r, c', k', stale);
  }

  lemma ReplyDownloads(disk: map<Name, Bytes>, k0: Link, r: Request, c: Client, k: Link, flag: bool)
    returns (stale: Bytes)
    requires r.Download? && Downloading(disk, k0, r, c, k) && c.task.AwaitReply?
    ensures |stale| == RESPONSE_SIZE
    ensures var (c', k') := ReadReply(c, k, r, flag);
      Downloading(disk, k0, r, c', k') || Downloaded(disk, k0, r, c', k', stale)
  {
    hide Downloaded, Blank, Accept;
    stale := seq(RESPONSE_SIZE, _ => 1);
    if |k.down| >= RESPONSE_SIZE {
      HeaderRead(disk, k0, r, c, k, stale, flag);
    } else if k.cut {
      if k.down != [] && flag && Blank(k.down) {
        stale := seq(RESPONSE_SIZE, _ => 0);
        BlankCompletes(k.down);
      } else {
        OnesDoNot(k.down);
      }
      ShortReply(disk, k0, r, c, k, stale);
    }
  }

  lemma StepDownloads(disk: map<Name, Bytes>, k0: Link, r: Request, c: Client, k: Link, call: ClientCall)
    returns (stale: Bytes)
    requires r.Download? && Downloading(disk, k0, r, c, k)
    ensures |stale| == RESPONSE_SIZE
    ensures var (c', k') := ClientStep(c, k, call);
      || Downloading(disk, k0, r, c', k')
      || NotSent(disk, k0, r, c', k')
      || Downloaded(disk, k0, r, c', k', stale)
  {
    hide Downloaded, Encode, Blank, ReadReply, ReadData;
    stale := seq(RESPONSE_SIZE, _ => 1);
    match (c.task, call)
    case (AwaitReply(_), TakeReply(flag)) =>
      stale := ReplyDownloads(disk, k0, r, c, k, flag);
    case (Receiving(_, _), TakeData(wanted)) => DataRead(disk, k0, r, c, k, stale, wanted);
    case _ =>
  }

  lemma {:induction false} CallsDownload(disk: map<Name, Bytes>, k0: Link, r: Request, c: Client, k: Link,
                                         calls: seq<ClientCall>)
    returns (stale: Bytes)
    requires r.Download? && Downloading(disk, k0, r, c, k)
    ensures |stale| == RESPONSE_SIZE
    ensures var (c', k') := UntilIdle(c, k, calls);
      c'.task.Idle? ==> NotSent(disk, k0, r, c', k') || Downloaded(disk, k0, r, c', k', stale)
    decreases |calls|
  {
    hide ClientStep;
    stale := seq(RESPONSE_SIZE, _ => 1);
    assert !c.task.Idle?;
    if calls != [] {
      stale := StepDownloads(disk, k0, r, c, k, calls[0]);
      var (c', k') := ClientStep(c, k, calls[0]);
      if Downloading(disk, k0, r, c', k') {
        stale := CallsDownload(disk, k0, r, c', k', calls[1..]);
      } else {
        assert UntilIdle(c', k', calls[1..]) == (c', k');
      }
    }
  }

  /** Refinement: from the request to the prompt, whatever the client's calls return and however they cut the stream
      into pieces, a download leaves the directory, the result and the unread stream that `Client::Download` leaves on
      some content of its buffer, or its request could not be sent. */
  lemma DownloadRefinesMethod(c: Client, k: Link, r: Request, calls: seq<ClientCall>) returns (stale: Bytes)
    requires r.Download?
    ensures |stale| == RESPONSE_SIZE
    ensures var (c1, k1) := Begin(c, k, r);
      var (c', k') := UntilIdle(c1, k1, calls);
      c'.task.Idle? ==>
        || (k.cut && c'.task == Idle(Nothing) && c'.disk == c.disk - {r.name} && k'.down == k.down)
        || (&& c'.disk == FileClient.DiskAfter(c.disk, r.name, r.position, k.down, stale)
            && k'.down == FileClient.StreamAfter(k.down, stale)
            && ((c'.task.last == Loaded(r.name) || c'.task.last == Torn(r))
                == FileClient.Verdict(k.down, FileClient.Seen(k.down, stale, RESPONSE_SIZE)).Success?))
  {
    hide UntilIdle, FileClient.DiskAfter, FileClient.StreamAfter, FileClient.Verdict, FileClient.Seen;
    var (c1, k1) := Begin(c, k, r);
    stale := CallsDownload(c.disk, k1, r, c1, k1, calls);
  }

  /** How much of a download is still to be done. */
  function Left(t: Task): nat {
    match t
    case Requesting(r, sent) => if sent < |Encode(r)| then |Encode(r)| - sent else 0
    case Receiving(_, left) => left
    case _ => 0
  }

  function Stage(t: Task): nat {
    match t
    case Requesting(_, _) => 2
    case AwaitReply(_) => 1
    case _ => 0
  }

  /** The call that comes next, when the buffer holds `stale`. */
  function NextCall(c: Client, k: Link, stale: Bytes): ClientCall
    requires |stale| >= RESPONSE_SIZE
  {
    match c.task
    case Requesting(_, _) => SendPiece(true)
    case AwaitReply(_) =>
      TakeReply(FileClient.Verdict(k.down, FileClient.Seen(k.down, stale, RESPONSE_SIZE)).Success?)
    case _ => TakeData(0)
  }

  /** Less is left of a download. */
  predicate Nearer(t: Task, t': Task) {
    && (Stage(t') < Stage(t) || (Stage(t') == Stage(t) && Left(t') < Left(t)))
    && (t'.Requesting? ==> t'.sent < |Encode(t'.request)|)
  }

  lemma PieceNearer(c: Client, k: Link)
    requires c.task.Requesting? && c.task.sent < |Encode(c.task.request)|
    requires !c.task.request.Upload? && !c.task.request.Close?
    ensures Nearer(c.task, SendNext(c, k, c.task.request, c.task.sent, true).0.task)
  {
    hide Encode, Piece;
  }

  lemma NextMoves(disk: map<Name, Bytes>, k0: Link, r: Request, c: Client, k: Link, stale: Bytes)
    requires r.Download? && Downloading(disk, k0, r, c, k) && k.cut && |stale| >= RESPONSE_SIZE
    requires c.task.Requesting? ==> c.task.sent < |Encode(r)|
    ensures var (c', k') := ClientStep(c, k, NextCall(c, k, stale));
      if Downloading(disk, k0, r, c', k') then Nearer(c.task, c'.task) else Downloaded(disk, k0, r, c', k', stale)
  {
    hide Downloaded, Encode, Blank, FileClient.Verdict, FileClient.Seen, StatusOf, TotalOf, FileClient.Kept, Piece;
    match c.task
    case Requesting(_, _) => PieceNearer(c, k);
    case AwaitReply(_) =>
      if |k.down| >= RESPONSE_SIZE {
        HeaderRead(disk, k0, r, c, k, stale, NextCall(c, k, stale).stale);
      } else {
        ShortReply(disk, k0, r, c, k, stale);
      }
    case Receiving(_, _) => DataRead(disk, k0, r, c, k, stale, 0);
    case _ =>
  }

  lemma {:induction false} CallsReach(disk: map<Name, Bytes>, k0: Link, r: Request, c: Client, k: Link, stale: Bytes)
    returns (calls: seq<ClientCall>)
    requires r.Download? && Downloading(disk, k0, r, c, k) && k.cut && |stale| >= RESPONSE_SIZE
    requires c.task.Requesting? ==> c.task.sent < |Encode(r)|
    ensures var (c', k') := UntilIdle(c, k, calls); Downloaded(disk, k0, r, c', k', stale)
    decreases Stage(c.task), Left(c.task)
  {
    hide ClientStep, NextCall, Encode, Left, Stage, Downloaded;
    NextMoves(disk, k0, r, c, k, stale);
    var call := NextCall(c, k, stale);
    var (c', k') := ClientStep(c, k, call);
    var rest := [];
    assert !c.task.Idle?;
    if Downloading(disk, k0, r, c', k') {
      rest := CallsReach(disk, k0, r, c', k', stale);
    }
    calls := [call] + rest;
    assert calls[1..] == rest;
  }

  /** The other way round: where the connection has broken and `k.down` is all that still arrives, whatever
      `Client::Download` does on a given content of its buffer, some calls of the machine's client do. */
  lemma MethodIsReached(c: Client, k: Link, r: Request, stale: Bytes) returns (calls: seq<ClientCall>)
    requires r.Download? && k.cut && |stale| >= RESPONSE_SIZE
    ensures var (c1, k1) := Begin(c, k, r);
      var (c', k') := UntilIdle(c1, k1, calls);
      && c'.disk == FileClient.DiskAfter(c.disk, r.name, r.position, k.down, stale)
      && k'.down == FileClient.StreamAfter(k.down, stale) && c'.task.Idle?
      && ((c'.task.last == Loaded(r.name) || c'.task.last == Torn(r))
          == FileClient.Verdict(k.down, FileClient.Seen(k.down, stale, RESPONSE_SIZE)).Success?)
  {
    hide UntilIdle, FileClient.DiskAfter, FileClient.StreamAfter, FileClient.Verdict, FileClient.Seen;
    var (c1, k1) := Begin(c, k, r);
    assert |Encode(r)| >= HEADER_SIZE;
    hide Encode;
    calls := CallsReach(c.disk, k1, r, c1, k1, stale);
  }
}
