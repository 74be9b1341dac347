/** Recovery stamps over whole runs: when they exist, to whom they are offered, and what position they hold. */
module Stamps {
  import opened Bytes
  import opened Messages
  import opened Exchange
  import opened Machine
  import opened Conversation
  import opened ServerCalls
  import opened World
  import opened Wrappers

  /** The identifier of the session the server is in. */
  function SessionMac(pc: Pc): Option<Mac> {
    match pc
    case ReadingHeader(mac) => Some(mac)
    case ReadingBody(mac, _, _) => Some(mac)
    case Replying(mac, _, _) => Some(mac)
    case Sending(mac, _, _, _, _) => Some(mac)
    case Storing(mac, _, _, _) => Some(mac)
    case Ignoring(mac, _) => Some(mac)
    case _ => None
  }

  /** What the history leaves in `recoveryStamps`: the stamp made last, if nothing has happened since. */
  function Standing(ledger: seq<Event>): map<Mac, Stamp> {
    if ledger != [] && Last(ledger).Made? then map[Last(ledger).mac := Last(ledger).stamp] else map[]
  }

  /** Every session begins with one greeting; it makes at most one stamp, for the identifier it greeted; and a
      stamp is offered only by the greeting right after it was made, to the identifier it was made for. */
  predicate Orderly(ledger: seq<Event>) {
    && (forall i | 0 <= i < |ledger| && ledger[i].Made? ::
          i > 0 && !ledger[i - 1].Made? && ledger[i - 1].mac == ledger[i].mac)
    && (forall i | 0 <= i < |ledger| && ledger[i].Offered? ::
          i > 0 && ledger[i - 1] == Made(ledger[i].mac, ledger[i].stamp))
    && (forall i | 0 <= i < |ledger| && ledger[i].Cleared? ::
          i > 0 && ledger[i - 1].Made? ==> ledger[i - 1].mac != ledger[i].mac)
  }

  predicate StampInv(s: Server) {
    && Orderly(s.ledger)
    && s.stamps == Standing(s.ledger)
    && (SessionMac(s.pc).Some? ==>
          s.ledger != [] && !Last(s.ledger).Made? && Last(s.ledger).mac == SessionMac(s.pc).value)
    && (s.pc.Replying? ==> (s.pc.next.ReadingHeader? || s.pc.next.Sending?) && SessionMac(s.pc.next) == Some(s.pc.mac))
  }

  lemma OrderlyAppend(ledger: seq<Event>, e: Event)
    requires Orderly(ledger)
    requires match e
      case Made(mac, _) => ledger != [] && !Last(ledger).Made? && Last(ledger).mac == mac
      case Offered(mac, stamp) => ledger != [] && Last(ledger) == Made(mac, stamp)
      case Cleared(mac) => ledger != [] && Last(ledger).Made? ==> Last(ledger).mac != mac
    ensures Orderly(ledger + [e])
  {
  }

  lemma GreetStamps(s: Server, k: Link, mac: Mac, padding: Byte)
    requires StampInv(s)
    ensures StampInv(Greet(s, k, mac, padding).0)
  {
    hide Greeting;
    var e := if mac in s.stamps then Offered(mac, s.stamps[mac]) else Cleared(mac);
    OrderlyAppend(s.ledger, e);
    assert mac in s.stamps ==> s.stamps - {mac} == map[];
  }

  lemma NoSession(s: Server, pc: Pc)
    requires StampInv(s) && SessionMac(pc).None?
    ensures StampInv(s.(pc := pc))
  {
  }

  lemma ChunkStamps(s: Server, k: Link, accepted: bool)
    requires StampInv(s) && s.pc.Sending?
    ensures StampInv(SendNextChunk(s, k, s.pc.mac, s.pc.name, s.pc.start, s.pc.total, s.pc.left, accepted).0)
  {
    hide Orderly;
    var offset := s.pc.start + s.pc.total - s.pc.left;
    if offset >= 0 {
      OrderlyAppend(s.ledger, Made(s.pc.mac, Stamp(s.pc.name, offset)));
      assert map[][s.pc.mac := Stamp(s.pc.name, offset)] == map[s.pc.mac := Stamp(s.pc.name, offset)];
    }
  }

  /** No other call touches the stamps, nor does it change whose session it is. */
  lemma OtherStamps(s: Server, k: Link, call: ServerCall)
    requires StampInv(s) && !(s.pc.ReadingMac? && call.TakeMac?) && !(s.pc.Sending? && call.SendChunk?)
    ensures StampInv(ServerStep(s, k, call).0)
  {
    hide Orderly, Standing, Decode, Response, OpOf, SizeOf, DownloadStatus, Hosted, Written, Accepted, Received;
    var s' := ServerStep(s, k, call).0;
    assert s'.stamps == s.stamps && s'.ledger == s.ledger;
  }

  lemma ServerStamps(s: Server, k: Link, call: ServerCall)
    requires StampInv(s)
    ensures StampInv(ServerStep(s, k, call).0)
  {
    hide StampInv, Greet, SendNextChunk;
    if s.pc.ReadingMac? && call.TakeMac? {
      if |k.up| >= MAC_SIZE {
        GreetStamps(s, TakeUp(k, MAC_SIZE), k.up[..MAC_SIZE], call.padding);
      } else if k.cut && call.failure.EndOfStream? {
        GreetStamps(s, TakeUp(k, |k.up|), k.up + seq(MAC_SIZE - |k.up|, _ => 0), call.padding);
      } else {
        NoSession(s, AfterFailure(s.pc, call.failure));
      }
    } else if s.pc.Sending? && call.SendChunk? {
      ChunkStamps(s, k, call.accepted);
    } else {
      OtherStamps(s, k, call);
    }
  }

  lemma ListenStamps(w: World)
    requires StampInv(w.server)
    ensures StampInv(Step(w, Listen).server)
  {
  }

  /** In every reachable state the stamps are what their orderly history leaves standing: none while a session
      goes on, at most one between sessions. */
  lemma {:induction false} StampsInEveryRun(w: World, actions: seq<Action>)
    requires StampInv(w.server)
    ensures var s := Run(w, actions).server;
      && StampInv(s)
      && |s.stamps| <= 1
      && (SessionMac(s.pc).Some? ==> s.stamps == map[])
    decreases |actions|
  {
    if actions != [] {
      hide StampInv, ServerStep, ClientStep;
      var a := actions[0];
      if a.Serve? && 0 < w.accepted <= |w.links| {
        ServerStamps(w.server, w.links[w.accepted - 1], a.serverCall);
      } else if a.Listen? {
        ListenStamps(w);
      }
      StampsInEveryRun(Step(w, a), actions[1..]);
    }
  }

  /** A stamp is offered right after it was made or never, to nobody but the identifier whose interrupted download made
      it, and at most once: between two offers there is always the making of the later one. */
  lemma OfferedOnceToItsMaker(w: World, actions: seq<Action>, i: nat)
    requires Initial(w)
    requires var ledger := Run(w, actions).server.ledger; i < |ledger| && ledger[i].Offered?
    ensures var ledger := Run(w, actions).server.ledger;
      && i > 0 && ledger[i - 1] == Made(ledger[i].mac, ledger[i].stamp)
      && forall j | 0 <= j < i && ledger[j].Offered? :: j < i - 1
  {
    StampsInEveryRun(w, actions);
  }

  lemma OnlySendingStamps(s: Server, k: Link, call: ServerCall, mac: Mac)
    requires mac !in s.stamps && mac in ServerStep(s, k, call).0.stamps
    ensures s.pc.Sending? && s.pc.mac == mac
    ensures ServerStep(s, k, call).0.stamps[mac].path == s.pc.name
    ensures ServerStep(s, k, call).0.stamps[mac].position == s.pc.start + s.pc.total - s.pc.left
  {
    hide Decode, Response, OpOf, SizeOf, DownloadStatus, Hosted, Written, Accepted, Received;
  }

  lemma SendingPlace(k: Link, pc: Pc, files: Files, dirty: set<Name>, who: Option<Client>)
    requires Talk(k, pc, files, dirty, who) && pc.Sending?
    ensures pc.start + pc.total == |Hosted(files, pc.name)| && 0 < pc.left <= pc.total
    ensures pc.name != [] ==> pc.name in files
  {
  }

  /** A stamp records how far the stream got: past the start, short of the end, exactly what is left missing. */
  lemma StampPosition(w: World, call: ServerCall, mac: Mac)
    requires Inv(w) && 0 < w.accepted && mac !in w.server.stamps
    requires mac in Step(w, Serve(call)).server.stamps
    ensures w.server.pc.Sending? && w.server.pc.mac == mac
    ensures var Sending(_, name, start, total, left) := w.server.pc;
      var position := Step(w, Serve(call)).server.stamps[mac].position;
      var size := |Hosted(w.server.files, name)|;
      && Step(w, Serve(call)).server.stamps[mac].path == name
      && position == start + (total - left) == size - left
      && start <= position < size < U64
  {
    hide Talk;
    var l := w.accepted - 1;
    assert LinkFits(w, l);
    OnlySendingStamps(w.server, w.links[l], call, mac);
    SendingPlace(w.links[l], w.server.pc, w.server.files, w.server.dirty, Holder(w, l));
  }
}
