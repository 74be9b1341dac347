/** Who owns which descriptor: `Net::Socket` of src/core/socket.h and src/core/socket.cpp, as far as it opens, hands on
    and closes descriptors. */
module Sockets {
  const INVALID_SOCKET := -1

  datatype State = Unconnected | Connected | Listening

  /** The process's descriptor table. */
  class Kernel {
    var live: set<int>

    constructor ()
      ensures live == {}
    {
      live := {};
    }

    /** `socket` and `accept`: a descriptor that is not in use, the lowest, or none. */
    method Allocate() returns (fd: int)
      modifies this
      ensures if fd == INVALID_SOCKET
        then live == old(live)
        else fd >= 0 && fd !in old(live) && live == old(live) + {fd}
    {
      if * {
        return INVALID_SOCKET;
      }
      fd := 0;
      ghost var below: set<int> := {};
      while fd in live
        invariant fd >= 0 && below <= live && forall n | n in below :: 0 <= n < fd
        decreases live - below
      {
        below := below + {fd};
        fd := fd + 1;
      }
      live := live + {fd};
    }

    /** `close`, of a descriptor that is in use. */
    method Release(fd: int) returns (ok: bool)
      requires fd in live
      modifies this
      ensures live == old(live) - {fd}
    {
      live := live - {fd};
      ok := *;
    }
  }

  /** What one socket holds. */
  datatype Slot = Slot(fd: int, state: State) {
    predicate IsOpen() {
      fd != INVALID_SOCKET
    }

    function Held(): set<int> {
      if IsOpen() then {fd} else {}
    }
  }

  /** The descriptors in use and what every socket holds, at one moment. */
  datatype Snapshot = Snapshot(live: set<int>, slots: map<Socket, Slot>)

  ghost function Slots(sockets: set<Socket>): map<Socket, Slot>
    reads sockets
  {
    map s | s in sockets :: Slot(s.osSocket, s.state)
  }

  ghost function Now(kernel: Kernel, sockets: set<Socket>): Snapshot
    reads kernel, sockets
  {
    Snapshot(kernel.live, Slots(sockets))
  }

  /** Every open socket has a live descriptor of its own. */
  ghost predicate OwnedIn(t: Snapshot) {
    && (forall s | s in t.slots && t.slots[s].IsOpen() :: t.slots[s].fd in t.live)
    && (forall s, u | s in t.slots && u in t.slots && t.slots[s].IsOpen() && t.slots[s].fd == t.slots[u].fd :: s == u)
  }

  /** The descriptors some socket holds. */
  ghost function HeldIn(slots: map<Socket, Slot>): set<int> {
    set s | s in slots && slots[s].IsOpen() :: slots[s].fd
  }

  /** The descriptors in use that nobody can close any more. */
  ghost function LeakedIn(t: Snapshot): set<int> {
    t.live - HeldIn(t.slots)
  }

  ghost predicate Owned(kernel: Kernel, sockets: set<Socket>)
    reads kernel, sockets
  {
    OwnedIn(Now(kernel, sockets))
  }

  ghost function Leaked(kernel: Kernel, sockets: set<Socket>): set<int>
    reads kernel, sockets
  {
    LeakedIn(Now(kernel, sockets))
  }

  /** The descriptor a socket holds, if any. */
  ghost function HeldBy(s: Socket): set<int>
    reads s
  {
    Slot(s.osSocket, s.state).Held()
  }

  /** What the system may answer when asked for a descriptor: none, or one that is not in use. */
  predicate Allocated(live: set<int>, fd: int, live': set<int>) {
    if fd == INVALID_SOCKET then live' == live else fd >= 0 && fd !in live && live' == live + {fd}
  }

  /** Every descriptor is held once, so changing one slot takes its own away and adds the new one. */
  lemma HeldElsewhere(t: Snapshot, s: Socket, slot: Slot)
    requires OwnedIn(t) && s in t.slots
    ensures HeldIn(t.slots[s := slot]) == HeldIn(t.slots) - t.slots[s].Held() + slot.Held()
  {
    var slots' := t.slots[s := slot];
    forall fd | fd in HeldIn(t.slots) - t.slots[s].Held() + slot.Held() ensures fd in HeldIn(slots') {
      if fd in slot.Held() {
        assert slots'[s].fd == fd;
      } else {
        var u: Socket :| u in t.slots && t.slots[u].IsOpen() && t.slots[u].fd == fd;
        assert slots'[u].fd == fd;
      }
    }
  }

  /** A socket that is given what was just allocated loses what it held. */
  lemma SlotGiven(t: Snapshot, s: Socket, slot: Slot, live': set<int>)
    requires OwnedIn(t) && s in t.slots && Allocated(t.live, slot.fd, live')
    ensures var t' := Snapshot(live', t.slots[s := slot]);
      OwnedIn(t') && LeakedIn(t') == LeakedIn(t) + t.slots[s].Held()
  {
    HeldElsewhere(t, s, slot);
  }

  /** A socket whose descriptor is given back, or kept through a change of state, loses nothing. */
  lemma SlotKept(t: Snapshot, s: Socket, slot: Slot)
    requires OwnedIn(t) && s in t.slots && (slot.fd == t.slots[s].fd || !slot.IsOpen())
    ensures var t' := Snapshot(if slot.IsOpen() then t.live else t.live - t.slots[s].Held(), t.slots[s := slot]);
      OwnedIn(t') && LeakedIn(t') == LeakedIn(t)
  {
    HeldElsewhere(t, s, slot);
  }

  /** A move loses what the target held. */
  lemma SlotMoved(t: Snapshot, from: Socket, to: Socket)
    requires OwnedIn(t) && from in t.slots && to in t.slots
    ensures var t' := Snapshot(t.live, t.slots[to := t.slots[from]][from := Slot(INVALID_SOCKET, t.slots[from].state)]);
      OwnedIn(t') && LeakedIn(t') == LeakedIn(t) + t.slots[to].Held()
  {
    var closed := Slot(INVALID_SOCKET, t.slots[from].state);
    HeldElsewhere(t, from, closed);
    var t1 := Snapshot(t.live, t.slots[from := closed]);
    if from == to {
      assert t.slots[to := t.slots[from]] == t.slots;
    } else {
      HeldElsewhere(t1, to, t.slots[from]);
      assert t1.slots[to := t.slots[from]] == t.slots[to := t.slots[from]][from := closed];
    }
  }

  lemma SlotsSwapped(t: Snapshot, s: Socket, u: Socket)
    requires OwnedIn(t) && s in t.slots && u in t.slots
    ensures var t' := Snapshot(t.live, t.slots[s := t.slots[u]][u := t.slots[s]]);
      OwnedIn(t') && LeakedIn(t') == LeakedIn(t)
  {
    var slots' := t.slots[s := t.slots[u]][u := t.slots[s]];
    forall fd | fd in HeldIn(t.slots) ensures fd in HeldIn(slots') {
      var v: Socket :| v in t.slots && t.slots[v].IsOpen() && t.slots[v].fd == fd;
      var v' := if v == s then u else if v == u then s else v;
      assert slots'[v'].fd == fd;
    }
  }

  /** A socket that is closed can join and leave without a trace. */
  lemma SlotClosed(t: Snapshot, s: Socket, slot: Slot)
    requires s !in t.slots && !slot.IsOpen()
    ensures var t' := t.(slots := t.slots[s := slot]);
      (OwnedIn(t') <==> OwnedIn(t)) && LeakedIn(t') == LeakedIn(t)
  {
    var slots' := t.slots[s := slot];
    assert forall u | u in t.slots :: u != s && slots'[u] == t.slots[u];
    forall fd | fd in HeldIn(t.slots) ensures fd in HeldIn(slots') {
      var u: Socket :| u in t.slots && t.slots[u].IsOpen() && t.slots[u].fd == fd;
      assert slots'[u].fd == fd;
    }
  }

  lemma SlotAdded(t: Snapshot, s: Socket, slot: Slot, live': set<int>)
    requires OwnedIn(t) && s !in t.slots && Allocated(t.live, slot.fd, live')
    ensures var t' := Snapshot(live', t.slots[s := slot]); OwnedIn(t') && LeakedIn(t') == LeakedIn(t)
  {
    hide OwnedIn, LeakedIn;
    var before := t.(slots := t.slots[s := Slot(INVALID_SOCKET, slot.state)]);
    SlotClosed(t, s, Slot(INVALID_SOCKET, slot.state));
    SlotGiven(before, s, slot, live');
    assert before.slots[s := slot] == t.slots[s := slot];
  }

  class Socket {
    const kernel: Kernel
    var osSocket: int
    var state: State
    var failed: bool

    constructor (kernel: Kernel)
      ensures this.kernel == kernel && !IsOpen() && state.Unconnected? && !failed
    {
      this.kernel := kernel;
      osSocket, state, failed := INVALID_SOCKET, Unconnected, false;
    }

    predicate IsOpen()
      reads this
    {
      osSocket != INVALID_SOCKET
    }

    /** Opens a socket. One that is open already - an assertion rules it out, in debug builds only - loses the
        descriptor it holds. `all` is every socket there is. */
    method Open(ghost all: set<Socket>) returns (ok: bool)
      requires this in all && Owned(kernel, all)
      modifies this, kernel
      ensures Owned(kernel, all)
      ensures Leaked(kernel, all) == old(Leaked(kernel, all)) + old(HeldBy(this))
      ensures ok == IsOpen() && state == old(state) && Allocated(old(kernel.live), osSocket, kernel.live)
    {
      hide OwnedIn, LeakedIn;
      ghost var t := Now(kernel, all);
      osSocket := kernel.Allocate();
      ok := osSocket != INVALID_SOCKET;
      if !ok {
        failed := true;
      }
      SlotGiven(t, this, Slot(osSocket, state), kernel.live);
      assert Slots(all) == t.slots[this := Slot(osSocket, state)];
    }

    /** Closes the descriptor, which nobody else has closed; a closed socket stays as it is. */
    method Close(ghost all: set<Socket>)
      requires this in all && Owned(kernel, all)
      modifies this, kernel
      ensures Owned(kernel, all) && Leaked(kernel, all) == old(Leaked(kernel, all))
      ensures !IsOpen() && state == if old(IsOpen()) then Unconnected else old(state)
      ensures kernel.live == old(kernel.live) - if old(IsOpen()) then {old(osSocket)} else {}
    {
      if !IsOpen() {
        return;
      }
      ghost var t := Now(kernel, all);
      assert t.slots[this].Held() == {osSocket};
      state := Unconnected;
      var ok := kernel.Release(osSocket);
      if !ok {
        failed := true;
      }
      osSocket := INVALID_SOCKET;
      SlotKept(t, this, Slot(osSocket, state));
      assert Slots(all) == t.slots[this := Slot(osSocket, state)];
    }

    method Connect() returns (ok: bool)
      requires IsOpen() && state.Unconnected?
      modifies this
      ensures osSocket == old(osSocket) && state == if ok then Connected else Unconnected
    {
      ok := *;
      if ok { state := Connected; } else { failed := true; }
    }

    method Listen() returns (ok: bool)
      requires IsOpen() && state.Unconnected?
      modifies this
      ensures osSocket == old(osSocket) && state == if ok then Listening else Unconnected
    {
      ok := *;
      if ok { state := Listening; } else { failed := true; }
    }

    /** Accepts a connection into a socket of its own. */
    method Accept(ghost all: set<Socket>) returns (result: Socket)
      requires this in all && Owned(kernel, all) && state.Listening?
      modifies this, kernel
      ensures fresh(result) && result.kernel == kernel && osSocket == old(osSocket) && state == old(state)
      ensures Owned(kernel, all + {result}) && Leaked(kernel, all + {result}) == old(Leaked(kernel, all))
      ensures result.state == if result.IsOpen() then Connected else Unconnected
      ensures Allocated(old(kernel.live), result.osSocket, kernel.live)
    {
      hide OwnedIn, LeakedIn;
      ghost var t := Now(kernel, all);
      result := new Socket(kernel);
      result.osSocket := kernel.Allocate();
      if result.osSocket == INVALID_SOCKET {
        failed := true;
      } else {
        result.state := Connected;
      }
      ghost var slot := Slot(result.osSocket, result.state);
      SlotAdded(t, result, slot, kernel.live);
      assert Slots(all + {result}) == t.slots[result := slot];
    }

    /** `*this = std::move(other)`. The descriptor changes hands; one that `this` still held is lost to everybody, and
        so is a socket's own when it is moved onto itself. What is left of `other` keeps the state it had. */
    method MoveFrom(other: Socket, ghost all: set<Socket>)
      requires this in all && other in all && other.kernel == kernel && Owned(kernel, all)
      modifies this, other
      ensures Owned(kernel, all)
      ensures Leaked(kernel, all) == old(Leaked(kernel, all)) + old(HeldBy(this))
      ensures !other.IsOpen() && other.state == old(other.state)
      ensures other != this ==>
        osSocket == old(other.osSocket) && state == old(other.state) && failed == old(other.failed)
    {
      hide OwnedIn, LeakedIn;
      ghost var t := Now(kernel, all);
      SlotMoved(t, other, this);
      osSocket := other.osSocket;
      failed := other.failed;
      state := other.state;
      other.osSocket := INVALID_SOCKET;
      assert Slots(all) == t.slots[this := t.slots[other]][other := Slot(INVALID_SOCKET, t.slots[other].state)];
    }

    /** `swap`. */
    method SwapWith(other: Socket, ghost all: set<Socket>)
      requires this in all && other in all && other.kernel == kernel && Owned(kernel, all)
      modifies this, other
      ensures Owned(kernel, all) && Leaked(kernel, all) == old(Leaked(kernel, all))
      ensures osSocket == old(other.osSocket) && state == old(other.state) && failed == old(other.failed)
      ensures other.osSocket == old(osSocket) && other.state == old(state) && other.failed == old(failed)
    {
      hide OwnedIn, LeakedIn;
      ghost var t := Now(kernel, all);
      SlotsSwapped(t, this, other);
      state, other.state := other.state, state;
      failed, other.failed := other.failed, failed;
      osSocket, other.osSocket := other.osSocket, osSocket;
      assert Slots(all) == t.slots[this := t.slots[other]][other := t.slots[this]];
    }
  }

  lemma ClosedSockets(kernel: Kernel, all: set<Socket>, s: Socket)
    ensures !s.IsOpen() ==>
      && (Owned(kernel, all) <==> Owned(kernel, all + {s}))
      && Leaked(kernel, all) == Leaked(kernel, all + {s})
  {
    if s in all {
      assert all + {s} == all;
    } else if !s.IsOpen() {
      SlotClosed(Now(kernel, all), s, Slot(s.osSocket, s.state));
      assert Slots(all + {s}) == Slots(all)[s := Slot(s.osSocket, s.state)];
    }
  }

  method StartListening(listener: Socket, ghost all: set<Socket>) returns (ok: bool)
    requires listener in all && Owned(listener.kernel, all) && listener.IsOpen() && !listener.state.Connected?
    modifies listener
    ensures Owned(listener.kernel, all) && Leaked(listener.kernel, all) == old(Leaked(listener.kernel, all))
    ensures ok ==> listener.state.Listening?
  {
    ok := true;
    if !listener.state.Listening? {
      ghost var t := Now(listener.kernel, all);
      ok := listener.Listen();
      SlotKept(t, listener, Slot(listener.osSocket, listener.state));
      assert Slots(all) == t.slots[listener := Slot(listener.osSocket, listener.state)];
    }
  }

  /** `TcpServer::Listen` (src/core/server.cpp:24-36): what `accept` returns ends up with the connection alone. */
  method AcceptConnection(listener: Socket, ghost all: set<Socket>) returns (connection: Socket?)
    requires listener in all && Owned(listener.kernel, all) && listener.IsOpen() && !listener.state.Connected?
    modifies listener, listener.kernel
    ensures if connection == null
      then Owned(listener.kernel, all) && Leaked(listener.kernel, all) == old(Leaked(listener.kernel, all))
      else
        && fresh(connection) && connection.IsOpen() && connection.state.Connected?
        && Owned(listener.kernel, all + {connection})
        && Leaked(listener.kernel, all + {connection}) == old(Leaked(listener.kernel, all))
  {
    hide Owned, Leaked;
    var listening := StartListening(listener, all);
    if !listening {
      return null;
    }
    var clientSocket := listener.Accept(all);
    ClosedSockets(listener.kernel, all, clientSocket);
    if !clientSocket.IsOpen() {
      return null;
    }
    connection := new Socket(listener.kernel);
    ClosedSockets(listener.kernel, all + {clientSocket}, connection);
    connection.MoveFrom(clientSocket, all + {clientSocket} + {connection});
    assert all + {clientSocket} + {connection} == all + {connection} + {clientSocket};
    ClosedSockets(listener.kernel, all + {connection}, clientSocket);
  }

  /** What a program does with its sockets, named by their index. */
  datatype Op =
    | OpenOp(i: nat)
    | CloseOp(i: nat)
    | ConnectOp(i: nat)
    | ListenOp(i: nat)
    | AcceptOp(from: nat, to: nat)   // the accepted socket is moved to another
    | MoveOp(from: nat, to: nat)
    | SwapOp(i: nat, j: nat)

  ghost function All(sockets: seq<Socket>): set<Socket> {
    set s | s in sockets
  }

  predicate InRange(sockets: seq<Socket>, op: Op) {
    match op
    case AcceptOp(from, to) => from < |sockets| && to < |sockets|
    case MoveOp(from, to) => from < |sockets| && to < |sockets|
    case SwapOp(i, j) => i < |sockets| && j < |sockets|
    case _ => op.i < |sockets|
  }

  predicate Covers(t: Snapshot, sockets: seq<Socket>) {
    forall s | s in sockets :: s in t.slots
  }

  /** An open socket that is not connected may become so. */
  predicate Turns(t: Snapshot, s: Socket, state: State, t': Snapshot)
    requires s in t.slots
  {
    t' == t || (t.slots[s].IsOpen() && t.slots[s].state.Unconnected?
                && t' == t.(slots := t.slots[s := Slot(t.slots[s].fd, state)]))
  }

  /** What one operation makes of a moment, whatever the system answers; what the source's assertions rule out, and what
      names no socket, is not done. */
  predicate Does(sockets: seq<Socket>, t: Snapshot, op: Op, t': Snapshot)
    requires Covers(t, sockets)
  {
    if !InRange(sockets, op) then t' == t
    else
      match op
      case OpenOp(i) =>
        var s := sockets[i];
        && s in t'.slots && Allocated(t.live, t'.slots[s].fd, t'.live)
        && t'.slots == t.slots[s := Slot(t'.slots[s].fd, t.slots[s].state)]
      case CloseOp(i) =>
        var s := sockets[i];
        t' == if t.slots[s].IsOpen()
          then Snapshot(t.live - {t.slots[s].fd}, t.slots[s := Slot(INVALID_SOCKET, Unconnected)])
          else t
      case ConnectOp(i) => Turns(t, sockets[i], Connected, t')
      case ListenOp(i) => Turns(t, sockets[i], Listening, t')
      case AcceptOp(from, to) =>
        var s := sockets[to];
        if t.slots[sockets[from]].state.Listening? then
          && s in t'.slots && Allocated(t.live, t'.slots[s].fd, t'.live)
          && t'.slots == t.slots[s := Slot(t'.slots[s].fd, if t'.slots[s].IsOpen() then Connected else Unconnected)]
        else t' == t
      case MoveOp(from, to) =>
        var (s, u) := (sockets[from], sockets[to]);
        t' == t.(slots := t.slots[u := t.slots[s]][s := Slot(INVALID_SOCKET, t.slots[s].state)])
      case SwapOp(i, j) =>
        var (s, u) := (sockets[i], sockets[j]);
        t' == t.(slots := t.slots[s := t.slots[u]][u := t.slots[s]])
  }

  /** The operation gives a descriptor to a socket that holds one already. */
  predicate Overwrites(sockets: seq<Socket>, t: Snapshot, op: Op)
    requires Covers(t, sockets)
  {
    InRange(sockets, op) &&
    match op
    case OpenOp(i) => t.slots[sockets[i]].IsOpen()
    case AcceptOp(from, to) => t.slots[sockets[from]].state.Listening? && t.slots[sockets[to]].IsOpen()
    case MoveOp(from, to) => t.slots[sockets[to]].IsOpen()
    case _ => false
  }

  /** What an operation loses. */
  function Lost(sockets: seq<Socket>, t: Snapshot, op: Op): (lost: set<int>)
    requires Covers(t, sockets)
    ensures |lost| == if Overwrites(sockets, t, op) then 1 else 0
  {
    if !InRange(sockets, op) then {}
    else
      match op
      case OpenOp(i) => t.slots[sockets[i]].Held()
      case AcceptOp(from, to) => if t.slots[sockets[from]].state.Listening? then t.slots[sockets[to]].Held() else {}
      case MoveOp(_, to) => t.slots[sockets[to]].Held()
      case _ => {}
  }

  lemma HeldIs(slot: Slot)
    ensures slot.Held() == if slot.IsOpen() then {slot.fd} else {}
  {
  }

  lemma TurnKept(t: Snapshot, s: Socket, state: State, t': Snapshot)
    requires s in t.slots && OwnedIn(t) && Turns(t, s, state, t')
    ensures t'.slots.Keys == t.slots.Keys && OwnedIn(t') && LeakedIn(t') == LeakedIn(t)
  {
    hide OwnedIn, LeakedIn;
    if t' != t {
      SlotKept(t, s, t'.slots[s]);
    }
  }

  lemma LostWasHeld(sockets: seq<Socket>, t: Snapshot, op: Op, fd: int)
    requires Covers(t, sockets) && fd in Lost(sockets, t, op)
    ensures fd !in LeakedIn(t)
  {
  }

  /** Any operation keeps every descriptor with one owner, and loses exactly the one it overwrites. */
  lemma OpKeeps(sockets: seq<Socket>, t: Snapshot, op: Op, t': Snapshot)
    requires Covers(t, sockets) && OwnedIn(t) && Does(sockets, t, op, t')
    ensures Covers(t', sockets) && t'.slots.Keys == t.slots.Keys && OwnedIn(t')
    ensures LeakedIn(t') == LeakedIn(t) + Lost(sockets, t, op) && Lost(sockets, t, op) !! LeakedIn(t)
  {
    hide OwnedIn, LeakedIn, Allocated, Slot.Held;
    if InRange(sockets, op) {
      match op
      case OpenOp(i) => SlotGiven(t, sockets[i], t'.slots[sockets[i]], t'.live);
      case CloseOp(i) =>
        if t.slots[sockets[i]].IsOpen() {
          HeldIs(t.slots[sockets[i]]);
          SlotKept(t, sockets[i], Slot(INVALID_SOCKET, Unconnected));
        }
      case ConnectOp(i) => TurnKept(t, sockets[i], Connected, t');
      case ListenOp(i) => TurnKept(t, sockets[i], Listening, t');
      case AcceptOp(from, to) =>
        if t.slots[sockets[from]].state.Listening? {
          SlotGiven(t, sockets[to], t'.slots[sockets[to]], t'.live);
        }
      case MoveOp(from, to) => SlotMoved(t, sockets[from], sockets[to]);
      case SwapOp(i, j) => SlotsSwapped(t, sockets[i], sockets[j]);
    }
    forall fd | fd in Lost(sockets, t, op) ensures fd !in LeakedIn(t) {
      LostWasHeld(sockets, t, op, fd);
    }
  }

  /** Connects or listens, where the source's assertion allows it. */
  method ConnectOrListen(s: Socket, listen: bool, ghost all: set<Socket>)
    requires s in all
    modifies s
    ensures Turns(old(Now(s.kernel, all)), s, if listen then Listening else Connected, Now(s.kernel, all))
  {
    if s.IsOpen() && s.state.Unconnected? {
      ghost var t := Now(s.kernel, all);
      if listen {
        var _ := s.Listen();
      } else {
        var _ := s.Connect();
      }
      assert Slots(all) == t.slots[s := Slot(s.osSocket, s.state)];
      assert t.slots[s := t.slots[s]] == t.slots;
    }
  }

  method AcceptInto(listener: Socket, target: Socket, ghost all: set<Socket>)
    requires listener in all && target in all && listener.kernel == target.kernel
    requires Owned(listener.kernel, all) && listener.state.Listening?
    modifies listener, target, listener.kernel
    ensures Allocated(old(listener.kernel.live), target.osSocket, listener.kernel.live)
    ensures target.state == if target.IsOpen() then Connected else Unconnected
    ensures listener != target ==> listener.osSocket == old(listener.osSocket) && listener.state == old(listener.state)
  {
    var accepted := listener.Accept(all);
    target.MoveFrom(accepted, all + {accepted});
  }

  /** One operation. */
  method Perform(kernel: Kernel, sockets: seq<Socket>, op: Op)
    requires Owned(kernel, All(sockets)) && forall s | s in sockets :: s.kernel == kernel
    modifies kernel, sockets
    ensures Covers(old(Now(kernel, All(sockets))), sockets)
    ensures Does(sockets, old(Now(kernel, All(sockets))), op, Now(kernel, All(sockets)))
    ensures Owned(kernel, All(sockets))
    ensures Leaked(kernel, All(sockets))
      == old(Leaked(kernel, All(sockets))) + Lost(sockets, old(Now(kernel, All(sockets))), op)
  {
    hide OwnedIn, LeakedIn, Allocated, Turns;
    ghost var all := All(sockets);
    ghost var t := Now(kernel, all);
    if InRange(sockets, op) {
      match op {
        case OpenOp(i) =>
          var _ := sockets[i].Open(all);
          assert Slots(all) == t.slots[sockets[i] := Slot(sockets[i].osSocket, sockets[i].state)];
        case CloseOp(i) =>
          sockets[i].Close(all);
          assert Slots(all) == t.slots[sockets[i] := Slot(sockets[i].osSocket, sockets[i].state)];
          assert t.slots[sockets[i] := t.slots[sockets[i]]] == t.slots;
        case ConnectOp(i) => ConnectOrListen(sockets[i], false, all);
        case ListenOp(i) => ConnectOrListen(sockets[i], true, all);
        case AcceptOp(from, to) =>
          if sockets[from].state.Listening? {
            AcceptInto(sockets[from], sockets[to], all);
            assert Slots(all) == t.slots[sockets[to] := Slot(sockets[to].osSocket, sockets[to].state)];
          }
        case MoveOp(from, to) =>
          sockets[to].MoveFrom(sockets[from], all);
          assert Slots(all) == t.slots[sockets[to] := t.slots[sockets[from]]]
              [sockets[from] := Slot(INVALID_SOCKET, t.slots[sockets[from]].state)];
        case SwapOp(i, j) =>
          sockets[i].SwapWith(sockets[j], all);
          assert Slots(all) == t.slots[sockets[i] := t.slots[sockets[j]]][sockets[j] := t.slots[sockets[i]]];
      }
    }
    OpKeeps(sockets, t, op, Now(kernel, all));
  }

  // ---------------------------------------------------------------- sequences of operations

  /** The moments between the operations of a sequence. */
  predicate Trace(sockets: seq<Socket>, trace: seq<Snapshot>, ops: seq<Op>) {
    && |trace| == |ops| + 1
    && (forall n | 0 <= n <= |ops| :: Covers(trace[n], sockets))
    && (forall n | 0 <= n < |ops| :: Does(sockets, trace[n], ops[n], trace[n + 1]))
  }

  /** How many of the first `n` operations give a descriptor to a socket that holds one. */
  function Overwritten(sockets: seq<Socket>, trace: seq<Snapshot>, ops: seq<Op>, n: nat): nat
    requires Trace(sockets, trace, ops) && n <= |ops|
  {
    if n == 0 then 0
    else Overwritten(sockets, trace, ops, n - 1) + if Overwrites(sockets, trace[n - 1], ops[n - 1]) then 1 else 0
  }

  lemma LostMore(leaked: set<int>, before: set<int>, more: set<int>)
    requires leaked <= before && more !! before
    ensures leaked <= before + more && |before + more - leaked| == |before - leaked| + |more|
  {
    assert before + more - leaked == (before - leaked) + more;
  }

  /** Whatever the system answers, every descriptor keeps one owner throughout, and as many are lost as were
      overwritten. */
  lemma {:induction false} TraceKeeps(sockets: seq<Socket>, trace: seq<Snapshot>, ops: seq<Op>, n: nat)
    requires Trace(sockets, trace, ops) && OwnedIn(trace[0]) && n <= |ops|
    ensures OwnedIn(trace[n]) && LeakedIn(trace[0]) <= LeakedIn(trace[n])
    ensures |LeakedIn(trace[n]) - LeakedIn(trace[0])| == Overwritten(sockets, trace, ops, n)
  {
    hide OwnedIn, LeakedIn, Does, Overwrites, Lost, Covers;
    if n > 0 {
      TraceKeeps(sockets, trace, ops, n - 1);
      OpKeeps(sockets, trace[n - 1], ops[n - 1], trace[n]);
      LostMore(LeakedIn(trace[0]), LeakedIn(trace[n - 1]), Lost(sockets, trace[n - 1], ops[n - 1]));
    }
  }

  /** The sockets that may hold a descriptor behind an operation, if those in `held` may before it. */
  function HeldAfter(sockets: seq<Socket>, held: set<nat>, op: Op): set<nat> {
    if !InRange(sockets, op) then held
    else
      match op
      case OpenOp(i) => held + {i}
      case CloseOp(i) => held - {i}
      case AcceptOp(_, to) => held + {to}
      case MoveOp(from, to) => (if from in held then held + {to} else held - {to}) - {from}
      case SwapOp(i, j) => held - {i, j} + (if i in held then {j} else {}) + if j in held then {i} else {}
      case _ => held
  }

  function MayHold(sockets: seq<Socket>, ops: seq<Op>, n: nat): set<nat>
    requires n <= |ops|
  {
    if n == 0 then {} else HeldAfter(sockets, MayHold(sockets, ops, n - 1), ops[n - 1])
  }

  /** Only sockets that cannot hold a descriptor are opened, accepted into or moved to. */
  predicate Careful(sockets: seq<Socket>, ops: seq<Op>) {
    forall n | 0 <= n < |ops| && InRange(sockets, ops[n]) ::
      match ops[n]
      case OpenOp(i) => i !in MayHold(sockets, ops, n)
      case AcceptOp(_, to) => to !in MayHold(sockets, ops, n)
      case MoveOp(_, to) => to !in MayHold(sockets, ops, n)
      case _ => true
  }

  predicate Distinct(sockets: seq<Socket>) {
    forall i, j | 0 <= i < j < |sockets| :: sockets[i] != sockets[j]
  }

  predicate HeldWithin(sockets: seq<Socket>, t: Snapshot, held: set<nat>)
    requires Covers(t, sockets)
  {
    forall i: nat | i < |sockets| && t.slots[sockets[i]].IsOpen() :: i in held
  }

  lemma HeldStep(sockets: seq<Socket>, t: Snapshot, held: set<nat>, op: Op, t': Snapshot)
    requires Distinct(sockets) && Covers(t, sockets) && Covers(t', sockets) && Does(sockets, t, op, t')
    requires HeldWithin(sockets, t, held)
    ensures HeldWithin(sockets, t', HeldAfter(sockets, held, op))
  {
    hide Allocated;
  }

  /** A careful sequence overwrites nothing, whatever the system answers. */
  lemma {:induction false} CarefulKeeps(sockets: seq<Socket>, trace: seq<Snapshot>, ops: seq<Op>, n: nat)
    requires Distinct(sockets) && Trace(sockets, trace, ops) && n <= |ops|
    requires Careful(sockets, ops) && HeldWithin(sockets, trace[0], {})
    ensures HeldWithin(sockets, trace[n], MayHold(sockets, ops, n)) && Overwritten(sockets, trace, ops, n) == 0
  {
    hide Does, HeldAfter;
    if n > 0 {
      CarefulKeeps(sockets, trace, ops, n - 1);
      HeldStep(sockets, trace[n - 1], MayHold(sockets, ops, n - 1), ops[n - 1], trace[n]);
    }
  }

  /** One operation after another, from the moment the method is called to the one it returns. */
  method PerformAll(kernel: Kernel, sockets: seq<Socket>, ops: seq<Op>) returns (ghost trace: seq<Snapshot>)
    requires Owned(kernel, All(sockets)) && forall s | s in sockets :: s.kernel == kernel
    modifies kernel, sockets
    ensures Trace(sockets, trace, ops)
    ensures trace[0] == old(Now(kernel, All(sockets))) && trace[|ops|] == Now(kernel, All(sockets))
    ensures Owned(kernel, All(sockets)) && forall n | 0 <= n <= |ops| :: OwnedIn(trace[n])
  {
    hide OwnedIn, LeakedIn, Does, Lost;
    trace := [Now(kernel, All(sockets))];
    for n := 0 to |ops|
      invariant Trace(sockets, trace, ops[..n]) && Owned(kernel, All(sockets))
      invariant trace[0] == old(Now(kernel, All(sockets))) && trace[n] == Now(kernel, All(sockets))
      invariant forall m | 0 <= m <= n :: OwnedIn(trace[m])
    {
      Perform(kernel, sockets, ops[n]);
      assert ops[..n + 1] == ops[..n] + [ops[n]];
      trace := trace + [Now(kernel, All(sockets))];
    }
    assert ops[..|ops|] == ops;
  }

  /** Sockets that are all closed own nothing. */
  lemma AllClosed(kernel: Kernel, all: set<Socket>)
    requires forall s | s in all :: !s.IsOpen()
    ensures Owned(kernel, all) && Leaked(kernel, all) == kernel.live
  {
    assert HeldIn(Slots(all)) == {};
  }

  /** What the destructors do. */
  method LetGo(kernel: Kernel, sockets: seq<Socket>)
    requires Owned(kernel, All(sockets)) && forall s | s in sockets :: s.kernel == kernel
    modifies kernel, sockets
    ensures (forall s | s in sockets :: !s.IsOpen()) && kernel.live == old(Leaked(kernel, All(sockets)))
  {
    hide Owned, Leaked;
    ghost var all := All(sockets);
    for n := 0 to |sockets|
      invariant Owned(kernel, all) && Leaked(kernel, all) == old(Leaked(kernel, all))
      invariant forall m | 0 <= m < n :: !sockets[m].IsOpen()
    {
      label Before:
      sockets[n].Close(all);
      assert forall m | 0 <= m < n && sockets[m] != sockets[n] ::
          sockets[m].osSocket == old@Before(sockets[m].osSocket);
    }
    AllClosed(kernel, all);
  }

  /** A program that starts with closed sockets, does anything with them and lets them go: whatever fails on the way, no
      two sockets ever share a descriptor, and the descriptors still in use behind the destructors are as many as there
      were operations that gave one to a socket that held one. There is none of them if the program is careful. */
  method UseSockets(kernel: Kernel, sockets: seq<Socket>, ops: seq<Op>) returns (ghost trace: seq<Snapshot>)
    requires forall s | s in sockets :: s.kernel == kernel && !s.IsOpen()
    modifies kernel, sockets
    ensures Trace(sockets, trace, ops) && trace[0] == old(Now(kernel, All(sockets)))
    ensures forall n | 0 <= n <= |ops| :: OwnedIn(trace[n])
    ensures (forall s | s in sockets :: !s.IsOpen()) && kernel.live == LeakedIn(trace[|ops|])
    ensures old(kernel.live) <= kernel.live
    ensures |kernel.live - old(kernel.live)| == Overwritten(sockets, trace, ops, |ops|)
    ensures (forall i, j | 0 <= i < j < |sockets| :: sockets[i] != sockets[j]) && Careful(sockets, ops) ==>
      kernel.live == old(kernel.live)
  {
    hide OwnedIn, LeakedIn, Does, Careful;
    AllClosed(kernel, All(sockets));
    trace := PerformAll(kernel, sockets, ops);
    TraceKeeps(sockets, trace, ops, |ops|);
    if Distinct(sockets) && Careful(sockets, ops) {
      CarefulKeeps(sockets, trace, ops, |ops|);
    }
    LetGo(kernel, sockets);
  }

  // ---------------------------------------------------------------- what the names above stand for

  /** A live descriptor is leaked, or exactly one socket holds it. */
  lemma HeldByOne(t: Snapshot, fd: int)
    requires OwnedIn(t) && fd in t.live && fd != -1
    ensures fd in LeakedIn(t) <==> forall s | s in t.slots :: t.slots[s].fd != fd
    ensures fd !in LeakedIn(t) ==>
      exists s :: s in t.slots && t.slots[s].fd == fd && forall u | u in t.slots && u != s :: t.slots[u].fd != fd
  {
    if s: Socket :| s in t.slots && t.slots[s].fd == fd {
      assert t.slots[s].IsOpen();
    }
  }

  /** Which operations lose a descriptor, and what each does: only opening and accepting take one from the system, and
      only closing gives one back. */
  lemma OpEffects(sockets: seq<Socket>, t: Snapshot, op: Op, t': Snapshot)
    requires Covers(t, sockets) && Does(sockets, t, op, t')
    ensures match op
      case OpenOp(i) => i < |sockets| ==>
        && t'.slots.Keys == t.slots.Keys && Overwrites(sockets, t, op) == (t.slots[sockets[i]].fd != -1)
        && var fd := t'.slots[sockets[i]].fd;
           if fd == -1 then t'.live == t.live else fd >= 0 && fd !in t.live && t'.live == t.live + {fd}
      case CloseOp(i) => i < |sockets| ==>
        && t'.slots.Keys == t.slots.Keys && !Overwrites(sockets, t, op) && t'.slots[sockets[i]].fd == -1
        && (t.slots[sockets[i]].fd != -1 ==> t'.live == t.live - {t.slots[sockets[i]].fd})
      case AcceptOp(from, to) => from < |sockets| && to < |sockets| ==>
        Overwrites(sockets, t, op) == (t.slots[sockets[from]].state == Listening && t.slots[sockets[to]].fd != -1)
      case MoveOp(from, to) => from < |sockets| && to < |sockets| ==>
        && t'.slots.Keys == t.slots.Keys && t'.live == t.live
        && Overwrites(sockets, t, op) == (t.slots[sockets[to]].fd != -1) && t'.slots[sockets[from]].fd == -1
        && (sockets[from] != sockets[to] ==> t'.slots[sockets[to]] == t.slots[sockets[from]])
      case SwapOp(i, j) => i < |sockets| && j < |sockets| ==>
        && t'.slots.Keys == t.slots.Keys && t'.live == t.live && !Overwrites(sockets, t, op)
        && t'.slots[sockets[i]] == t.slots[sockets[j]] && t'.slots[sockets[j]] == t.slots[sockets[i]]
      case _ => t'.live == t.live && !Overwrites(sockets, t, op)
  {
  }

  lemma MayHoldMore(sockets: seq<Socket>, ops: seq<Op>, n: nat)
    requires n < |ops|
    ensures MayHold(sockets, ops, n + 1) == HeldAfter(sockets, MayHold(sockets, ops, n), ops[n])
    ensures MayHold(sockets, ops, 0) == {}
  {
  }

  /** A socket may be opened again once it is closed or moved from, and moved to if nothing was opened there. */
  lemma CarefulOrNot(sockets: seq<Socket>)
    requires |sockets| == 2
    ensures Careful(sockets, [OpenOp(0), CloseOp(0), OpenOp(0)])
    ensures Careful(sockets, [OpenOp(0), MoveOp(0, 1), OpenOp(0), SwapOp(0, 1), CloseOp(1), AcceptOp(0, 1)])
    ensures !Careful(sockets, [OpenOp(0), OpenOp(0)]) && !Careful(sockets, [OpenOp(0), OpenOp(1), MoveOp(0, 1)])
    ensures !Careful(sockets, [OpenOp(0), SwapOp(0, 1), AcceptOp(0, 1)])
  {
    var a := [OpenOp(0), OpenOp(0)];
    MayHoldMore(sockets, a, 0);
    var b := [OpenOp(0), OpenOp(1), MoveOp(0, 1)];
    MayHoldMore(sockets, b, 0);
    MayHoldMore(sockets, b, 1);
    var c := [OpenOp(0), SwapOp(0, 1), AcceptOp(0, 1)];
    MayHoldMore(sockets, c, 0);
    MayHoldMore(sockets, c, 1);
    var d := [OpenOp(0), CloseOp(0), OpenOp(0)];
    MayHoldMore(sockets, d, 0);
    MayHoldMore(sockets, d, 1);
    var e := [OpenOp(0), MoveOp(0, 1), OpenOp(0), SwapOp(0, 1), CloseOp(1), AcceptOp(0, 1)];
    for n := 0 to 6
      invariant n >= 1 ==> MayHold(sockets, e, 1) == {0}
      invariant n >= 2 ==> MayHold(sockets, e, 2) == {1}
      invariant n >= 3 ==> MayHold(sockets, e, 3) == {0, 1}
      invariant n >= 4 ==> MayHold(sockets, e, 4) == {0, 1}
      invariant n >= 5 ==> MayHold(sockets, e, 5) == {0}
    {
      MayHoldMore(sockets, e, n);
    }
  }
}
