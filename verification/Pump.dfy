/**
 The native packet pump of the device (`packet_pump.cpp`): `Connect`, `Start` and `Stop` exclude each
 other with `operationMutex_`, two pump threads share the socket fd, and either may fail at any
 moment. Every step that another thread can observe is one step of the system.
 */
module Pump {
  import opened Wrappers
  import opened Bytes

  // One opening of a file descriptor; the system may reuse its number, the model never does.
  type Fd = nat

  type Packet = seq<byte>

  const EIO := 5
  const EINVAL := 22
  const MIN_HEADER := 20

  // ----- Packets -----

  /** The total length field of an IPv4 header. */
  function TotalLength(p: Packet): uint16
    requires |p| >= 4
  {
    U16(p[2], p[3])
  }

  /** The high half of the first byte is 4. */
  predicate IsVersion4(b: byte) {
    0x40 <= b <= 0x4F
  }

  /** What the TUN side forwards: an IPv4 header, and no more declared than was read. */
  predicate Accepted(p: Packet) {
    |p| >= MIN_HEADER && IsVersion4(p[0]) && MIN_HEADER <= TotalLength(p) <= |p|
  }

  /** The packet without what was read past its declared end. */
  function Cut(p: Packet): Packet
    requires Accepted(p)
  {
    p[..TotalLength(p)]
  }

  /** What the other pump demands of a payload before it writes it to the TUN. */
  predicate Deliverable(p: Packet) {
    |p| >= MIN_HEADER && IsVersion4(p[0]) && TotalLength(p) == |p|
  }

  /** What is forwarded of the packets read, in order. */
  function Wanted(ps: seq<Packet>): (r: seq<Packet>)
    ensures |r| <= |ps|
  {
    if ps == [] then []
    else
      var before := Wanted(ps[..|ps| - 1]);
      var last := ps[|ps| - 1];
      if Accepted(last) then before + [Cut(last)] else before
  }

  /** The pumps of the two directions agree, and a packet the other pump takes is forwarded whole. */
  lemma CutIsDeliverable(p: Packet)
    ensures Accepted(p) ==> Deliverable(Cut(p)) && Cut(p) <= p
    ensures Deliverable(p) <==> Accepted(p) && Cut(p) == p
  {
  }

  /** Which packets are forwarded, and how much of them; which payloads are taken. */
  lemma PacketRules(p: Packet)
    ensures Accepted(p) <==>
              |p| >= 20 && 0x40 <= p[0] <= 0x4F && 20 <= Weighted(0, 0, p[2], p[3]) <= |p|
    ensures Accepted(p) ==> Cut(p) == p[..Weighted(0, 0, p[2], p[3])]
    ensures Deliverable(p) <==> |p| >= 20 && 0x40 <= p[0] <= 0x4F && Weighted(0, 0, p[2], p[3]) == |p|
  {
    hide U16;
    if |p| >= 20 {
      U16IsBigEndian(p[2], p[3]);
    }
  }

  /** A header 45 xx 00 1C announces 28 bytes, and no more of what was read is forwarded. */
  lemma PacketOf28(p: Packet)
    requires |p| >= 28 && p[0] == 0x45 && p[2] == 0x00 && p[3] == 0x1C
    ensures Accepted(p) && Cut(p) == p[..28]
  {
    PacketRules(p);
  }

  lemma WantedNone()
    ensures Wanted([]) == []
  {
  }

  lemma WantedSnoc(ps: seq<Packet>, p: Packet)
    ensures Wanted(ps + [p]) == Wanted(ps) + (if Accepted(p) then [Cut(p)] else [])
  {
    assert (ps + [p])[..|ps|] == ps;
  }

  lemma {:induction false} WantedIsDeliverable(ps: seq<Packet>)
    ensures forall i :: 0 <= i < |Wanted(ps)| ==> Deliverable(Wanted(ps)[i])
  {
    if ps != [] {
      WantedIsDeliverable(ps[..|ps| - 1]);
      CutIsDeliverable(ps[|ps| - 1]);
    }
  }

  // ----- The object -----

  /** The fields that the operations and the threads change. */
  datatype Fields = Fields(
    socketFd: Option<Fd>,
    connected: bool,
    running: bool,
    lastError: int,
    forwarded: nat,
    dropped: nat)

  const STOPPED := Fields(None, false, false, 0, 0, 0)

  predicate MayStart(f: Fields, tunFd: int, joinable: bool) {
    tunFd >= 0 && f.socketFd.Some? && f.connected && !joinable
  }

  function Started(f: Fields): Fields {
    f.(running := true, lastError := 0, forwarded := 0, dropped := 0)
  }

  /** The first half of `Fail`: only the first error since `Start` is kept. */
  function Recorded(f: Fields, error: int): Fields {
    if f.lastError != 0 then f else f.(lastError := if error == 0 then -EIO else error)
  }

  function Halted(f: Fields): Fields {
    f.(running := false)
  }

  function Installed(f: Fields, fd: Fd): Fields {
    f.(socketFd := Some(fd), connected := true, lastError := 0)
  }

  function Cleared(f: Fields): Fields {
    f.(socketFd := None, connected := false)
  }

  /** The fields that only the status, the traffic and the sequence numbers need; -1 is no TUN. */
  datatype Counters = Counters(tunFd: int, bytesFromTun: nat, packetsToTun: nat, bytesToTun: nat, outgoingSequence: uint32)

  class PacketPump {
    var socketFd: Option<Fd>
    var connected: bool
    var running: bool
    var lastError: int
    var packetsFromTun: nat
    var droppedPackets: nat
    var tunFd: int
    var bytesFromTun: nat
    var packetsToTun: nat
    var bytesToTun: nat
    var outgoingSequence: uint32

    // History: the sockets shut down.
    var shutdowns: seq<Fd>

    ghost function State(): (f: Fields)
      reads this
    {
      Fields(socketFd, connected, running, lastError, packetsFromTun, droppedPackets)
    }

    ghost function Rest(): (c: Counters)
      reads this
    {
      Counters(tunFd, bytesFromTun, packetsToTun, bytesToTun, outgoingSequence)
    }

    constructor ()
      ensures State() == STOPPED && Rest() == Counters(-1, 0, 0, 0, 2) && shutdowns == []
    {
      socketFd, connected, running, lastError, packetsFromTun, droppedPackets := None, false, false, 0, 0, 0;
      tunFd, bytesFromTun, packetsToTun, bytesToTun, outgoingSequence, shutdowns := -1, 0, 0, 0, 2, [];
    }

    /** `Start` up to the creation of the threads; `joinable` is whether one is still to be joined. */
    method Start(tunFd: int, joinable: bool) returns (result: int)
      modifies this
      ensures result == 0 <==> tunFd >= 0 && old(socketFd).Some? && old(connected) && !joinable
      ensures result == 0 ==>
                running && connected && lastError == 0 && packetsFromTun == 0 && droppedPackets == 0 && socketFd == old(socketFd)
      ensures result == 0 <==> MayStart(old(State()), tunFd, joinable)
      ensures result != 0 ==> result == -EINVAL && State() == old(State()) && Rest() == old(Rest())
      ensures result == 0 ==> State() == Started(old(State())) && Rest() == Counters(tunFd, 0, 0, 0, 2)
      ensures shutdowns == old(shutdowns)
    {
      if tunFd < 0 || socketFd.None? || !connected || joinable {
        return -EINVAL;
      }
      this.tunFd := tunFd;
      running := true;
      lastError := 0;
      packetsFromTun := 0;
      bytesFromTun := 0;
      packetsToTun := 0;
      bytesToTun := 0;
      droppedPackets := 0;
      outgoingSequence := 2;
      result := 0;
    }

    /** The end of a `Connect` that succeeds. */
    method Install(fd: Fd)
      modifies this
      ensures socketFd == Some(fd) && connected && lastError == 0 && running == old(running)
      ensures State() == Installed(old(State()), fd) && Rest() == old(Rest()) && shutdowns == old(shutdowns)
    {
      socketFd := Some(fd);
      connected := true;
      lastError := 0;
    }

    /** The first error stays, the pump halts and the socket is shut down, which wakes the other thread. */
    method Fail(error: int, dataFd: Fd)
      modifies this
      ensures !running && connected == old(connected) && socketFd == old(socketFd)
      ensures lastError == if old(lastError) != 0 then old(lastError) else if error == 0 then -5 else error
      ensures State() == Halted(Recorded(old(State()), error)) && Rest() == old(Rest())
      ensures shutdowns == old(shutdowns) + [dataFd]
    {
      if lastError == 0 {
        lastError := if error == 0 then -EIO else error;
      }
      running := false;
      shutdowns := shutdowns + [dataFd];
    }

    /** The start of `StopLocked`, up to the joins. */
    method Halt()
      modifies this
      ensures !running && connected == old(connected) && socketFd == old(socketFd)
      ensures State() == Halted(old(State())) && Rest() == old(Rest())
      ensures shutdowns == old(shutdowns) + if old(socketFd).Some? then [old(socketFd).value] else []
    {
      running := false;
      if socketFd.Some? {
        shutdowns := shutdowns + [socketFd.value];
      }
    }

    /** The end of `StopLocked`; `closing` is the fd that it closes. */
    method Clear() returns (closing: Option<Fd>)
      modifies this
      ensures socketFd == None && !connected && running == old(running)
      ensures closing == old(socketFd) && State() == Cleared(old(State()))
      ensures Rest() == old(Rest()).(tunFd := -1) && shutdowns == old(shutdowns)
    {
      closing := socketFd;
      socketFd := None;
      tunFd := -1;
      connected := false;
    }

    /**
     One packet of the TUN loop; `sendResult` is what the send gives, if there is one. The packet
     is counted exactly once or ends the loop.
     */
    method PumpPacket(packet: Packet, sendResult: int, dataFd: Fd) returns (sent: Option<Packet>)
      modifies this
      ensures sent.Some? <==> Accepted(packet)
      ensures sent.Some? ==> Deliverable(sent.value) && sent.value == Cut(packet)
      ensures sent.None? ==>
                State() == old(State()).(dropped := old(droppedPackets) + 1) && Rest() == old(Rest())
      ensures sent.Some? && sendResult == 0 ==>
                && State() == old(State()).(forwarded := old(packetsFromTun) + 1)
                && Rest() == old(Rest()).(bytesFromTun := old(bytesFromTun) + |sent.value|)
      ensures sent.Some? && sendResult != 0 ==>
                State() == Halted(Recorded(old(State()), sendResult)) && Rest() == old(Rest())
      ensures shutdowns == old(shutdowns) + if sent.Some? && sendResult != 0 then [dataFd] else []
    {
      if |packet| < MIN_HEADER || !IsVersion4(packet[0]) {
        droppedPackets := droppedPackets + 1;
        return None;
      }
      var totalLength := U16(packet[2], packet[3]);
      if totalLength < MIN_HEADER || totalLength > |packet| {
        droppedPackets := droppedPackets + 1;
        return None;
      }
      CutIsDeliverable(packet);
      sent := Some(packet[..totalLength]);
      if sendResult != 0 {
        Fail(sendResult, dataFd);
      } else {
        packetsFromTun := packetsFromTun + 1;
        bytesFromTun := bytesFromTun + totalLength;
      }
    }
  }

  // ----- The step system -----

  /** The thread that reads the TUN, with the socket fd it was given. */
  datatype TunThread =
    | TunNone
    | TunLoop(fd: Fd)
    | TunHolds(fd: Fd, packet: Packet)
    | TunSent(fd: Fd)
    | TunFailing(fd: Fd, error: int)
    | TunHalting(fd: Fd)
    | TunExited(fd: Fd)

  /** The thread that reads the socket. */
  datatype SocketThread =
    | SocketNone
    | SocketLoop(fd: Fd)
    | SocketFailing(fd: Fd, error: int)
    | SocketHalting(fd: Fd)
    | SocketExited(fd: Fd)

  /** The operation that holds `operationMutex_`; `connect` is whether the stop is that of a connect. */
  datatype Operation =
    | NoOperation
    | JoiningTun(connect: bool)
    | JoiningSocket(connect: bool)
    | Closing(connect: bool)
    | Opening
    | Dialing(fd: Fd)
    | SpawningTun
    | SpawningSocket

  /** History since `Start`: the packets read, those sent, and those whose send failed. */
  datatype Traffic = Traffic(taken: seq<Packet>, sent: seq<Packet>, lost: seq<Packet>)

  const NO_TRAFFIC := Traffic([], [], [])

  /** `made` and `closes` are the history of all fds. */
  datatype State = State(
    fields: Fields,
    tun: TunThread,
    socket: SocketThread,
    operation: Operation,
    traffic: Traffic,
    made: set<Fd>,
    closes: multiset<Fd>)

  datatype Action =
    | BeginStop(connect: bool)
    | JoinTun
    | JoinSocket
    | CloseSocket
    | RefuseConnect
    | OpenSocket(fd: Fd)
    | ConnectFails
    | ConnectDone
    | BeginStart(tunFd: int)
    | SpawnTun
    | SpawnSocket
    | TunQuits
    | TunReads(packet: Packet)
    | TunDrops
    | TunSends(error: int)
    | TunCounts
    | TunMeetsError(error: int)
    | TunRecords
    | TunHalts
    | SocketQuits
    | SocketMeetsError(error: int)
    | SocketRecords
    | SocketHalts

  ghost predicate Init(s: State) {
    && s.fields == STOPPED && s.tun == TunNone && s.socket == SocketNone && s.operation == NoOperation
    && s.traffic == NO_TRAFFIC && s.made == {} && s.closes == multiset{}
  }

  predicate Joinable(s: State) {
    !s.tun.TunNone? || !s.socket.SocketNone?
  }

  predicate Enabled(s: State, a: Action) {
    match a
    case BeginStop(_) => s.operation.NoOperation?
    case JoinTun => s.operation.JoiningTun? && (s.tun.TunNone? || s.tun.TunExited?)
    case JoinSocket => s.operation.JoiningSocket? && (s.socket.SocketNone? || s.socket.SocketExited?)
    case CloseSocket => s.operation.Closing?
    case RefuseConnect => s.operation.Opening?
    case OpenSocket(fd) => s.operation.Opening? && fd !in s.made
    case ConnectFails => s.operation.Dialing?
    case ConnectDone => s.operation.Dialing?
    case BeginStart(_) => s.operation.NoOperation?
    case SpawnTun => s.operation.SpawningTun? && s.fields.socketFd.Some?
    case SpawnSocket => s.operation.SpawningSocket? && s.fields.socketFd.Some?
    case TunQuits => s.tun.TunLoop? && !s.fields.running
    case TunReads(_) => s.tun.TunLoop?
    case TunDrops => s.tun.TunHolds? && !Accepted(s.tun.packet)
    case TunSends(_) => s.tun.TunHolds? && Accepted(s.tun.packet)
    case TunCounts => s.tun.TunSent?
    case TunMeetsError(_) => s.tun.TunLoop?
    case TunRecords => s.tun.TunFailing?
    case TunHalts => s.tun.TunHalting?
    case SocketQuits => s.socket.SocketLoop? && !s.fields.running
    case SocketMeetsError(_) => s.socket.SocketLoop?
    case SocketRecords => s.socket.SocketFailing?
    case SocketHalts => s.socket.SocketHalting?
  }

  function CloseStep(s: State): State
    requires s.operation.Closing?
  {
    s.(closes := if s.fields.socketFd.Some? then s.closes + multiset{s.fields.socketFd.value} else s.closes,
       fields := Cleared(s.fields),
       operation := if s.operation.connect then Opening else NoOperation)
  }

  function SendStep(s: State, error: int): State
    requires s.tun.TunHolds? && Accepted(s.tun.packet)
  {
    var payload := Cut(s.tun.packet);
    if error == 0 then
      s.(tun := TunSent(s.tun.fd), traffic := s.traffic.(sent := s.traffic.sent + [payload]))
    else
      s.(tun := TunFailing(s.tun.fd, error), traffic := s.traffic.(lost := s.traffic.lost + [payload]))
  }

  function Step(s: State, a: Action): State
    requires Enabled(s, a)
  {
    match a
    case BeginStop(connect) => s.(fields := Halted(s.fields), operation := JoiningTun(connect))
    case JoinTun => s.(tun := TunNone, operation := JoiningSocket(s.operation.connect))
    case JoinSocket => s.(socket := SocketNone, operation := Closing(s.operation.connect))
    case CloseSocket => CloseStep(s)
    case RefuseConnect => s.(operation := NoOperation)
    case OpenSocket(fd) => s.(made := s.made + {fd}, operation := Dialing(fd))
    case ConnectFails => s.(closes := s.closes + multiset{s.operation.fd}, operation := NoOperation)
    case ConnectDone => s.(fields := Installed(s.fields, s.operation.fd), operation := NoOperation)
    case BeginStart(tunFd) =>
      if !MayStart(s.fields, tunFd, Joinable(s)) then s
      else s.(fields := Started(s.fields), operation := SpawningTun, traffic := NO_TRAFFIC)
    case SpawnTun => s.(tun := TunLoop(s.fields.socketFd.value), operation := SpawningSocket)
    case SpawnSocket => s.(socket := SocketLoop(s.fields.socketFd.value), operation := NoOperation)
    case TunQuits => s.(tun := TunExited(s.tun.fd))
    case TunReads(packet) =>
      s.(tun := TunHolds(s.tun.fd, packet), traffic := s.traffic.(taken := s.traffic.taken + [packet]))
    case TunDrops => s.(tun := TunLoop(s.tun.fd), fields := s.fields.(dropped := s.fields.dropped + 1))
    case TunSends(error) => SendStep(s, error)
    case TunCounts => s.(tun := TunLoop(s.tun.fd), fields := s.fields.(forwarded := s.fields.forwarded + 1))
    case TunMeetsError(error) => s.(tun := TunFailing(s.tun.fd, error))
    case TunRecords => s.(tun := TunHalting(s.tun.fd), fields := Recorded(s.fields, s.tun.error))
    case TunHalts => s.(tun := TunExited(s.tun.fd), fields := Halted(s.fields))
    case SocketQuits => s.(socket := SocketExited(s.socket.fd))
    case SocketMeetsError(error) => s.(socket := SocketFailing(s.socket.fd, error))
    case SocketRecords => s.(socket := SocketHalting(s.socket.fd), fields := Recorded(s.fields, s.socket.error))
    case SocketHalts => s.(socket := SocketExited(s.socket.fd), fields := Halted(s.fields))
  }

  ghost predicate IsRun(run: seq<State>, actions: seq<Action>) {
    && |run| == |actions| + 1
    && Init(run[0])
    && forall i :: 0 <= i < |actions| ==> Enabled(run[i], actions[i]) && run[i + 1] == Step(run[i], actions[i])
  }

  // ----- Threads and file descriptors -----

  predicate TunAlive(s: State) {
    !s.tun.TunNone? && !s.tun.TunExited?
  }

  predicate SocketAlive(s: State) {
    !s.socket.SocketNone? && !s.socket.SocketExited?
  }

  /** What each point of an operation knows of the threads and the field. */
  ghost predicate OperationInv(s: State) {
    match s.operation
    case JoiningSocket(_) => s.tun.TunNone?
    case Closing(_) => !Joinable(s)
    case Opening => !Joinable(s) && s.fields.socketFd.None?
    case Dialing(_) => !Joinable(s) && s.fields.socketFd.None?
    case SpawningTun => !Joinable(s) && s.fields.socketFd.Some?
    case SpawningSocket => s.socket.SocketNone? && !s.tun.TunNone?
    case _ => true
  }

  /** `running_` is set only while neither pump thread has exited, or before they start. */
  ghost predicate RunningInv(s: State) {
    s.fields.running ==>
      match s.operation
      case NoOperation => TunAlive(s) && SocketAlive(s)
      case SpawningTun => true
      case SpawningSocket => TunAlive(s)
      case _ => false
  }

  ghost predicate ThreadInv(s: State) {
    && (!s.tun.TunNone? ==> s.fields.socketFd == Some(s.tun.fd))
    && (!s.socket.SocketNone? ==> s.fields.socketFd == Some(s.socket.fd))
    && (s.fields.connected <==> s.fields.socketFd.Some?)
    && OperationInv(s)
    && RunningInv(s)
  }

  /** The places where an open fd is kept: the field, or the local variable of `Connect`. */
  predicate Kept(s: State, fd: Fd) {
    s.fields.socketFd == Some(fd) || s.operation == Dialing(fd)
  }

  ghost predicate FdInvAt(s: State, fd: Fd) {
    && (Kept(s, fd) ==> fd in s.made)
    && s.closes[fd] == if fd in s.made && !Kept(s, fd) then 1 else 0
  }

  ghost predicate FdInv(s: State) {
    forall fd: Fd :: FdInvAt(s, fd)
  }

  lemma ThreadStep(s: State, a: Action)
    requires ThreadInv(s) && Enabled(s, a)
    ensures ThreadInv(Step(s, a))
  {
  }

  lemma FdStepAt(s: State, a: Action, fd: Fd)
    requires ThreadInv(s) && FdInvAt(s, fd) && Enabled(s, a)
    ensures FdInvAt(Step(s, a), fd)
  {
  }

  lemma FdStep(s: State, a: Action)
    requires ThreadInv(s) && FdInv(s) && Enabled(s, a)
    ensures FdInv(Step(s, a))
  {
    hide Step;
    forall fd: Fd ensures FdInvAt(Step(s, a), fd) {
      FdStepAt(s, a, fd);
    }
  }

  // ----- Packets -----

  /** The packet that the thread has read and not yet sent, dropped or failed to send. */
  function InHand(t: TunThread): seq<Packet> {
    if t.TunHolds? && Accepted(t.packet) then [Cut(t.packet)] else []
  }

  /** What was to be forwarded of the packets read was sent, was lost or is in hand, in this order. */
  ghost predicate Balanced(t: Traffic, hand: seq<Packet>) {
    Wanted(t.taken) == t.sent + t.lost + hand
  }

  lemma BalancedAtFirst()
    ensures Balanced(NO_TRAFFIC, [])
  {
  }

  lemma BalancedRead(t: Traffic, packet: Packet)
    requires Balanced(t, [])
    ensures Balanced(t.(taken := t.taken + [packet]), if Accepted(packet) then [Cut(packet)] else [])
  {
    hide Accepted, Cut, Wanted;
    WantedSnoc(t.taken, packet);
  }

  lemma BalancedSend(t: Traffic, payload: Packet)
    requires Balanced(t, [payload]) && t.lost == []
    ensures Balanced(t.(sent := t.sent + [payload]), [])
    ensures Balanced(t.(lost := t.lost + [payload]), [])
  {
    hide Wanted;
  }

  ghost predicate TrafficInv(s: State) {
    && Balanced(s.traffic, InHand(s.tun))
    && |s.traffic.lost| <= 1
    && (s.traffic.lost != [] ==> !s.tun.TunLoop? && !s.tun.TunHolds? && !s.tun.TunSent?)
    && (s.operation.SpawningTun? ==> s.traffic == NO_TRAFFIC)
  }

  ghost predicate CountInv(s: State) {
    && |s.traffic.sent| == s.fields.forwarded + (if s.tun.TunSent? then 1 else 0)
    && |s.traffic.taken| == |Wanted(s.traffic.taken)| + s.fields.dropped +
       (if s.tun.TunHolds? && !Accepted(s.tun.packet) then 1 else 0)
  }

  lemma TrafficStep(s: State, a: Action)
    requires ThreadInv(s) && TrafficInv(s) && Enabled(s, a)
    ensures TrafficInv(Step(s, a))
  {
    hide Accepted, Cut, Balanced;
    BalancedAtFirst();
    if a.TunReads? {
      BalancedRead(s.traffic, a.packet);
    } else if a.TunSends? {
      BalancedSend(s.traffic, Cut(s.tun.packet));
    }
  }

  lemma CountStep(s: State, a: Action)
    requires ThreadInv(s) && CountInv(s) && Enabled(s, a)
    ensures CountInv(Step(s, a))
  {
    hide Accepted, Cut, Wanted;
    WantedNone();
    if a.TunReads? {
      WantedSnoc(s.traffic.taken, a.packet);
    }
  }

  lemma {:induction false} Invariance(run: seq<State>, actions: seq<Action>, i: nat)
    requires IsRun(run, actions) && i < |run|
    ensures ThreadInv(run[i]) && FdInv(run[i]) && TrafficInv(run[i]) && CountInv(run[i])
    decreases i
  {
    if i > 0 {
      var s, a := run[i - 1], actions[i - 1];
      Invariance(run, actions, i - 1);
      ThreadStep(s, a);
      FdStep(s, a);
      TrafficStep(s, a);
      CountStep(s, a);
    }
  }

  // ----- Theorems -----

  /**
   In every run: each socket fd is closed at most once; an fd that has been closed is in no thread's
   hands, so none is closed before both threads that use it have been joined; every fd that was opened
   and not closed is in `socketFd_` or in the hands of `Connect`.
   */
  lemma FdClosedOnceAfterJoins(run: seq<State>, actions: seq<Action>, i: nat, fd: Fd)
    requires IsRun(run, actions) && i < |run|
    ensures run[i].closes[fd] <= 1
    ensures run[i].closes[fd] == 1 ==>
              && (run[i].tun.TunNone? || run[i].tun.fd != fd)
              && (run[i].socket.SocketNone? || run[i].socket.fd != fd)
    ensures Kept(run[i], fd) <==> fd in run[i].made && run[i].closes[fd] == 0
  {
    Invariance(run, actions, i);
    assert FdInvAt(run[i], fd);
  }

  /** A stop leaves nothing behind: no thread, no fd of all that were ever opened, not running. */
  lemma StopLeavesNothing(run: seq<State>, actions: seq<Action>, i: nat)
    requires IsRun(run, actions) && i < |actions| && actions[i].CloseSocket?
    ensures !Joinable(run[i + 1]) && !run[i + 1].fields.running && !run[i + 1].fields.connected
    ensures var t := run[i + 1]; forall fd :: fd in t.made ==> t.closes[fd] == 1
  {
    Invariance(run, actions, i);
    Invariance(run, actions, i + 1);
    var t := run[i + 1];
    forall fd | fd in t.made ensures t.closes[fd] == 1 {
      assert FdInvAt(t, fd) && !Kept(t, fd);
    }
  }

  /** While no operation is under way, `Running()` means that neither pump thread has exited. */
  lemma RunningMeansNeitherExited(run: seq<State>, actions: seq<Action>, i: nat)
    requires IsRun(run, actions) && i < |run|
    requires run[i].operation.NoOperation? && run[i].fields.running
    ensures TunAlive(run[i]) && SocketAlive(run[i]) && run[i].fields.connected
  {
    Invariance(run, actions, i);
  }

  /**
   What the TUN thread sent is, in order, what it was to forward of all it read since `Start`, but
   for the packet in its hands and at most one whose send failed, and everything sent is taken
   by the check of the opposite pump.
   */
  lemma SentInOrder(run: seq<State>, actions: seq<Action>, i: nat)
    requires IsRun(run, actions) && i < |run|
    ensures var t := run[i].traffic; t.sent <= Wanted(t.taken) && |Wanted(t.taken)| <= |t.sent| + 1
    ensures var t := run[i].traffic; forall j :: 0 <= j < |t.sent| ==> Deliverable(t.sent[j])
  {
    Invariance(run, actions, i);
    var t := run[i].traffic;
    WantedIsDeliverable(t.taken);
    assert forall j :: 0 <= j < |t.sent| ==> t.sent[j] == Wanted(t.taken)[j];
  }

  /**
   Between two packets, the packets read since `Start` are those counted as forwarded, those counted
   as dropped, and at most one whose send failed.
   */
  lemma PacketsBalance(run: seq<State>, actions: seq<Action>, i: nat)
    requires IsRun(run, actions) && i < |run|
    requires !run[i].tun.TunHolds? && !run[i].tun.TunSent?
    ensures var s := run[i];
            && |s.traffic.taken| == s.fields.forwarded + s.fields.dropped + |s.traffic.lost|
            && |s.traffic.lost| <= 1
    ensures run[i].tun.TunLoop? ==> run[i].traffic.lost == []
  {
    Invariance(run, actions, i);
  }

  /** A start succeeds if and only if there is a TUN and a connected socket and both threads are joined. */
  lemma StartsIff(run: seq<State>, actions: seq<Action>, i: nat)
    requires IsRun(run, actions) && i < |actions| && actions[i].BeginStart?
    ensures run[i + 1].operation == SpawningTun <==>
              && actions[i].tunFd >= 0 && run[i].fields.socketFd.Some?
              && run[i].tun == TunNone && run[i].socket == SocketNone
    ensures run[i + 1].operation == SpawningTun ==>
              run[i + 1].fields.running && run[i + 1].fields.lastError == 0 && run[i + 1].traffic == NO_TRAFFIC
    ensures run[i + 1].operation != SpawningTun ==> run[i + 1] == run[i]
  {
    Invariance(run, actions, i);
    assert run[i + 1] == Step(run[i], actions[i]);
  }

  predicate Halts(a: Action) {
    a.BeginStop? || a.TunHalts? || a.SocketHalts?
  }

  /** From a start on, the pump runs if and only if nothing has halted it, until it is started again. */
  lemma {:induction false} RunsUntilHalted(run: seq<State>, actions: seq<Action>, i: nat, j: nat)
    requires IsRun(run, actions) && i < j < |run|
    requires actions[i].BeginStart? && run[i + 1].operation == SpawningTun
    requires forall k :: i < k < j && actions[k].BeginStart? ==> run[k + 1].operation != SpawningTun
    ensures run[j].fields.running <==> forall k :: i < k < j ==> !Halts(actions[k])
    decreases j
  {
    hide Step, Enabled, Halts;
    StartsIff(run, actions, i);
    if j > i + 1 {
      RunsUntilHalted(run, actions, i, j - 1);
      if actions[j - 1].BeginStart? {
        StartsIff(run, actions, j - 1);
      }
      RunningStep(run[j - 1], actions[j - 1]);
    }
  }

  lemma RunningStep(s: State, a: Action)
    requires Enabled(s, a)
    ensures Halts(a) ==> !Step(s, a).fields.running && !a.BeginStart?
    ensures !Halts(a) && !a.BeginStart? ==> Step(s, a).fields.running == s.fields.running
  {
  }

  /** The first error wins: it stays until the next `Connect` or `Start` succeeds. */
  lemma {:induction false} FirstErrorStays(run: seq<State>, actions: seq<Action>, i: nat, j: nat)
    requires IsRun(run, actions) && i <= j < |run|
    requires run[i].fields.lastError != 0
    requires forall k :: i <= k < j ==> !actions[k].ConnectDone?
    requires forall k :: i <= k < j ==> actions[k].BeginStart? ==> run[k + 1].operation != SpawningTun
    ensures run[j].fields.lastError == run[i].fields.lastError
    decreases j - i
  {
    if i < j {
      assert run[i + 1] == Step(run[i], actions[i]);
      assert !actions[i].ConnectDone?;
      FirstErrorStays(run, actions, i + 1, j);
    }
  }
}
