/**
 The session supervisor of the daemon as a step system: any number of connection goroutines, the
 shutdown and the mapping monitor, interleaved at every critical section of `Server.mu` and at
 every snapshot publish. A data bind publishes while it still holds the mutex, so it is one step.
 */
module Supervisor {
  import opened Wrappers
  import opened SessionSlots

  datatype Vpn = Unavailable | AuthRequired | Starting | Reconnecting | Active | Stopped | Failed

  datatype Transport = DeviceOffline | PortReady | ControlConnected | DataConnected

  datatype Snapshot = Snapshot(transport: Transport, vpn: Vpn, reconnects: nat)

  /** Where one connection goroutine stands. */
  datatype Handler =
    // handleControlConnection
    | HelloRead(mode: Mode)
    | Accepted(mode: Mode, token: Token, reconnect: bool)
    | Published(mode: Mode, token: Token)
    | Live(mode: Mode, token: Token)
    | Reporting(mode: Mode, token: Token, report: Vpn)
    | Leaving(mode: Mode, token: Token)
    | Observed(mode: Mode, token: Token, previous: Vpn)
    | Cleared(mode: Mode, token: Token, taken: Option<Relay>, quiet: bool)
    | Announcing(mode: Mode, token: Token, quiet: bool)
    // handleDataConnection
    | DataHelloRead(token: Token)
    | Reserved(token: Token)
    | Built(token: Token, relay: Relay)
    | Refused(relay: Relay)
    | Bound(token: Token, relay: Relay)
    | DataLeaving(token: Token, made: Option<Relay>)
    | DataCleared(taken: Option<Relay>, announce: bool)
    | DataAnnouncing
    | Finished

  /** `shutdown`: not called, holding what it took out of the slots, or done. */
  datatype Stopper = Running | Holding(taken: Option<Relay>) | Done

  /** `markMappingAvailable` and `markMappingUnavailable`: test under the mutex, read, publish. */
  datatype Monitor = Idle | Tested(available: bool) | Read(available: bool, vpn: Vpn)

  /** The publishes whose order matters, tagged with the session on whose behalf they are made. */
  datatype Event =
    | ControlUp(token: Token)
    | DataUp(token: Token)
    | Released(token: Token)

  /** Who must close a relay. */
  datatype Place = InSlot | By(conn: Conn) | ByStopper | Gone

  /** History: publishes made, tokens made (by whom) and acknowledged, sessions that lost their slot. */
  datatype Trace = Trace(log: seq<Event>, owner: map<Token, Conn>, acked: set<Token>, retired: set<Token>)

  /** History: who must close each relay ever created, and how often each was closed. */
  datatype Relays = Relays(place: map<Relay, Place>, closes: multiset<Relay>)

  /** History: releases that asked for a reconnect, and the unpublished accept that consumed a request. */
  datatype Ledger = Ledger(marks: nat, claimed: Option<Conn>)

  datatype State = State(
    slots: Slots,
    handlers: map<Conn, Handler>,
    stopper: Stopper,
    monitor: Monitor,
    snapshot: Snapshot,
    trace: Trace,
    relays: Relays,
    ledger: Ledger)

  /** Steps of the goroutine that serves a HELLO connection. */
  datatype ControlAction =
    | OpenControl(mode: Mode)
    | AcceptControl(token: Token)
    | PublishControl
    | SendAck(sent: bool)
    | Report(report: Vpn)
    | PublishReport
    | Leave
    | Observe
    | ReleaseControl
    | CloseTaken
    | PublishRelease

  /** Steps of the goroutine that serves a DATA_HELLO connection. */
  datatype DataAction =
    | OpenData(token: Token)
    | ReserveData
    | Build(relay: Relay)
    | BuildFails
    | BindData
    | CloseRefused
    | LeaveData
    | ReleaseData
    | CloseTakenData
    | PublishDataLoss

  /** Steps of `shutdown` and of the mapping monitor. */
  datatype DaemonAction =
    | Stop
    | StopClose
    | Test(available: bool)
    | ReadSnapshot
    | PublishMapping
    | SkipMapping

  datatype Action =
    | ByControl(c: Conn, control: ControlAction)
    | ByData(c: Conn, data: DataAction)
    | ByDaemon(daemon: DaemonAction)

  ghost predicate Init(s: State) {
    && s.slots == NO_SESSION
    && s.handlers == map[] && s.stopper == Running && s.monitor == Idle
    && s.trace == Trace([], map[], {}, {})
    && s.relays == Relays(map[], multiset{})
    && s.ledger == Ledger(0, None)
  }

  predicate ControlEnabled(s: State, c: Conn, a: ControlAction) {
    if a.OpenControl? then c !in s.handlers
    else
      && c in s.handlers
      && match a
         case OpenControl(_) => false
         case AcceptControl(_) => s.handlers[c].HelloRead?
         case PublishControl => s.handlers[c].Accepted?
         case SendAck(_) => s.handlers[c].Published?
         case Report(_) => s.handlers[c].Live?
         case PublishReport => s.handlers[c].Reporting?
         case Leave => s.handlers[c].Live?
         case Observe => s.handlers[c].Leaving?
         case ReleaseControl => s.handlers[c].Observed?
         case CloseTaken => s.handlers[c].Cleared?
         case PublishRelease => s.handlers[c].Announcing?
  }

  predicate DataEnabled(s: State, c: Conn, a: DataAction) {
    if a.OpenData? then c !in s.handlers
    else
      && c in s.handlers
      && match a
         case OpenData(_) => false
         case ReserveData => s.handlers[c].DataHelloRead?
         case Build(r) => s.handlers[c].Reserved? && r !in s.relays.place
         case BuildFails => s.handlers[c].Reserved?
         case BindData => s.handlers[c].Built?
         case CloseRefused => s.handlers[c].Refused?
         case LeaveData => s.handlers[c].Bound?
         case ReleaseData => s.handlers[c].DataLeaving?
         case CloseTakenData => s.handlers[c].DataCleared?
         case PublishDataLoss => s.handlers[c].DataAnnouncing?
  }

  predicate DaemonEnabled(s: State, a: DaemonAction) {
    match a
    case Stop => s.stopper.Running?
    case StopClose => s.stopper.Holding?
    case Test(_) => s.monitor.Idle? && !s.slots.stopping && s.slots.control.None?
    case ReadSnapshot => s.monitor.Tested?
    case PublishMapping => s.monitor.Read?
    case SkipMapping => s.monitor.Read?
  }

  predicate Enabled(s: State, a: Action) {
    match a
    case ByControl(c, a) => ControlEnabled(s, c, a)
    case ByData(c, a) => DataEnabled(s, c, a)
    case ByDaemon(a) => DaemonEnabled(s, a)
  }

  function Move(s: State, c: Conn, h: Handler): State {
    s.(handlers := s.handlers[c := h])
  }

  function Log(t: Trace, e: Event): Trace {
    t.(log := t.log + [e])
  }

  function Close(r: Relays, taken: Option<Relay>): Relays {
    match taken
    case None => r
    case Some(x) => Relays(r.place[x := Gone], r.closes + multiset{x})
  }

  function Hand(r: Relays, relay: Option<Relay>, p: Place): Relays {
    match relay
    case None => r
    case Some(x) => r.(place := r.place[x := p])
  }

  function DoAccept(s: State, c: Conn, token: Token): State
    requires c in s.handlers && s.handlers[c].HelloRead?
  {
    var mode := s.handlers[c].mode;
    var trace := s.trace.(owner := s.trace.owner[token := c]);
    if !MayAccept(s.slots) then s.(handlers := s.handlers[c := Finished], trace := trace)
    else
      var again := IsReconnect(s.slots, mode);
      s.(handlers := s.handlers[c := Accepted(mode, token, again)],
         trace := trace,
         slots := Accept(s.slots, c, mode, token),
         ledger := if again then s.ledger.(claimed := Some(c)) else s.ledger)
  }

  function DoPublishControl(s: State, c: Conn): State
    requires c in s.handlers && s.handlers[c].Accepted?
  {
    var Accepted(mode, token, again) := s.handlers[c];
    s.(handlers := s.handlers[c := Published(mode, token)],
       snapshot := Snapshot(ControlConnected, if mode.Vpn? then Starting else Stopped,
                            if again then s.snapshot.reconnects + 1 else s.snapshot.reconnects),
       trace := Log(s.trace, ControlUp(token)),
       ledger := if again then s.ledger.(claimed := None) else s.ledger)
  }

  /** `applyVPNStatus` up to its publish; a refused report ends the session. */
  function DoReport(s: State, c: Conn, report: Vpn): State
    requires c in s.handlers && s.handlers[c].Live?
  {
    var Live(mode, token) := s.handlers[c];
    if mode.Phase1? || !HoldsControl(s.slots, c) || report.Unavailable? || (report.Active? && s.slots.data.None?)
    then Move(s, c, Leaving(mode, token))
    else Move(s, c, Reporting(mode, token, report))
  }

  function DoReleaseControl(s: State, c: Conn): State
    requires c in s.handlers && s.handlers[c].Observed?
  {
    var Observed(mode, token, previous) := s.handlers[c];
    if !HoldsControl(s.slots, c) then Move(s, c, Finished)
    else
      s.(handlers := s.handlers[c := Cleared(mode, token, s.slots.relay, s.slots.stopping)],
         slots := ClearControl(s.slots, previous.Stopped?),
         relays := Hand(s.relays, s.slots.relay, By(c)),
         trace := s.trace.(retired := s.trace.retired + {token}),
         ledger := if MarksReconnect(s.slots, previous.Stopped?)
                   then s.ledger.(marks := s.ledger.marks + 1) else s.ledger)
  }

  function DoPublishRelease(s: State, c: Conn): State
    requires c in s.handlers && s.handlers[c].Announcing?
  {
    var Announcing(mode, token, quiet) := s.handlers[c];
    if quiet then Move(s, c, Finished)
    else
      s.(handlers := s.handlers[c := Finished],
         snapshot := s.snapshot.(transport := PortReady,
                                 vpn := if mode.Vpn? && !s.snapshot.vpn.Stopped? then Reconnecting else Stopped),
         trace := Log(s.trace, Released(token)))
  }

  function DoReserve(s: State, c: Conn): State
    requires c in s.handlers && s.handlers[c].DataHelloRead?
  {
    var token := s.handlers[c].token;
    if !MayReserve(s.slots, token) then Move(s, c, Finished)
    else s.(handlers := s.handlers[c := Reserved(token)], slots := Reserve(s.slots, c))
  }

  /** Second test, relay installation and publish, all under the mutex. */
  function DoBind(s: State, c: Conn): State
    requires c in s.handlers && s.handlers[c].Built?
  {
    var Built(token, relay) := s.handlers[c];
    if !MayBind(s.slots, c) then Move(s, c, Refused(relay))
    else
      s.(handlers := s.handlers[c := Bound(token, relay)],
         slots := Bind(s.slots, relay),
         relays := Hand(s.relays, Some(relay), InSlot),
         snapshot := s.snapshot.(transport := DataConnected, vpn := Starting),
         trace := Log(s.trace, DataUp(token)))
  }

  function DoReleaseData(s: State, c: Conn): State
    requires c in s.handlers && s.handlers[c].DataLeaving?
  {
    if s.slots.data != Some(c) then Move(s, c, Finished)
    else
      s.(handlers := s.handlers[c := DataCleared(s.slots.relay, AnnouncesDataLoss(s.slots))],
         slots := ClearData(s.slots),
         relays := Hand(s.relays, s.slots.relay, By(c)))
  }

  function DoStop(s: State): State {
    s.(stopper := Holding(s.slots.relay),
       slots := Shutdown(s.slots),
       relays := Hand(s.relays, s.slots.relay, ByStopper))
  }

  /** A VPN that was up when its mapping changed is now waiting for the device. */
  function AfterMapping(vpn: Vpn): Vpn {
    if vpn.Active? || vpn.Starting? || vpn.AuthRequired? then Reconnecting else vpn
  }

  function ControlStep(s: State, c: Conn, a: ControlAction): State
    requires ControlEnabled(s, c, a)
  {
    match a
    case OpenControl(mode) => Move(s, c, HelloRead(mode))
    case AcceptControl(token) => DoAccept(s, c, token)
    case PublishControl => DoPublishControl(s, c)
    case SendAck(sent) =>
      // A failed write may still have delivered the frame.
      var Published(mode, token) := s.handlers[c];
      s.(handlers := s.handlers[c := if sent then Live(mode, token) else Leaving(mode, token)],
         trace := s.trace.(acked := s.trace.acked + {token}))
    case Report(report) => DoReport(s, c, report)
    case PublishReport =>
      var Reporting(mode, token, report) := s.handlers[c];
      s.(handlers := s.handlers[c := Live(mode, token)], snapshot := s.snapshot.(vpn := report))
    case Leave => Move(s, c, Leaving(s.handlers[c].mode, s.handlers[c].token))
    case Observe => Move(s, c, Observed(s.handlers[c].mode, s.handlers[c].token, s.snapshot.vpn))
    case ReleaseControl => DoReleaseControl(s, c)
    case CloseTaken =>
      var Cleared(mode, token, taken, quiet) := s.handlers[c];
      s.(handlers := s.handlers[c := Announcing(mode, token, quiet)], relays := Close(s.relays, taken))
    case PublishRelease => DoPublishRelease(s, c)
  }

  function DataStep(s: State, c: Conn, a: DataAction): State
    requires DataEnabled(s, c, a)
  {
    match a
    case OpenData(token) => Move(s, c, DataHelloRead(token))
    case ReserveData => DoReserve(s, c)
    case Build(relay) =>
      s.(handlers := s.handlers[c := Built(s.handlers[c].token, relay)],
         relays := Hand(s.relays, Some(relay), By(c)))
    case BuildFails => Move(s, c, DataLeaving(s.handlers[c].token, None))
    case BindData => DoBind(s, c)
    case CloseRefused =>
      s.(handlers := s.handlers[c := Finished], relays := Close(s.relays, Some(s.handlers[c].relay)))
    case LeaveData => Move(s, c, DataLeaving(s.handlers[c].token, Some(s.handlers[c].relay)))
    case ReleaseData => DoReleaseData(s, c)
    case CloseTakenData =>
      var DataCleared(taken, announce) := s.handlers[c];
      s.(handlers := s.handlers[c := if announce then DataAnnouncing else Finished],
         relays := Close(s.relays, taken))
    case PublishDataLoss =>
      s.(handlers := s.handlers[c := Finished],
         snapshot := s.snapshot.(transport := ControlConnected, vpn := Reconnecting))
  }

  function DaemonStep(s: State, a: DaemonAction): State
    requires DaemonEnabled(s, a)
  {
    match a
    case Stop => DoStop(s)
    case StopClose => s.(stopper := Done, relays := Close(s.relays, s.stopper.taken))
    case Test(available) => s.(monitor := Tested(available))
    case ReadSnapshot => s.(monitor := Read(s.monitor.available, s.snapshot.vpn))
    case PublishMapping =>
      s.(snapshot := s.snapshot.(transport := if s.monitor.available then PortReady else DeviceOffline,
                                 vpn := AfterMapping(s.monitor.vpn)),
         monitor := Idle)
    case SkipMapping => s.(monitor := Idle)
  }

  function Step(s: State, a: Action): State
    requires Enabled(s, a)
  {
    match a
    case ByControl(c, a) => ControlStep(s, c, a)
    case ByData(c, a) => DataStep(s, c, a)
    case ByDaemon(a) => DaemonStep(s, a)
  }

  /** The states of a run, from a fresh daemon, one action at a time. */
  ghost predicate IsRun(run: seq<State>, actions: seq<Action>) {
    && |run| == |actions| + 1
    && Init(run[0])
    && forall i :: 0 <= i < |actions| ==> Enabled(run[i], actions[i]) && run[i + 1] == Step(run[i], actions[i])
  }

  // ----- The slots -----

  /** What a goroutine has entered and not yet left: the control slot, the data slot, or neither. */
  datatype Standing =
    | InControl(mode: Mode, token: Token)
    | InData(token: Token, installed: Option<Relay>)
    | Outside

  function StandingAt(h: Handler): Standing {
    match h
    case Accepted(mode, token, _) => InControl(mode, token)
    case Published(mode, token) => InControl(mode, token)
    case Live(mode, token) => InControl(mode, token)
    case Reporting(mode, token, _) => InControl(mode, token)
    case Leaving(mode, token) => InControl(mode, token)
    case Observed(mode, token, _) => InControl(mode, token)
    case Reserved(token) => InData(token, None)
    case Built(token, _) => InData(token, None)
    case Bound(token, relay) => InData(token, Some(relay))
    case DataLeaving(token, made) => InData(token, made)
    case _ => Outside
  }

  function StandingOf(s: State, c: Conn): Standing {
    if c in s.handlers then StandingAt(s.handlers[c]) else Outside
  }

  ghost predicate ControlInv(s: State) {
    && (s.slots.control.Some? ==>
          var k := s.slots.control.value;
          StandingOf(s, k.conn) == InControl(k.mode, k.token) && (k.mode.Vpn? ==> !s.slots.reconnectPending))
    && (forall c :: StandingOf(s, c).InControl? ==> HoldsControl(s.slots, c) || s.slots.stopping)
  }

  ghost predicate DataInv(s: State) {
    if s.slots.data.None? then s.slots.relay.None?
    else
      && s.slots.control.Some? && s.slots.control.value.mode.Vpn?
      && StandingOf(s, s.slots.data.value) == InData(s.slots.control.value.token, s.slots.relay)
  }

  ghost predicate SlotInv(s: State) {
    && (s.slots.stopping <==> !s.stopper.Running?)
    && (s.slots.stopping ==> s.slots.control.None? && s.slots.data.None?)
    && ControlInv(s)
    && DataInv(s)
  }

  ghost predicate QuietMove(s: State, s': State, c: Conn) {
    && c in s'.handlers && s'.handlers == s.handlers[c := s'.handlers[c]]
    && s'.slots == s.slots && s'.stopper == s.stopper
    && StandingOf(s', c) == StandingOf(s, c)
  }

  lemma ControlQuiet(s: State, c: Conn, a: ControlAction)
    requires ControlEnabled(s, c, a) && !a.AcceptControl? && !a.ReleaseControl?
    ensures QuietMove(s, ControlStep(s, c, a), c)
  {
  }

  lemma DataQuiet(s: State, c: Conn, a: DataAction)
    requires DataEnabled(s, c, a) && !a.ReserveData? && !a.BindData? && !a.ReleaseData?
    ensures QuietMove(s, DataStep(s, c, a), c)
  {
  }

  /** Moving one goroutine without touching the slots or its standing keeps them valid. */
  lemma SlotMove(s: State, s': State, c: Conn)
    requires SlotInv(s) && QuietMove(s, s', c)
    ensures SlotInv(s')
  {
    assert forall d :: StandingOf(s', d) == StandingOf(s, d);
  }

  lemma SlotAccept(s: State, c: Conn, token: Token)
    requires SlotInv(s) && c in s.handlers && s.handlers[c].HelloRead?
    ensures SlotInv(DoAccept(s, c, token))
  {
    var s' := DoAccept(s, c, token);
    assert forall d :: d != c ==> StandingOf(s', d) == StandingOf(s, d);
  }

  lemma SlotReleaseControl(s: State, c: Conn)
    requires SlotInv(s) && c in s.handlers && s.handlers[c].Observed?
    ensures SlotInv(DoReleaseControl(s, c))
  {
    var s' := DoReleaseControl(s, c);
    assert forall d :: d != c ==> StandingOf(s', d) == StandingOf(s, d);
  }

  lemma SlotReserve(s: State, c: Conn)
    requires SlotInv(s) && c in s.handlers && s.handlers[c].DataHelloRead?
    ensures SlotInv(DoReserve(s, c))
  {
    var s' := DoReserve(s, c);
    assert forall d :: d != c ==> StandingOf(s', d) == StandingOf(s, d);
  }

  lemma SlotBind(s: State, c: Conn)
    requires SlotInv(s) && c in s.handlers && s.handlers[c].Built?
    ensures SlotInv(DoBind(s, c))
  {
    var s' := DoBind(s, c);
    assert forall d :: d != c ==> StandingOf(s', d) == StandingOf(s, d);
  }

  lemma SlotReleaseData(s: State, c: Conn)
    requires SlotInv(s) && c in s.handlers && s.handlers[c].DataLeaving?
    ensures SlotInv(DoReleaseData(s, c))
  {
    var s' := DoReleaseData(s, c);
    assert forall d :: d != c ==> StandingOf(s', d) == StandingOf(s, d);
  }

  lemma SlotDaemonStep(s: State, a: DaemonAction)
    requires SlotInv(s) && DaemonEnabled(s, a)
    ensures SlotInv(DaemonStep(s, a))
  {
    assert forall d :: StandingOf(DaemonStep(s, a), d) == StandingOf(s, d);
  }

  lemma SlotControlStep(s: State, c: Conn, a: ControlAction)
    requires SlotInv(s) && ControlEnabled(s, c, a)
    ensures SlotInv(ControlStep(s, c, a))
  {
    match a
    case AcceptControl(token) => SlotAccept(s, c, token);
    case ReleaseControl => SlotReleaseControl(s, c);
    case _ => ControlQuiet(s, c, a); SlotMove(s, ControlStep(s, c, a), c);
  }

  lemma SlotDataStep(s: State, c: Conn, a: DataAction)
    requires SlotInv(s) && DataEnabled(s, c, a)
    ensures SlotInv(DataStep(s, c, a))
  {
    match a
    case ReserveData => SlotReserve(s, c);
    case BindData => SlotBind(s, c);
    case ReleaseData => SlotReleaseData(s, c);
    case _ => DataQuiet(s, c, a); SlotMove(s, DataStep(s, c, a), c);
  }

  lemma SlotStep(s: State, a: Action)
    requires SlotInv(s) && Enabled(s, a)
    ensures SlotInv(Step(s, a))
  {
    match a
    case ByControl(c, a) => SlotControlStep(s, c, a);
    case ByData(c, a) => SlotDataStep(s, c, a);
    case ByDaemon(a) => SlotDaemonStep(s, a);
  }

  // ----- Relay ownership -----

  /** The relay that a goroutine must close: one it built, was refused, or took out of the slot. */
  function HeldBy(h: Handler): Option<Relay> {
    match h
    case Built(_, relay) => Some(relay)
    case Refused(relay) => Some(relay)
    case Cleared(_, _, taken, _) => taken
    case DataCleared(taken, _) => taken
    case _ => None
  }

  function HeldAt(s: State, p: Place): Option<Relay> {
    match p
    case InSlot => s.slots.relay
    case By(c) => if c in s.handlers then HeldBy(s.handlers[c]) else None
    case ByStopper => if s.stopper.Holding? then s.stopper.taken else None
    case Gone => None
  }

  ghost predicate RelayInv(s: State) {
    && (forall p :: HeldAt(s, p).Some? ==>
          HeldAt(s, p).value in s.relays.place && s.relays.place[HeldAt(s, p).value] == p)
    && (forall r :: r in s.relays.place ==>
          s.relays.place[r].Gone? || HeldAt(s, s.relays.place[r]) == Some(r))
    && (forall r :: s.relays.closes[r] ==
                    if r in s.relays.place && s.relays.place[r].Gone? then 1 else 0)
  }

  /** A step that moves no relay. */
  lemma RelayKeep(s: State, s': State)
    requires RelayInv(s) && s'.relays == s.relays
    requires forall p :: HeldAt(s', p) == HeldAt(s, p)
    ensures RelayInv(s')
  {
  }

  /** Handing a relay from one place to another, or closing it, keeps every relay in one place. */
  lemma RelayHandOver(s: State, s': State, x: Option<Relay>, p: Place, q: Place)
    requires RelayInv(s) && p != q && !p.Gone?
    requires s'.relays == if q.Gone? then Close(s.relays, x) else Hand(s.relays, x, q)
    requires HeldAt(s, p) == x && HeldAt(s, q) == None
    requires HeldAt(s', p) == None && (q.Gone? || HeldAt(s', q) == x)
    requires forall o :: o != p && o != q ==> HeldAt(s', o) == HeldAt(s, o)
    ensures RelayInv(s')
  {
  }

  lemma RelayCreate(s: State, s': State, r: Relay, c: Conn)
    requires RelayInv(s) && r !in s.relays.place
    requires s'.relays == Hand(s.relays, Some(r), By(c))
    requires c in s'.handlers && s'.handlers == s.handlers[c := s'.handlers[c]]
    requires s'.slots.relay == s.slots.relay && s'.stopper == s.stopper
    requires HeldAt(s, By(c)) == None && HeldAt(s', By(c)) == Some(r)
    ensures RelayInv(s')
  {
    assert forall o :: o != By(c) ==> HeldAt(s', o) == HeldAt(s, o);
  }

  /** A goroutine that closes the relay in its hand. */
  lemma RelayClose(s: State, s': State, c: Conn)
    requires RelayInv(s) && s'.relays == Close(s.relays, HeldAt(s, By(c)))
    requires c in s'.handlers && s'.handlers == s.handlers[c := s'.handlers[c]]
    requires s'.slots.relay == s.slots.relay && s'.stopper == s.stopper
    requires HeldAt(s', By(c)) == None
    ensures RelayInv(s')
  {
    RelayHandOver(s, s', HeldAt(s, By(c)), By(c), Gone);
  }

  /** A goroutine that moves on with the same relay in hand. */
  lemma RelayMove(s: State, s': State, c: Conn)
    requires RelayInv(s) && s'.relays == s.relays
    requires c in s'.handlers && s'.handlers == s.handlers[c := s'.handlers[c]]
    requires s'.slots.relay == s.slots.relay && s'.stopper == s.stopper
    requires HeldAt(s', By(c)) == HeldAt(s, By(c))
    ensures RelayInv(s')
  {
    RelayKeep(s, s');
  }

  lemma RelayReleaseControl(s: State, c: Conn)
    requires RelayInv(s) && c in s.handlers && s.handlers[c].Observed?
    ensures RelayInv(DoReleaseControl(s, c))
  {
    var s' := DoReleaseControl(s, c);
    if HoldsControl(s.slots, c) {
      RelayHandOver(s, s', s.slots.relay, InSlot, By(c));
    } else {
      RelayMove(s, s', c);
    }
  }

  lemma RelayControlStep(s: State, c: Conn, a: ControlAction)
    requires RelayInv(s) && ControlEnabled(s, c, a)
    ensures RelayInv(ControlStep(s, c, a))
  {
    var s' := ControlStep(s, c, a);
    match a
    case ReleaseControl => RelayReleaseControl(s, c);
    case CloseTaken => RelayClose(s, s', c);
    case _ => RelayMove(s, s', c);
  }

  lemma RelayBind(s: State, c: Conn)
    requires SlotInv(s) && RelayInv(s) && c in s.handlers && s.handlers[c].Built?
    ensures RelayInv(DoBind(s, c))
  {
    var s' := DoBind(s, c);
    if MayBind(s.slots, c) {
      RelayHandOver(s, s', Some(s.handlers[c].relay), By(c), InSlot);
    } else {
      RelayMove(s, s', c);
    }
  }

  lemma RelayReleaseData(s: State, c: Conn)
    requires RelayInv(s) && c in s.handlers && s.handlers[c].DataLeaving?
    ensures RelayInv(DoReleaseData(s, c))
  {
    var s' := DoReleaseData(s, c);
    if s.slots.data == Some(c) {
      RelayHandOver(s, s', s.slots.relay, InSlot, By(c));
    } else {
      RelayMove(s, s', c);
    }
  }

  /** The steps of a data goroutine that open, build, move on or close. */
  lemma RelayOwnStep(s: State, c: Conn, a: DataAction)
    requires RelayInv(s) && DataEnabled(s, c, a)
    requires a.Build? || a.CloseRefused? || a.CloseTakenData?
    ensures RelayInv(DataStep(s, c, a))
  {
    if a.Build? {
      RelayCreate(s, DataStep(s, c, a), a.relay, c);
    } else {
      RelayClose(s, DataStep(s, c, a), c);
    }
  }

  lemma RelayDataStep(s: State, c: Conn, a: DataAction)
    requires SlotInv(s) && RelayInv(s) && DataEnabled(s, c, a)
    ensures RelayInv(DataStep(s, c, a))
  {
    if a.BindData? {
      RelayBind(s, c);
    } else if a.ReleaseData? {
      RelayReleaseData(s, c);
    } else if a.Build? || a.CloseRefused? || a.CloseTakenData? {
      RelayOwnStep(s, c, a);
    } else {
      RelayMove(s, DataStep(s, c, a), c);
    }
  }

  lemma RelayDaemonStep(s: State, a: DaemonAction)
    requires RelayInv(s) && DaemonEnabled(s, a)
    ensures RelayInv(DaemonStep(s, a))
  {
    var s' := DaemonStep(s, a);
    match a
    case Stop => RelayHandOver(s, s', s.slots.relay, InSlot, ByStopper);
    case StopClose => RelayHandOver(s, s', s.stopper.taken, ByStopper, Gone);
    case _ => RelayKeep(s, s');
  }

  // ----- The reconnect ledger -----

  function Count(b: bool): nat {
    if b then 1 else 0
  }

  predicate Claims(s: State, c: Conn) {
    c in s.handlers && s.handlers[c].Accepted? && s.handlers[c].reconnect
  }

  ghost predicate LedgerInv(s: State, base: nat) {
    && s.ledger.marks + base
       == s.snapshot.reconnects + Count(s.slots.reconnectPending) + Count(s.ledger.claimed.Some?)
    && (forall c: Conn :: Claims(s, c) <==> s.ledger.claimed == Some(c))
  }

  lemma LedgerKeep(s: State, s': State, base: nat)
    requires LedgerInv(s, base) && s'.ledger == s.ledger
    requires s'.snapshot.reconnects == s.snapshot.reconnects
    requires s'.slots.reconnectPending == s.slots.reconnectPending
    requires forall c :: Claims(s', c) == Claims(s, c)
    ensures LedgerInv(s', base)
  {
  }

  lemma LedgerControlStep(s: State, c: Conn, a: ControlAction, base: nat)
    requires SlotInv(s) && LedgerInv(s, base) && ControlEnabled(s, c, a)
    ensures LedgerInv(ControlStep(s, c, a), base)
  {
    var s' := ControlStep(s, c, a);
    match a
    case AcceptControl(_) =>
      assert forall d :: d != c ==> Claims(s', d) == Claims(s, d);
      if MayAccept(s.slots) {
        forall d ensures !Claims(s, d) {
          assert Claims(s, d) ==> StandingOf(s, d).InControl?;
        }
      }
    case PublishControl =>
      assert Claims(s, c) == s.handlers[c].reconnect && !Claims(s', c);
      assert forall d :: d != c ==> Claims(s', d) == Claims(s, d);
    case ReleaseControl =>
      assert forall d :: Claims(s', d) == Claims(s, d);
    case _ => LedgerKeep(s, s', base);
  }

  lemma LedgerDataStep(s: State, c: Conn, a: DataAction, base: nat)
    requires LedgerInv(s, base) && DataEnabled(s, c, a)
    ensures LedgerInv(DataStep(s, c, a), base)
  {
    LedgerKeep(s, DataStep(s, c, a), base);
  }

  lemma LedgerDaemonStep(s: State, a: DaemonAction, base: nat)
    requires LedgerInv(s, base) && DaemonEnabled(s, a)
    ensures LedgerInv(DaemonStep(s, a), base)
  {
    LedgerKeep(s, DaemonStep(s, a), base);
  }

  // ----- The order of publishes -----

  /** `NewSessionToken` never repeats a token. */
  predicate Fresh(s: State, a: Action) {
    a.ByControl? && a.control.AcceptControl? ==> a.control.token !in s.trace.owner
  }

  /** And a peer presents only tokens it has been sent in a HELLO_ACK. */
  predicate Honest(s: State, a: Action) {
    Fresh(s, a) && (a.ByData? && a.data.OpenData? ==> a.data.token in s.trace.acked)
  }

  /** A bind that succeeds while the accept of its session is not published yet. */
  predicate EarlyBind(s: State, a: Action) {
    && a.ByData? && a.data.BindData? && MayBind(s.slots, a.c)
    && s.slots.control.Some? && s.slots.control.value.conn in s.handlers
    && s.handlers[s.slots.control.value.conn].Accepted?
  }

  ghost predicate Silent(log: seq<Event>, token: Token) {
    forall i :: 0 <= i < |log| ==> log[i].token != token
  }

  /** CONTROL_CONNECTED opens a session; each DATA_CONNECTED follows it; the release closes it. */
  ghost predicate Ordered(log: seq<Event>) {
    && (forall i, j :: 0 <= i < j < |log| && log[j].ControlUp? ==> log[i].token != log[j].token)
    && (forall i, j :: 0 <= i < j < |log| && log[i].Released? ==> log[i].token != log[j].token)
    && (forall j :: 0 <= j < |log| && !log[j].ControlUp? ==> ControlUp(log[j].token) in log[..j])
  }

  predicate Owns(t: Trace, c: Conn, token: Token) {
    token in t.owner && t.owner[token] == c
  }

  ghost predicate TraceAt(t: Trace, c: Conn, h: Handler) {
    match h
    case Accepted(_, token, _) => Owns(t, c, token) && token !in t.retired && Silent(t.log, token)
    case Published(_, token) => Owns(t, c, token) && token !in t.retired && ControlUp(token) in t.log
    case Live(_, token) => Owns(t, c, token) && token !in t.retired && ControlUp(token) in t.log
    case Reporting(_, token, _) => Owns(t, c, token) && token !in t.retired && ControlUp(token) in t.log
    case Leaving(_, token) => Owns(t, c, token) && token !in t.retired && ControlUp(token) in t.log
    case Observed(_, token, _) => Owns(t, c, token) && token !in t.retired && ControlUp(token) in t.log
    case Cleared(_, token, _, _) => Owns(t, c, token) && Departing(t, token)
    case Announcing(_, token, _) => Owns(t, c, token) && Departing(t, token)
    case _ => true
  }

  predicate Departing(t: Trace, token: Token) {
    token in t.retired && ControlUp(token) in t.log && Released(token) !in t.log
  }

  ghost predicate TraceGlobal(t: Trace) {
    && Ordered(t.log)
    && (forall i :: 0 <= i < |t.log| ==> t.log[i].token in t.owner)
    && (forall i :: 0 <= i < |t.log| && t.log[i].Released? ==> t.log[i].token in t.retired)
    && (forall token :: token in t.retired ==> token in t.owner)
  }

  ghost predicate TraceInv(s: State) {
    && TraceGlobal(s.trace)
    && forall c :: c in s.handlers ==> TraceAt(s.trace, c, s.handlers[c])
  }

  /** A step that publishes nothing ordered. */
  lemma TraceMove(s: State, s': State, c: Conn)
    requires TraceInv(s) && s'.trace == s.trace
    requires c in s'.handlers && s'.handlers == s.handlers[c := s'.handlers[c]]
    requires TraceAt(s.trace, c, s'.handlers[c])
    ensures TraceInv(s')
  {
  }

  lemma TraceAccept(s: State, c: Conn, token: Token)
    requires TraceInv(s) && c in s.handlers && s.handlers[c].HelloRead? && token !in s.trace.owner
    ensures TraceInv(DoAccept(s, c, token))
  {
  }

  /** Appending an event keeps the log ordered exactly when its session is at the right point. */
  lemma OrderedAppend(log: seq<Event>, e: Event)
    requires Ordered(log)
    requires if e.ControlUp? then Silent(log, e.token)
             else ControlUp(e.token) in log && Released(e.token) !in log
    ensures Ordered(log + [e])
  {
    var l := log + [e];
    forall j | 0 <= j < |l| && !l[j].ControlUp? ensures ControlUp(l[j].token) in l[..j] {
      assert l[..j] == log[..j];
      if j == |log| {
        assert log[..j] == log;
      }
    }
  }

  lemma TracePublishControl(s: State, c: Conn)
    requires TraceInv(s) && c in s.handlers && s.handlers[c].Accepted?
    ensures TraceInv(DoPublishControl(s, c))
  {
    var s' := DoPublishControl(s, c);
    OrderedAppend(s.trace.log, ControlUp(s.handlers[c].token));
  }

  lemma TraceAck(s: State, c: Conn, sent: bool)
    requires TraceInv(s) && c in s.handlers && s.handlers[c].Published?
    ensures TraceInv(ControlStep(s, c, SendAck(sent)))
  {
  }

  lemma TraceReleaseControl(s: State, c: Conn)
    requires TraceInv(s) && c in s.handlers && s.handlers[c].Observed?
    ensures TraceInv(DoReleaseControl(s, c))
  {
  }

  lemma TracePublishRelease(s: State, c: Conn)
    requires TraceInv(s) && c in s.handlers && s.handlers[c].Announcing?
    ensures TraceInv(DoPublishRelease(s, c))
  {
    var s' := DoPublishRelease(s, c);
    if !s.handlers[c].quiet {
      OrderedAppend(s.trace.log, Released(s.handlers[c].token));
    }
  }

  lemma TraceBind(s: State, c: Conn)
    requires SlotInv(s) && TraceInv(s) && c in s.handlers && s.handlers[c].Built?
    requires !EarlyBind(s, ByData(c, BindData))
    ensures TraceInv(DoBind(s, c))
  {
    if MayBind(s.slots, c) {
      BindToken(s, c);
      OrderedAppend(s.trace.log, DataUp(s.handlers[c].token));
    }
  }

  /** The token of a bind is that of the control session, which is published unless the bind is early. */
  lemma BindToken(s: State, c: Conn)
    requires SlotInv(s) && TraceInv(s) && c in s.handlers && s.handlers[c].Built? && MayBind(s.slots, c)
    ensures var token, log := s.handlers[c].token, s.trace.log;
            && token in s.trace.owner
            && if EarlyBind(s, ByData(c, BindData)) then Silent(log, token)
               else ControlUp(token) in log && Released(token) !in log
  {
    var k := s.slots.control.value;
    assert StandingOf(s, k.conn) == InControl(k.mode, k.token) && s.handlers[c].token == k.token;
    assert TraceAt(s.trace, k.conn, s.handlers[k.conn]);
  }

  lemma TraceControlStep(s: State, c: Conn, a: ControlAction)
    requires TraceInv(s) && ControlEnabled(s, c, a) && Fresh(s, ByControl(c, a))
    ensures TraceInv(ControlStep(s, c, a))
  {
    match a
    case AcceptControl(token) => TraceAccept(s, c, token);
    case PublishControl => TracePublishControl(s, c);
    case SendAck(sent) => TraceAck(s, c, sent);
    case ReleaseControl => TraceReleaseControl(s, c);
    case PublishRelease => TracePublishRelease(s, c);
    case _ => TraceMove(s, ControlStep(s, c, a), c);
  }

  lemma TraceDataStep(s: State, c: Conn, a: DataAction)
    requires SlotInv(s) && TraceInv(s) && DataEnabled(s, c, a) && !EarlyBind(s, ByData(c, a))
    ensures TraceInv(DataStep(s, c, a))
  {
    if a.BindData? {
      TraceBind(s, c);
    } else {
      TraceMove(s, DataStep(s, c, a), c);
    }
  }

  /** Acknowledged tokens are published, and honest peers present only those. */
  ghost predicate AckInv(s: State) {
    && (forall token :: token in s.trace.acked ==> ControlUp(token) in s.trace.log)
    && (forall c :: c in s.handlers ==>
          (s.handlers[c].DataHelloRead? || s.handlers[c].Reserved? || s.handlers[c].Built? ==>
             s.handlers[c].token in s.trace.acked))
  }

  lemma AckControlStep(s: State, c: Conn, a: ControlAction)
    requires TraceInv(s) && AckInv(s) && ControlEnabled(s, c, a)
    ensures AckInv(ControlStep(s, c, a))
  {
  }

  lemma AckDataStep(s: State, c: Conn, a: DataAction)
    requires AckInv(s) && DataEnabled(s, c, a) && Honest(s, ByData(c, a))
    ensures AckInv(DataStep(s, c, a))
  {
  }
}
