/**
 The session slots of the daemon (`internal/daemon/server.go`): one control connection, one data
 connection and one packet relay, shared by every connection goroutine and changed only under
 `Server.mu`. Each function below is one critical section; `Server` is the object that runs them.
 */
module SessionSlots {
  import opened Wrappers

  // A connection, a session token and a relay are modelled by their identities.
  type Conn = nat
  type Token = nat
  type Relay = nat

  datatype Mode = Phase1 | Vpn

  datatype Control = Control(conn: Conn, mode: Mode, token: Token)

  datatype Slots = Slots(
    control: Option<Control>,
    data: Option<Conn>,
    relay: Option<Relay>,
    reconnectPending: bool,
    stopping: bool)

  const NO_SESSION := Slots(None, None, None, false, false)

  /** HELLO finds the control slot free and the daemon running. */
  predicate MayAccept(s: Slots) {
    s.control.None? && !s.stopping
  }

  /** The accepted VPN session follows a lost one. */
  predicate IsReconnect(s: Slots, mode: Mode) {
    mode.Vpn? && s.reconnectPending
  }

  function Accept(s: Slots, conn: Conn, mode: Mode, token: Token): Slots {
    s.(control := Some(Control(conn, mode, token)),
       reconnectPending := if mode.Vpn? then false else s.reconnectPending)
  }

  /** DATA_HELLO names the live VPN session and that session has no data connection. */
  predicate MayReserve(s: Slots, token: Token) {
    && !s.stopping
    && s.control.Some?
    && s.control.value.mode.Vpn?
    && s.control.value.token == token
    && s.data.None?
  }

  function Reserve(s: Slots, conn: Conn): Slots {
    s.(data := Some(conn))
  }

  /** The reservation survived the relay start: the test made again before publishing. */
  predicate MayBind(s: Slots, conn: Conn) {
    s.data == Some(conn) && s.control.Some? && !s.stopping
  }

  function Bind(s: Slots, relay: Relay): Slots {
    s.(relay := Some(relay))
  }

  predicate HoldsControl(s: Slots, conn: Conn) {
    s.control.Some? && s.control.value.conn == conn
  }

  /** A lost VPN session asks for a reconnect unless it was stopped on purpose. */
  predicate MarksReconnect(s: Slots, stoppedBefore: bool) {
    s.control.Some? && s.control.value.mode.Vpn? && !s.stopping && !stoppedBefore
  }

  function ClearControl(s: Slots, stoppedBefore: bool): Slots {
    s.(control := None, data := None, relay := None,
       reconnectPending := s.reconnectPending || MarksReconnect(s, stoppedBefore))
  }

  function ClearData(s: Slots): Slots {
    s.(data := None, relay := None)
  }

  /** A data loss is announced only while its VPN control session is up. */
  predicate AnnouncesDataLoss(s: Slots) {
    s.control.Some? && s.control.value.mode.Vpn? && !s.stopping
  }

  function Shutdown(s: Slots): Slots {
    s.(control := None, data := None, relay := None, stopping := true)
  }

  /** The fields of `Server` that its mutex guards, and the methods that change them. */
  class Server {
    var controlConnection: Option<Conn>
    var controlMode: Option<Mode>
    var controlToken: Option<Token>
    var dataConnection: Option<Conn>
    var dataRelay: Option<Relay>
    var reconnectPending: bool
    var stopping: bool

    ghost predicate Valid()
      reads this
    {
      && (controlConnection.Some? <==> controlMode.Some?)
      && (controlConnection.Some? <==> controlToken.Some?)
    }

    ghost function State(): (s: Slots)
      requires Valid()
      reads this
    {
      Slots(
        if controlConnection.Some?
        then Some(Control(controlConnection.value, controlMode.value, controlToken.value)) else None,
        dataConnection, dataRelay, reconnectPending, stopping)
    }

    constructor ()
      ensures Valid() && State() == NO_SESSION
    {
      controlConnection, controlMode, controlToken := None, None, None;
      dataConnection, dataRelay := None, None;
      reconnectPending, stopping := false, false;
    }

    method AcceptControl(connection: Conn, mode: Mode, token: Token)
      returns (accepted: bool, isReconnect: bool)
      requires Valid()
      modifies this
      ensures Valid()
      ensures accepted <==> old(controlConnection) == None && !old(stopping)
      ensures accepted ==>
                && controlConnection == Some(connection) && controlMode == Some(mode) && controlToken == Some(token)
                && isReconnect == (mode == Vpn && old(reconnectPending))
                && reconnectPending == (old(reconnectPending) && mode != Vpn)
      ensures accepted == MayAccept(old(State()))
      ensures accepted ==> isReconnect == IsReconnect(old(State()), mode)
      ensures State() == if accepted then Accept(old(State()), connection, mode, token) else old(State())
    {
      if controlConnection.Some? || stopping {
        return false, false;
      }
      controlConnection := Some(connection);
      controlMode := Some(mode);
      controlToken := Some(token);
      isReconnect := mode == Vpn && reconnectPending;
      if mode == Vpn {
        reconnectPending := false;
      }
      accepted := true;
    }

    method ReserveData(connection: Conn, token: Token) returns (reserved: bool)
      requires Valid()
      modifies this
      ensures Valid()
      ensures reserved <==>
                && !old(stopping) && old(controlMode) == Some(Vpn) && old(controlToken) == Some(token)
                && old(dataConnection) == None
      ensures dataConnection == if reserved then Some(connection) else old(dataConnection)
      ensures reserved == MayReserve(old(State()), token)
      ensures State() == if reserved then Reserve(old(State()), connection) else old(State())
    {
      if stopping || controlConnection.None? || controlMode != Some(Vpn) ||
         controlToken != Some(token) || dataConnection.Some? {
        return false;
      }
      dataConnection := Some(connection);
      reserved := true;
    }

    method BindRelay(connection: Conn, relay: Relay) returns (bound: bool)
      requires Valid()
      modifies this
      ensures Valid()
      ensures bound <==> old(dataConnection) == Some(connection) && old(controlConnection).Some? && !old(stopping)
      ensures dataRelay == if bound then Some(relay) else old(dataRelay)
      ensures bound == MayBind(old(State()), connection)
      ensures State() == if bound then Bind(old(State()), relay) else old(State())
    {
      if dataConnection != Some(connection) || controlConnection.None? || stopping {
        return false;
      }
      dataRelay := Some(relay);
      bound := true;
    }

    /** `stoppedBefore` is whether the snapshot read before the lock said the VPN was stopped. */
    method ReleaseControl(connection: Conn, stoppedBefore: bool)
      returns (released: bool, mode: Option<Mode>, closing: Option<Conn>, relay: Option<Relay>)
      requires Valid()
      modifies this
      ensures Valid()
      ensures released <==> old(controlConnection) == Some(connection)
      ensures released ==>
                && controlConnection == None && dataConnection == None && dataRelay == None
                && reconnectPending == (old(reconnectPending) || (old(controlMode) == Some(Vpn) && !stopping && !stoppedBefore))
      ensures released == HoldsControl(old(State()), connection)
      ensures released ==>
                && mode == Some(old(State()).control.value.mode)
                && closing == old(State()).data && relay == old(State()).relay
      ensures State() == if released then ClearControl(old(State()), stoppedBefore) else old(State())
    {
      if controlConnection != Some(connection) {
        return false, None, None, None;
      }
      controlConnection := None;
      mode := controlMode;
      controlMode := None;
      controlToken := None;
      closing := dataConnection;
      relay := dataRelay;
      dataConnection := None;
      dataRelay := None;
      if mode == Some(Vpn) && !stopping && !stoppedBefore {
        reconnectPending := true;
      }
      released := true;
    }

    method ReleaseData(connection: Conn)
      returns (released: bool, relay: Option<Relay>, announce: bool)
      requires Valid()
      modifies this
      ensures Valid()
      ensures released == (old(dataConnection) == Some(connection))
      ensures released ==>
                && dataConnection == None && dataRelay == None && controlConnection == old(controlConnection)
                && announce == (old(controlMode) == Some(Vpn) && !stopping)
      ensures released == (old(State()).data == Some(connection))
      ensures released ==> relay == old(State()).relay && announce == AnnouncesDataLoss(old(State()))
      ensures State() == if released then ClearData(old(State())) else old(State())
    {
      if dataConnection != Some(connection) {
        return false, None, false;
      }
      dataConnection := None;
      relay := dataRelay;
      dataRelay := None;
      announce := controlConnection.Some? && controlMode == Some(Vpn) && !stopping;
      released := true;
    }

    method StopAll() returns (closing: Option<Conn>, relay: Option<Relay>)
      requires Valid()
      modifies this
      ensures Valid()
      ensures stopping && controlConnection == None && dataConnection == None && dataRelay == None
      ensures closing == old(dataConnection) && relay == old(dataRelay)
      ensures State() == Shutdown(old(State()))
    {
      stopping := true;
      closing, relay := dataConnection, dataRelay;
      controlConnection, controlMode, controlToken := None, None, None;
      dataConnection, dataRelay := None, None;
    }
  }
}
