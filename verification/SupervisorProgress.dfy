/** When the session supervisor lets a step succeed, and that a session can always be made again. */
module SupervisorProgress {
  import opened Wrappers
  import opened SessionSlots
  import opened Supervisor

  /** A HELLO is accepted if and only if the control slot is free and the daemon is not stopping. */
  lemma AcceptsIff(run: seq<State>, actions: seq<Action>, i: nat, c: Conn, token: Token)
    requires IsRun(run, actions) && i < |actions| && actions[i] == ByControl(c, AcceptControl(token))
    ensures c in run[i].handlers && run[i].handlers[c].HelloRead? && c in run[i + 1].handlers
    ensures run[i + 1].handlers[c].Accepted? <==> run[i].slots.control.None? && !run[i].slots.stopping
    ensures run[i + 1].handlers[c].Accepted? ==>
              run[i + 1].slots.control == Some(Control(c, run[i].handlers[c].mode, token))
    ensures !run[i + 1].handlers[c].Accepted? ==> run[i + 1].slots == run[i].slots
  {
    assert run[i + 1] == Step(run[i], actions[i]);
  }

  /**
   A status report is taken if and only if it comes from the connection in the control slot of a VPN
   session, is one of the known states, and is not ACTIVE without a data connection.
   */
  lemma ReportsIff(run: seq<State>, actions: seq<Action>, i: nat, c: Conn, report: Vpn)
    requires IsRun(run, actions) && i < |actions| && actions[i] == ByControl(c, Report(report))
    ensures c in run[i].handlers && run[i].handlers[c].Live? && c in run[i + 1].handlers
    ensures run[i + 1].handlers[c].Reporting? <==>
              && run[i].handlers[c].mode == Mode.Vpn
              && run[i].slots.control.Some? && run[i].slots.control.value.conn == c
              && report != Unavailable
              && (report == Active ==> run[i].slots.data.Some?)
    ensures run[i + 1].snapshot == run[i].snapshot
  {
    assert run[i + 1] == Step(run[i], actions[i]);
  }

  /** A release by the holder empties the slots and asks for a reconnect unless the VPN was stopped. */
  lemma ReleaseEmpties(run: seq<State>, actions: seq<Action>, i: nat, c: Conn)
    requires IsRun(run, actions) && i < |actions| && actions[i] == ByControl(c, ReleaseControl)
    ensures c in run[i].handlers && run[i].handlers[c].Observed?
    ensures var s, t := run[i].slots, run[i + 1].slots;
            if s.control.None? || s.control.value.conn != c then t == s
            else
              && t.control.None? && t.data.None? && t.relay.None? && t.stopping == s.stopping
              && t.reconnectPending ==
                 (s.reconnectPending ||
                  (s.control.value.mode == Mode.Vpn && !s.stopping && run[i].handlers[c].previous != Stopped))
  {
    assert run[i + 1] == Step(run[i], actions[i]);
  }

  /** After a loss the next VPN session of any new connection is accepted and counted as a reconnect. */
  lemma ReconnectCompletes(s: State, c: Conn, token: Token) returns (s1: State, s2: State, s3: State)
    requires s.slots.reconnectPending && s.slots.control.None? && !s.slots.stopping && c !in s.handlers
    ensures Enabled(s, ByControl(c, OpenControl(Mode.Vpn))) && s1 == Step(s, ByControl(c, OpenControl(Mode.Vpn)))
    ensures Enabled(s1, ByControl(c, AcceptControl(token))) && s2 == Step(s1, ByControl(c, AcceptControl(token)))
    ensures Enabled(s2, ByControl(c, PublishControl)) && s3 == Step(s2, ByControl(c, PublishControl))
    ensures s3.slots == s.slots.(control := Some(Control(c, Mode.Vpn, token)), reconnectPending := false)
    ensures s3.snapshot == Snapshot(ControlConnected, Starting, s.snapshot.reconnects + 1)
  {
    s1 := Step(s, ByControl(c, OpenControl(Mode.Vpn)));
    s2 := Step(s1, ByControl(c, AcceptControl(token)));
    s3 := Step(s2, ByControl(c, PublishControl));
  }

  /** A live VPN session without a data connection gets one from whoever presents its token. */
  lemma DataSessionCompletes(s: State, d: Conn, relay: Relay) returns (s1: State, s2: State, s3: State, s4: State)
    requires s.slots.control.Some? && s.slots.control.value.mode.Vpn? && s.slots.data.None? && !s.slots.stopping
    requires d !in s.handlers && relay !in s.relays.place
    ensures var hello := ByData(d, OpenData(s.slots.control.value.token)); Enabled(s, hello) && s1 == Step(s, hello)
    ensures Enabled(s1, ByData(d, ReserveData)) && s2 == Step(s1, ByData(d, ReserveData))
    ensures Enabled(s2, ByData(d, Build(relay))) && s3 == Step(s2, ByData(d, Build(relay)))
    ensures Enabled(s3, ByData(d, BindData)) && s4 == Step(s3, ByData(d, BindData))
    ensures s4.slots == s.slots.(data := Some(d), relay := Some(relay))
    ensures s4.snapshot == s.snapshot.(transport := DataConnected, vpn := Starting)
  {
    s1 := Step(s, ByData(d, OpenData(s.slots.control.value.token)));
    s2 := Step(s1, ByData(d, ReserveData));
    s3 := Step(s2, ByData(d, Build(relay)));
    s4 := Step(s3, ByData(d, BindData));
  }

  /** What a leaving session reads from the snapshot, and what each publish leaves in it. */
  lemma PublishesAre(s: State, c: Conn)
    requires c in s.handlers
    ensures s.handlers[c].Accepted? ==>
              var t := Step(s, ByControl(c, PublishControl)).snapshot;
              && t.transport == ControlConnected
              && t.vpn == (if s.handlers[c].mode == Mode.Vpn then Starting else Stopped)
              && t.reconnects == s.snapshot.reconnects + if s.handlers[c].reconnect then 1 else 0
    ensures s.handlers[c].Leaving? ==>
              var t := Step(s, ByControl(c, Observe));
              t.handlers[c] == Observed(s.handlers[c].mode, s.handlers[c].token, s.snapshot.vpn) && t.slots == s.slots
    ensures s.handlers[c].Reporting? ==>
              Step(s, ByControl(c, PublishReport)).snapshot == s.snapshot.(vpn := s.handlers[c].report)
    ensures s.handlers[c].Announcing? ==>
              var t := Step(s, ByControl(c, PublishRelease)).snapshot;
              if s.handlers[c].quiet then t == s.snapshot
              else
                && t.transport == PortReady && t.reconnects == s.snapshot.reconnects
                && t.vpn == if s.handlers[c].mode == Mode.Vpn && s.snapshot.vpn != Stopped then Reconnecting else Stopped
    ensures s.handlers[c].DataAnnouncing? ==>
              Step(s, ByData(c, PublishDataLoss)).snapshot
              == s.snapshot.(transport := ControlConnected, vpn := Reconnecting)
  {
  }

  /** The mapping monitor publishes only what it read while no session was there. */
  lemma MappingPublishes(s: State, available: bool)
    ensures Enabled(s, ByDaemon(Test(available))) <==>
              s.monitor == Idle && !s.slots.stopping && s.slots.control.None?
    ensures s.monitor.Read? ==>
              var t := Step(s, ByDaemon(PublishMapping)).snapshot;
              && t.transport == (if s.monitor.available then PortReady else DeviceOffline)
              && t.reconnects == s.snapshot.reconnects
              && t.vpn == if s.monitor.vpn in {Active, Starting, AuthRequired} then Reconnecting else s.monitor.vpn
  {
  }
}
