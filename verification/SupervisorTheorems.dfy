/** What every run of the session supervisor guarantees. */
module SupervisorTheorems {
  import opened Wrappers
  import opened SessionSlots
  import opened Supervisor

  ghost predicate Inv(s: State, base: nat) {
    SlotInv(s) && RelayInv(s) && LedgerInv(s, base)
  }

  lemma InvStep(s: State, a: Action, base: nat)
    requires Inv(s, base) && Enabled(s, a)
    ensures Inv(Step(s, a), base)
  {
    SlotStep(s, a);
    match a
    case ByControl(c, a) => RelayControlStep(s, c, a); LedgerControlStep(s, c, a, base);
    case ByData(c, a) => RelayDataStep(s, c, a); LedgerDataStep(s, c, a, base);
    case ByDaemon(a) => RelayDaemonStep(s, a); LedgerDaemonStep(s, a, base);
  }

  lemma {:induction false} Invariance(run: seq<State>, actions: seq<Action>, i: nat)
    requires IsRun(run, actions) && i < |run|
    ensures Inv(run[i], run[0].snapshot.reconnects)
    decreases i
  {
    if i > 0 {
      Invariance(run, actions, i - 1);
      InvStep(run[i - 1], actions[i - 1], run[0].snapshot.reconnects);
    }
  }

  /**
   In every state of every run: a data connection is bound only beside a live VPN control session
   whose token its goroutine presented; a relay is installed only by the goroutine in the data slot;
   no finished goroutine is left in a slot; a live VPN session has no reconnect pending.
   */
  lemma SlotsAgree(run: seq<State>, actions: seq<Action>, i: nat)
    requires IsRun(run, actions) && i < |run|
    ensures var s := run[i].slots;
            && (s.data.Some? ==>
                  && s.control.Some? && s.control.value.mode.Vpn?
                  && s.data.value in run[i].handlers
                  && StandingAt(run[i].handlers[s.data.value]) == InData(s.control.value.token, s.relay))
            && (s.relay.Some? ==> s.data.Some?)
            && (s.control.Some? ==>
                  && s.control.value.conn in run[i].handlers
                  && StandingAt(run[i].handlers[s.control.value.conn])
                     == InControl(s.control.value.mode, s.control.value.token)
                  && (s.control.value.mode.Vpn? ==> !s.reconnectPending))
  {
    Invariance(run, actions, i);
  }

  /** Once `shutdown` has taken the mutex, no slot is ever filled again. */
  lemma {:induction false} StoppedForGood(run: seq<State>, actions: seq<Action>, i: nat, j: nat)
    requires IsRun(run, actions) && i <= j < |run| && run[i].slots.stopping
    ensures run[j].slots.stopping
    ensures run[j].slots.control.None? && run[j].slots.data.None? && run[j].slots.relay.None?
    decreases j
  {
    Invariance(run, actions, j);
    if i < j {
      StoppedForGood(run, actions, i, j - 1);
      StoppingStep(run[j - 1], actions[j - 1]);
    }
  }

  lemma StoppingStep(s: State, a: Action)
    requires Enabled(s, a) && s.slots.stopping
    ensures Step(s, a).slots.stopping
  {
  }

  /** The reservation made for control session `k` is intact, or connection `c` is out for good. */
  ghost predicate Reservation(s: State, c: Conn, k: Control) {
    && c in s.handlers && !s.handlers[c].DataHelloRead? && !s.handlers[c].HelloRead?
    && (s.slots.data == Some(c) ==> s.slots.control == Some(k))
  }

  lemma ReservationStep(s: State, a: Action, c: Conn, k: Control)
    requires SlotInv(s) && Enabled(s, a) && Reservation(s, c, k)
    ensures Reservation(Step(s, a), c, k)
  {
  }

  lemma {:induction false} ReservationKept(run: seq<State>, actions: seq<Action>, c: Conn, k: Control, i: nat, j: nat)
    requires IsRun(run, actions) && i <= j < |run| && Reservation(run[i], c, k)
    ensures Reservation(run[j], c, k)
    decreases j
  {
    if i < j {
      ReservationKept(run, actions, c, k, i, j - 1);
      Invariance(run, actions, j - 1);
      ReservationStep(run[j - 1], actions[j - 1], c, k);
    }
  }

  /**
   A data handshake interrupted between reserve and bind never reaches a later session: if `c`
   reserved the slot at step `i` and its bind succeeds at step `j`, the control session is the one
   it reserved from, and that session's token is the one it presented.
   */
  lemma BindReachesReservedSession(run: seq<State>, actions: seq<Action>, c: Conn, i: nat, j: nat)
    requires IsRun(run, actions) && i < j < |actions|
    requires actions[i] == ByData(c, ReserveData) && MayReserve(run[i].slots, run[i].handlers[c].token)
    requires actions[j] == ByData(c, BindData) && MayBind(run[j].slots, c)
    ensures run[j].slots.control == run[i].slots.control
    ensures run[j].slots.control.value.token == run[i].handlers[c].token == run[j].handlers[c].token
  {
    var k := run[i].slots.control.value;
    assert run[i + 1] == Step(run[i], actions[i]);
    assert Reservation(run[i + 1], c, k);
    ReservationKept(run, actions, c, k, i + 1, j);
    Invariance(run, actions, j);
  }

  /** A refused bind leaves nothing behind: its connection is not in the data slot. */
  lemma RefusedBindHoldsNoSlot(run: seq<State>, actions: seq<Action>, c: Conn, j: nat)
    requires IsRun(run, actions) && j < |actions|
    requires actions[j] == ByData(c, BindData) && !MayBind(run[j].slots, c)
    ensures run[j].slots.data != Some(c)
  {
    Invariance(run, actions, j);
  }

  ghost predicate AllFinished(s: State) {
    && !s.stopper.Holding?
    && forall c :: c in s.handlers ==> s.handlers[c].Finished?
  }

  /**
   Every relay ever created is in exactly one place: a goroutine's hand, the slot, `shutdown`'s hand
   or closed. It is closed at most once, and exactly once when every goroutine has finished.
   */
  lemma RelayClosedOnce(run: seq<State>, actions: seq<Action>, i: nat, r: Relay)
    requires IsRun(run, actions) && i < |run| && r in run[i].relays.place
    ensures run[i].relays.closes[r] <= 1
    ensures forall p, q :: HeldAt(run[i], p) == Some(r) && HeldAt(run[i], q) == Some(r) ==> p == q
    ensures run[i].relays.closes[r] == 1 <==> forall p :: HeldAt(run[i], p) != Some(r)
    ensures AllFinished(run[i]) ==> run[i].relays.closes[r] == 1
  {
    Invariance(run, actions, i);
    var s := run[i];
    var p := s.relays.place[r];
    if !p.Gone? {
      assert HeldAt(s, p) == Some(r);
    }
  }

  /** How many releases up to step `n` asked for a reconnect. */
  ghost function Requests(run: seq<State>, actions: seq<Action>, n: nat): nat
    requires |run| == |actions| + 1 && n <= |actions|
  {
    if n == 0 then 0
    else Requests(run, actions, n - 1) + Count(IsRequest(run[n - 1], actions[n - 1]))
  }

  /** A `releaseControl` of a running daemon whose VPN session was not seen stopped. */
  ghost predicate IsRequest(s: State, a: Action) {
    && a.ByControl? && a.control.ReleaseControl?
    && a.c in s.handlers && s.handlers[a.c].Observed?
    && s.slots.control.Some? && s.slots.control.value.conn == a.c && s.slots.control.value.mode.Vpn?
    && !s.slots.stopping && !s.handlers[a.c].previous.Stopped?
  }

  lemma MarksStep(s: State, a: Action)
    requires Enabled(s, a)
    ensures Step(s, a).ledger.marks == s.ledger.marks + Count(IsRequest(s, a))
  {
  }

  lemma {:induction false} MarksAreRequests(run: seq<State>, actions: seq<Action>, n: nat)
    requires IsRun(run, actions) && n <= |actions|
    ensures run[n].ledger.marks == Requests(run, actions, n)
    decreases n
  {
    if n > 0 {
      MarksAreRequests(run, actions, n - 1);
      MarksStep(run[n - 1], actions[n - 1]);
    }
  }

  ghost function Claimants(s: State): set<Conn> {
    set c | c in s.handlers && Claims(s, c)
  }

  /**
   The reconnect ledger balances: every request is published in `Reconnects`, still pending, or
   consumed by the one accept that has not been published yet.
   */
  lemma ReconnectLedger(run: seq<State>, actions: seq<Action>, n: nat)
    requires IsRun(run, actions) && n <= |actions|
    ensures Requests(run, actions, n) == run[n].snapshot.reconnects - run[0].snapshot.reconnects
                                         + Count(run[n].slots.reconnectPending) + |Claimants(run[n])|
    ensures |Claimants(run[n])| <= 1
  {
    Invariance(run, actions, n);
    MarksAreRequests(run, actions, n);
    var s := run[n];
    assert Claimants(s) == if s.ledger.claimed.Some? then {s.ledger.claimed.value} else {};
  }

  ghost predicate HonestRun(run: seq<State>, actions: seq<Action>) {
    IsRun(run, actions) && forall i :: 0 <= i < |actions| ==> Honest(run[i], actions[i])
  }

  ghost predicate FreshRun(run: seq<State>, actions: seq<Action>) {
    IsRun(run, actions) && forall i :: 0 <= i < |actions| ==> Fresh(run[i], actions[i])
  }

  /** No bind before step `n` comes before the publish of its session. */
  ghost predicate NoEarlyBind(run: seq<State>, actions: seq<Action>, n: nat)
    requires |run| == |actions| + 1 && n <= |actions|
  {
    forall i :: 0 <= i < n ==> !EarlyBind(run[i], actions[i])
  }

  lemma TraceStep(s: State, a: Action)
    requires SlotInv(s) && TraceInv(s) && Enabled(s, a) && Fresh(s, a) && !EarlyBind(s, a)
    ensures TraceInv(Step(s, a))
  {
    hide TraceInv;
    match a
    case ByControl(c, a) => TraceControlStep(s, c, a);
    case ByData(c, a) => TraceDataStep(s, c, a);
    case ByDaemon(a) => TraceDaemonStep(s, a);
  }

  lemma TraceDaemonStep(s: State, a: DaemonAction)
    requires TraceInv(s) && DaemonEnabled(s, a)
    ensures TraceInv(DaemonStep(s, a))
  {
  }

  lemma {:induction false} TraceInvariance(run: seq<State>, actions: seq<Action>, n: nat)
    requires FreshRun(run, actions) && n <= |actions| && NoEarlyBind(run, actions, n)
    ensures TraceInv(run[n])
    decreases n
  {
    hide Step, EarlyBind, Fresh, LedgerInv, RelayInv, SlotInv;
    if n == 0 {
      TraceAtFirst(run[0]);
    } else {
      TraceInvariance(run, actions, n - 1);
      Invariance(run, actions, n - 1);
      TraceStep(run[n - 1], actions[n - 1]);
    }
  }

  lemma TraceAtFirst(s: State)
    requires Init(s)
    ensures TraceInv(s) && AckInv(s)
  {
  }

  /** The log is only ever appended to. */
  lemma {:induction false} LogGrows(run: seq<State>, actions: seq<Action>, i: nat, j: nat)
    requires IsRun(run, actions) && i <= j < |run|
    ensures run[i].trace.log <= run[j].trace.log
    decreases j
  {
    hide Step;
    if i < j {
      LogGrows(run, actions, i, j - 1);
      LogStep(run[j - 1], actions[j - 1]);
    }
  }

  lemma LogStep(s: State, a: Action)
    requires Enabled(s, a)
    ensures s.trace.log <= Step(s, a).trace.log
  {
  }

  /**
   With fresh tokens, the publishes are in order if and only if no bind has succeeded while the accept of
   its session was still unpublished.
   */
  lemma OrderedIffNoEarlyBind(run: seq<State>, actions: seq<Action>, n: nat)
    requires FreshRun(run, actions) && n <= |actions|
    ensures Ordered(run[n].trace.log) <==> NoEarlyBind(run, actions, n)
  {
    hide Step, EarlyBind, Fresh, LedgerInv, RelayInv, SlotInv, Ordered;
    if NoEarlyBind(run, actions, n) {
      TraceInvariance(run, actions, n);
    } else {
      var i := FirstEarlyBind(run, actions, n);
      TraceInvariance(run, actions, i);
      Invariance(run, actions, i);
      LogGrows(run, actions, i + 1, n);
      EarlyBindBreaks(run[i], actions[i], run[n].trace.log);
    }
  }

  lemma {:induction false} FirstEarlyBind(run: seq<State>, actions: seq<Action>, n: nat) returns (i: nat)
    requires |run| == |actions| + 1 && n <= |actions| && !NoEarlyBind(run, actions, n)
    ensures i < n && EarlyBind(run[i], actions[i]) && NoEarlyBind(run, actions, i)
    decreases n
  {
    hide EarlyBind;
    if NoEarlyBind(run, actions, n - 1) {
      i := n - 1;
    } else {
      i := FirstEarlyBind(run, actions, n - 1);
    }
  }

  /** After an early bind no continuation of the log is ordered. */
  lemma EarlyBindBreaks(s: State, a: Action, log: seq<Event>)
    requires SlotInv(s) && TraceInv(s) && Enabled(s, a) && EarlyBind(s, a) && Step(s, a).trace.log <= log
    ensures !Ordered(log)
  {
    BindToken(s, a.c);
    var token := s.handlers[a.c].token;
    var j := |s.trace.log|;
    assert Step(s, a).trace.log == s.trace.log + [DataUp(token)];
    assert log[j] == DataUp(token) && log[..j] == s.trace.log;
  }

  lemma {:induction false} HonestRunHasNoEarlyBind(run: seq<State>, actions: seq<Action>, n: nat)
    requires HonestRun(run, actions) && n <= |actions|
    ensures NoEarlyBind(run, actions, n) && AckInv(run[n])
    decreases n
  {
    hide Step, EarlyBind, LedgerInv, RelayInv, SlotInv, TraceInv, AckInv;
    if n == 0 {
      TraceAtFirst(run[0]);
    } else {
      var s, a := run[n - 1], actions[n - 1];
      HonestRunHasNoEarlyBind(run, actions, n - 1);
      TraceInvariance(run, actions, n - 1);
      Invariance(run, actions, n - 1);
      AckStep(s, a);
      AckedIsNotEarly(s, a);
    }
  }

  lemma AckStep(s: State, a: Action)
    requires TraceInv(s) && AckInv(s) && Enabled(s, a) && Honest(s, a)
    ensures AckInv(Step(s, a))
  {
    hide TraceInv;
    match a
    case ByControl(c, a) => AckControlStep(s, c, a);
    case ByData(c, a) => AckDataStep(s, c, a);
    case ByDaemon(_) =>
  }

  lemma AckedIsNotEarly(s: State, a: Action)
    requires SlotInv(s) && TraceInv(s) && AckInv(s) && Enabled(s, a)
    ensures !EarlyBind(s, a)
  {
    if EarlyBind(s, a) {
      BindToken(s, a.c);
    }
  }

  /**
   In every interleaving, a session's CONTROL_CONNECTED publish comes before all its DATA_CONNECTED
   publishes, all of those come before its release publish, and each session opens and closes at
   most once: control loss always wins over a concurrent data handshake.
   */
  lemma PublishOrder(run: seq<State>, actions: seq<Action>, n: nat, i: nat, j: nat)
    requires HonestRun(run, actions) && n < |run|
    requires i < |run[n].trace.log| && j < |run[n].trace.log|
    requires run[n].trace.log[i].token == run[n].trace.log[j].token
    ensures run[n].trace.log[i].ControlUp? && !run[n].trace.log[j].ControlUp? ==> i < j
    ensures run[n].trace.log[i].DataUp? && run[n].trace.log[j].Released? ==> i < j
    ensures !run[n].trace.log[i].DataUp? && run[n].trace.log[i] == run[n].trace.log[j] ==> i == j
    ensures !run[n].trace.log[i].ControlUp? ==>
              exists k :: 0 <= k < i && run[n].trace.log[k] == ControlUp(run[n].trace.log[i].token)
  {
    HonestRunHasNoEarlyBind(run, actions, n);
    OrderedIffNoEarlyBind(run, actions, n);
    var log := run[n].trace.log;
    if !log[i].ControlUp? {
      assert ControlUp(log[i].token) in log[..i];
    }
  }

  /**
   The order does rest on tokens being unguessable: whoever presents a token between the accept and its
   publish is bound, and DATA_CONNECTED is published first.
   */
  lemma GuessedTokenBreaksOrder(start: State, c: Conn, d: Conn, token: Token, relay: Relay)
    returns (run: seq<State>, actions: seq<Action>)
    requires Init(start) && c != d
    ensures IsRun(run, actions) && run[0] == start && run[|actions|].trace.log == [DataUp(token)]
    ensures forall i :: 0 <= i < |actions| ==> actions[i] == ByData(d, OpenData(token)) || Honest(run[i], actions[i])
  {
    actions := [ByControl(c, OpenControl(Mode.Vpn)), ByControl(c, AcceptControl(token)), ByData(d, OpenData(token)),
                ByData(d, ReserveData), ByData(d, Build(relay)), ByData(d, BindData)];
    var s1, s2, s3 := AcceptedAndGuessed(start, c, d, token);
    var s4 := Step(s3, actions[3]);
    var s5 := Step(s4, actions[4]);
    var s6 := Step(s5, actions[5]);
    run := [start, s1, s2, s3, s4, s5, s6];
  }

  lemma AcceptedAndGuessed(start: State, c: Conn, d: Conn, token: Token) returns (s1: State, s2: State, s3: State)
    requires Init(start) && c != d
    ensures var open, accept, guess :=
              ByControl(c, OpenControl(Mode.Vpn)), ByControl(c, AcceptControl(token)), ByData(d, OpenData(token));
            && Enabled(start, open) && s1 == Step(start, open) && Honest(start, open)
            && Enabled(s1, accept) && s2 == Step(s1, accept) && Honest(s1, accept)
            && Enabled(s2, guess) && s3 == Step(s2, guess)
    ensures s3.handlers == map[c := Accepted(Mode.Vpn, token, false), d := DataHelloRead(token)]
    ensures s3.slots == NO_SESSION.(control := Some(Control(c, Mode.Vpn, token)))
    ensures s3.trace.log == [] && s3.relays.place == map[]
  {
    s1 := Step(start, ByControl(c, OpenControl(Mode.Vpn)));
    s2 := Step(s1, ByControl(c, AcceptControl(token)));
    s3 := Step(s2, ByData(d, OpenData(token)));
  }
}
