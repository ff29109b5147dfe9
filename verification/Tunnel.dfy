/**
 The sniffing CONNECT tunnel (`hostnameSniffingConn` in `internal/proxy/connect.go`): client bytes
 are held back until a target is known, the proxy is dialled once, the bytes are replayed, and
 `Close` may run at any moment. `writeMu` admits one `Write` at a time; every region of `mu`, every
 dial and every write to the proxy connection is one step.
 */
module Tunnel {
  import opened Wrappers
  import opened Bytes
  import opened Sniffer

  // A proxy connection is modelled by its identity.
  type Net = nat

  /** What the proxy is asked to CONNECT to: the address the client dialled, or the name it sent. */
  datatype Target = Destination | Host(name: seq<byte>)

  // ----- The guarded fields -----

  /** `failed` is `initErr != nil`; `ready` is the closed channel. */
  datatype Fields = Fields(
    connection: Option<Net>,
    pending: seq<byte>,
    failed: bool,
    closed: bool,
    ready: bool)

  const FRESH := Fields(None, [], false, false, false)

  /** How a `Write` goes on after its first critical section. */
  datatype Plan =
    | Pass(net: Net)
    | Refuse
    | Kept
    | Dial(target: Target, first: seq<byte>, second: Option<seq<byte>>)

  function TargetOf(s: Sniff): Option<Target> {
    match s
    case NeedMore => None
    case Resolved(host) => Some(Host(host))
    case Unavailable => Some(Destination)
  }

  /** The target that a write of `payload` decides on when `pending` is held back. */
  function Choice(pending: seq<byte>, payload: seq<byte>, port: nat, http: seq<byte> -> Sniff): Option<Target> {
    if |payload| > MAX_INITIAL - |pending| then Some(Destination)
    else TargetOf(Sniffed(pending + payload, port, http))
  }

  function PlanWrite(f: Fields, payload: seq<byte>, port: nat, http: seq<byte> -> Sniff): Plan {
    if f.connection.Some? then Pass(f.connection.value)
    else if f.closed || f.failed then Refuse
    else
      match Choice(f.pending, payload, port, http)
      case None => Kept
      case Some(target) =>
        if |payload| > MAX_INITIAL - |f.pending| then Dial(target, f.pending, Some(payload))
        else Dial(target, f.pending + payload, None)
  }

  function AfterPlan(f: Fields, payload: seq<byte>, plan: Plan): Fields {
    match plan
    case Kept => f.(pending := f.pending + payload)
    case Dial(_, _, _) => f.(pending := [])
    case _ => f
  }

  /** The critical section at the end of `establish`. */
  function Settle(f: Fields, outcome: Option<Net>): Fields {
    if f.closed || outcome.None? then f.(failed := true, ready := true)
    else f.(connection := outcome, ready := true)
  }

  function BeginClose(f: Fields): Fields {
    if f.closed then f else f.(closed := true, failed := true, ready := true)
  }

  class HostnameSniffingConn {
    const port: nat
    const http: seq<byte> -> Sniff
    var connection: Option<Net>
    var pending: seq<byte>
    var initErr: bool
    var closed: bool
    var ready: bool

    ghost function State(): (f: Fields)
      reads this
    {
      Fields(connection, pending, initErr, closed, ready)
    }

    constructor (port: nat, http: seq<byte> -> Sniff)
      ensures this.port == port && this.http == http && State() == FRESH
    {
      this.port, this.http := port, http;
      connection, pending, initErr, closed, ready := None, [], false, false, false;
    }

    /** `sniffHostname` */
    method SniffHostname(payload: seq<byte>) returns (r: Sniff)
      ensures r == Sniffed(payload, port, http)
    {
      if |payload| == 0 {
        return NeedMore;
      }
      if payload[0] == 0x16 {
        r := SniffTLSClientHello(payload);
        return;
      }
      if port == 443 || port == 8443 {
        return Unavailable;
      }
      r := http(payload);
    }

    /** The critical section of `Write`. */
    method WriteLocked(payload: seq<byte>) returns (plan: Plan)
      modifies this
      ensures plan == PlanWrite(old(State()), payload, port, http)
      ensures State() == AfterPlan(old(State()), payload, plan)
    {
      hide SniffRecords;
      if connection.Some? {
        return Pass(connection.value);
      }
      if closed || initErr {
        return Refuse;
      }
      if |payload| > MAX_INITIAL - |pending| {
        var held := pending;
        pending := [];
        return Dial(Destination, held, Some(payload));
      }
      pending := pending + payload;
      var result := SniffHostname(pending);
      if result == NeedMore {
        return Kept;
      }
      var target := Destination;
      if result.Resolved? {
        target := Host(result.host);
      }
      var held := pending;
      pending := [];
      plan := Dial(target, held, None);
    }

    /** The critical section of `establish`; `discard` is a connection that came too late. */
    method EstablishLocked(outcome: Option<Net>) returns (established: Option<Net>, discard: Option<Net>)
      modifies this
      ensures State() == Settle(old(State()), outcome)
      ensures established == (if old(closed) then None else outcome)
      ensures discard == (if old(closed) then outcome else None)
    {
      established, discard := outcome, None;
      if closed {
        discard := outcome;
        established := None;
      }
      if established.None? {
        initErr := true;
      } else {
        connection := established;
      }
      ready := true;
    }

    /** The critical section of `Close`; `closing` is the connection left to close. */
    method CloseLocked() returns (first: bool, closing: Option<Net>)
      modifies this
      ensures State() == BeginClose(old(State()))
      ensures first == !old(closed)
      ensures closing == (if first then old(connection) else None)
    {
      if closed {
        return false, None;
      }
      closed := true;
      if !initErr {
        initErr := true;
      }
      closing := connection;
      ready := true;
      first := true;
    }
  }

  /** `writeAllConnection`: counts what was taken; success means everything, in order. */
  method WriteAllConnection(connection: Sink, payload: seq<byte>) returns (total: nat, failed: bool)
    modifies connection
    ensures total <= |payload|
    ensures connection.accepted == old(connection.accepted) + payload[..total]
    ensures !failed ==> total == |payload|
    ensures connection.faulty == (old(connection.faulty) || failed)
  {
    total := 0;
    var rest := payload;
    while |rest| > 0
      invariant total <= |payload| && rest == payload[total..]
      invariant connection.accepted == old(connection.accepted) + payload[..total]
      invariant connection.faulty == old(connection.faulty)
    {
      var written, error := connection.Write(rest);
      assert payload[..total] + rest[..written] == payload[..total + written];
      total := total + written;
      rest := rest[written..];
      if error {
        return total, true;
      }
      if written == 0 {
        return total, true;
      }
    }
    failed := false;
  }

  /**
   The end of the sniffing branch of `Write`: replays what was held back, of which `payload` is the
   tail, and reports how many bytes of the payload itself were taken.
   */
  method ReplayHeld(connection: Sink, held: seq<byte>, payload: seq<byte>) returns (current: nat, failed: bool)
    requires |payload| <= |held|
    modifies connection
    ensures current <= |payload|
    ensures !failed ==> current == |payload| && connection.accepted == old(connection.accepted) + held
    ensures current > 0 ==>
              connection.accepted == old(connection.accepted) + held[..|held| - |payload| + current]
    ensures current == 0 ==>
              old(connection.accepted) <= connection.accepted
              <= old(connection.accepted) + held[..|held| - |payload|]
    ensures connection.faulty == (old(connection.faulty) || failed)
  {
    var written, error := WriteAllConnection(connection, held);
    var previousLength := |held| - |payload|;
    var count: int := written - previousLength;
    if count < 0 {
      count := 0;
    }
    if count > |payload| {
      count := |payload|;
    }
    assert held[..|held|] == held;
    assert written <= previousLength ==> held[..written] <= held[..previousLength];
    current, failed := count, error;
  }

  // ----- The step system -----

  /** Where the `Write` that holds `writeMu` stands. */
  datatype Writer =
    | Idle
    | Dialing(first: seq<byte>, second: Option<seq<byte>>)
    | Connecting(net: Net, first: seq<byte>, second: Option<seq<byte>>)
    | Settling(outcome: Option<Net>, first: seq<byte>, second: Option<seq<byte>>)
    | Replaying(net: Net, rest: seq<byte>, second: Option<seq<byte>>)
    | Passing(net: Net, rest: seq<byte>)

  /** Where the first `Close` stands; later ones return at once. */
  datatype Closer = NotCalled | Closing(net: Net) | Returned

  datatype State = State(
    port: nat,
    http: seq<byte> -> Sniff,
    fields: Fields,
    writer: Writer,
    closer: Closer,
    // History: payloads given to Write, target chosen, whether some Write has returned an error,
    // bytes taken by the tunnel, dial attempts, connections opened and closed.
    chunks: seq<seq<byte>>,
    target: Option<Target>,
    errored: bool,
    wire: seq<byte>,
    dials: nat,
    made: set<Net>,
    shut: set<Net>)

  datatype Action =
    | StartWrite(payload: seq<byte>)
    | DialFails
    | DialDone(net: Net)
    | ConnectFails
    | ConnectDone
    | SettleDone
    | Replay(count: nat, failed: bool)
    | PassOn(count: nat, failed: bool)
    | StartClose
    | FinishClose

  ghost predicate Init(s: State) {
    && s.fields == FRESH && s.writer == Idle && s.closer == NotCalled
    && s.chunks == [] && s.target == None && !s.errored && s.wire == []
    && s.dials == 0 && s.made == {} && s.shut == {}
  }

  predicate Enabled(s: State, a: Action) {
    match a
    case StartWrite(_) => s.writer.Idle?
    case DialFails => s.writer.Dialing?
    case DialDone(net) => s.writer.Dialing? && net !in s.made
    case ConnectFails => s.writer.Connecting?
    case ConnectDone => s.writer.Connecting?
    case SettleDone => s.writer.Settling?
    case Replay(count, _) => s.writer.Replaying? && count <= |s.writer.rest|
    // net.Conn reports an error whenever it takes less than it was given.
    case PassOn(count, failed) => s.writer.Passing? && count <= |s.writer.rest| && (failed || count == |s.writer.rest|)
    case StartClose => true
    case FinishClose => s.closer.Closing?
  }

  function DoStart(s: State, payload: seq<byte>): State {
    var plan := PlanWrite(s.fields, payload, s.port, s.http);
    var t := s.(chunks := s.chunks + [payload], fields := AfterPlan(s.fields, payload, plan));
    match plan
    case Pass(net) => t.(writer := Passing(net, payload))
    case Refuse => t.(errored := true)
    case Kept => t
    case Dial(target, first, second) => t.(writer := Dialing(first, second), target := Some(target))
  }

  function DoSettle(s: State): State
    requires s.writer.Settling?
  {
    var Settling(outcome, first, second) := s.writer;
    var t := s.(fields := Settle(s.fields, outcome));
    if s.fields.closed && outcome.Some? then t.(shut := s.shut + {outcome.value}, errored := true, writer := Idle)
    else if outcome.None? then t.(errored := true, writer := Idle)
    else t.(writer := Replaying(outcome.value, first, second))
  }

  function DoReplay(s: State, count: nat, failed: bool): State
    requires s.writer.Replaying? && count <= |s.writer.rest|
  {
    var Replaying(net, rest, second) := s.writer;
    if rest == [] then
      s.(writer := if second.Some? then Passing(net, second.value) else Idle)
    else
      var t := s.(wire := s.wire + rest[..count]);
      if failed || count == 0 then t.(errored := true, writer := Idle)
      else t.(writer := Replaying(net, rest[count..], second))
  }

  function Step(s: State, a: Action): State
    requires Enabled(s, a)
  {
    match a
    case StartWrite(payload) => DoStart(s, payload)
    case DialFails => s.(dials := s.dials + 1, writer := Settling(None, s.writer.first, s.writer.second))
    case DialDone(net) =>
      s.(dials := s.dials + 1, made := s.made + {net},
         writer := Connecting(net, s.writer.first, s.writer.second))
    case ConnectFails =>
      s.(shut := s.shut + {s.writer.net}, writer := Settling(None, s.writer.first, s.writer.second))
    case ConnectDone => s.(writer := Settling(Some(s.writer.net), s.writer.first, s.writer.second))
    case SettleDone => DoSettle(s)
    case Replay(count, failed) => DoReplay(s, count, failed)
    case PassOn(count, failed) =>
      s.(wire := s.wire + s.writer.rest[..count], writer := Idle, errored := s.errored || failed)
    case StartClose =>
      s.(fields := BeginClose(s.fields),
         closer := if s.fields.closed then s.closer
                   else if s.fields.connection.Some? then Closing(s.fields.connection.value) else Returned)
    case FinishClose => s.(shut := s.shut + {s.closer.net}, closer := Returned)
  }

  ghost predicate IsRun(run: seq<State>, actions: seq<Action>) {
    && |run| == |actions| + 1
    && Init(run[0])
    && forall i :: 0 <= i < |actions| ==> Enabled(run[i], actions[i]) && run[i + 1] == Step(run[i], actions[i])
  }

  // ----- Bytes -----

  function OrEmpty(b: Option<seq<byte>>): seq<byte> {
    if b.Some? then b.value else []
  }

  /** Bytes that have left `pending` and are on their way into the tunnel. */
  function InTransit(w: Writer): seq<byte> {
    match w
    case Idle => []
    case Dialing(first, second) => first + OrEmpty(second)
    case Connecting(_, first, second) => first + OrEmpty(second)
    case Settling(_, first, second) => first + OrEmpty(second)
    case Replaying(_, rest, second) => rest + OrEmpty(second)
    case Passing(_, rest) => rest
  }

  ghost predicate ByteInv(s: State) {
    && |s.fields.pending| <= MAX_INITIAL
    && (!s.writer.Idle? || s.fields.connection.Some? ==> s.fields.pending == [])
    && (!s.errored ==> s.wire + InTransit(s.writer) + s.fields.pending == Flatten(s.chunks))
  }

  /** The bytes that a plan sends on its way. */
  function Sends(plan: Plan, payload: seq<byte>): seq<byte> {
    match plan
    case Pass(_) => payload
    case Dial(_, first, second) => first + OrEmpty(second)
    case _ => []
  }

  /** Unless it is refused, a write moves what was held back and its payload, in order. */
  lemma PlanConserves(f: Fields, payload: seq<byte>, port: nat, http: seq<byte> -> Sniff)
    requires f.connection.Some? ==> f.pending == []
    requires |f.pending| <= MAX_INITIAL
    ensures var plan := PlanWrite(f, payload, port, http);
            && (!plan.Refuse? ==> Sends(plan, payload) + AfterPlan(f, payload, plan).pending == f.pending + payload)
            && |AfterPlan(f, payload, plan).pending| <= MAX_INITIAL
            && (if plan.Kept? || plan.Refuse? then f.connection.None? else AfterPlan(f, payload, plan).pending == [])
  {
    hide Sniffed;
  }

  lemma ByteStart(s: State, payload: seq<byte>)
    requires ByteInv(s) && s.writer.Idle?
    ensures ByteInv(DoStart(s, payload))
  {
    hide PlanWrite, AfterPlan;
    FlattenSnoc(s.chunks, payload);
    PlanConserves(s.fields, payload, s.port, s.http);
    var plan := PlanWrite(s.fields, payload, s.port, s.http);
    var t := DoStart(s, payload);
    AfterPlanKeepsConnection(s.fields, payload, plan);
    if !plan.Refuse? && !s.errored {
      assert InTransit(t.writer) == Sends(plan, payload);
      Regroup(s.wire, Sends(plan, payload), t.fields.pending, s.fields.pending, payload);
    }
  }

  lemma AfterPlanKeepsConnection(f: Fields, payload: seq<byte>, plan: Plan)
    ensures AfterPlan(f, payload, plan) == f.(pending := AfterPlan(f, payload, plan).pending)
  {
  }

  lemma Regroup(a: seq<byte>, b: seq<byte>, c: seq<byte>, d: seq<byte>, e: seq<byte>)
    requires b + c == d + e
    ensures a + b + c == a + [] + d + e
  {
    assert a + b + c == a + (b + c) && a + [] + d + e == a + (d + e);
  }

  lemma ByteReplay(s: State, count: nat, failed: bool)
    requires ByteInv(s) && s.writer.Replaying? && count <= |s.writer.rest|
    ensures ByteInv(DoReplay(s, count, failed))
  {
    var Replaying(_, rest, second) := s.writer;
    var t := DoReplay(s, count, failed);
    if rest == [] {
      assert InTransit(t.writer) == InTransit(s.writer);
    } else if !failed && count > 0 {
      assert rest == rest[..count] + rest[count..];
      assert t.wire + InTransit(t.writer) == s.wire + InTransit(s.writer);
    }
  }

  lemma ByteStep(s: State, a: Action)
    requires ByteInv(s) && Enabled(s, a)
    ensures ByteInv(Step(s, a))
  {
    match a
    case StartWrite(payload) => ByteStart(s, payload);
    case Replay(count, failed) => ByteReplay(s, count, failed);
    case PassOn(count, failed) =>
      assert count == |s.writer.rest| ==> s.writer.rest[..count] == s.writer.rest;
    case _ =>
  }

  // ----- Dials, readiness and connections -----

  /** The connection that `establish` has in hand. */
  function InHand(w: Writer): Option<Net> {
    match w
    case Connecting(net, _, _) => Some(net)
    case Settling(outcome, _, _) => outcome
    case _ => None
  }

  predicate Establishing(w: Writer) {
    w.Dialing? || w.Connecting? || w.Settling?
  }

  ghost predicate NetInv(s: State) {
    && (s.fields.ready <==> s.fields.connection.Some? || s.fields.failed)
    && (s.fields.closed <==> !s.closer.NotCalled?)
    && (s.fields.closed ==> s.fields.failed)
    && (Establishing(s.writer) ==> s.fields.connection.None?)
    && (s.writer.Replaying? || s.writer.Passing? ==> s.fields.connection == Some(s.writer.net))
    && (if s.writer.Dialing? then s.dials == 0
        else if s.fields.connection.None? && !s.fields.failed && s.writer.Idle? then s.dials == 0
        else s.dials <= 1)
    && (s.dials == 0 ==> s.made == {})
    && (s.closer.Closing? ==> s.fields.connection == Some(s.closer.net))
    && (s.closer.Returned? && s.fields.connection.Some? ==> s.fields.connection.value in s.shut)
    && (forall n :: n in s.made ==> n in s.shut || s.fields.connection == Some(n) || InHand(s.writer) == Some(n))
  }

  lemma NetStep(s: State, a: Action)
    requires NetInv(s) && Enabled(s, a)
    ensures NetInv(Step(s, a))
  {
    hide Choice;
  }

  lemma {:induction false} Invariance(run: seq<State>, actions: seq<Action>, i: nat)
    requires IsRun(run, actions) && i < |run|
    ensures ByteInv(run[i]) && NetInv(run[i])
    decreases i
  {
    hide Choice;
    if i > 0 {
      Invariance(run, actions, i - 1);
      ByteStep(run[i - 1], actions[i - 1]);
      NetStep(run[i - 1], actions[i - 1]);
    }
  }

  /**
   In every interleaving, as long as no Write has returned an error: what the tunnel has taken,
   then what is on its way, then what is held back, is the concatenation of all payloads written.
   At most 64 KiB are held back, and nothing once the tunnel exists.
   */
  lemma NoByteIsLost(run: seq<State>, actions: seq<Action>, i: nat)
    requires IsRun(run, actions) && i < |run|
    ensures !run[i].errored ==>
              run[i].wire + InTransit(run[i].writer) + run[i].fields.pending == Flatten(run[i].chunks)
    ensures !run[i].errored && run[i].writer.Idle? ==>
              run[i].wire + run[i].fields.pending == Flatten(run[i].chunks)
    ensures |run[i].fields.pending| <= MAX_INITIAL
    ensures run[i].fields.connection.Some? ==> run[i].fields.pending == []
  {
    Invariance(run, actions, i);
    if run[i].writer.Idle? {
      assert run[i].wire + [] == run[i].wire;
    }
  }

  /**
   In every interleaving of Write and Close: the proxy is dialled at most once; readers are released
   exactly when there is a connection or an error; and once Close has returned and no `establish`
   is running, every connection ever opened has been closed.
   */
  lemma NoConnectionLeaks(run: seq<State>, actions: seq<Action>, i: nat)
    requires IsRun(run, actions) && i < |run|
    ensures run[i].dials <= 1 && |run[i].made| <= run[i].dials
    ensures run[i].fields.ready <==> run[i].fields.connection.Some? || run[i].fields.failed
    ensures run[i].closer.Returned? && !Establishing(run[i].writer) ==> run[i].made <= run[i].shut
  {
    Invariance(run, actions, i);
    OpenedOnce(run, actions, i);
  }

  lemma {:induction false} OpenedOnce(run: seq<State>, actions: seq<Action>, i: nat)
    requires IsRun(run, actions) && i < |run|
    ensures |run[i].made| <= run[i].dials
    decreases i
  {
    hide Choice;
    if i > 0 {
      OpenedOnce(run, actions, i - 1);
    }
  }

  /** On a fresh tunnel a first write that decides, and a proxy that connects, get the bytes out. */
  lemma FirstWriteCompletes(s: State, payload: seq<byte>, net: Net) returns (t: seq<State>, actions: seq<Action>)
    requires Init(s) && 0 < |payload| <= 65536 && Sniffed(payload, s.port, s.http) != NeedMore
    ensures |t| == |actions| + 1 == 7 && t[0] == s
    ensures forall i :: 0 <= i < 6 ==> Enabled(t[i], actions[i]) && t[i + 1] == Step(t[i], actions[i])
    ensures t[6].wire == payload && t[6].writer == Idle && !t[6].errored
    ensures t[6].fields == Fields(Some(net), [], false, false, true)
    ensures t[6].target ==
            match Sniffed(payload, s.port, s.http)
            case Resolved(host) => Some(Host(host))
            case _ => Some(Destination)
  {
    hide Sniffed;
    actions := [StartWrite(payload), DialDone(net), ConnectDone, SettleDone, Replay(|payload|, false), Replay(0, false)];
    assert [] + payload == payload && payload[..|payload|] == payload;
    var t1 := Step(s, actions[0]);
    assert t1.writer == Dialing(payload, None);
    var t2 := Step(t1, actions[1]);
    var t3 := Step(t2, actions[2]);
    var t4 := Step(t3, actions[3]);
    var t5 := Step(t4, actions[4]);
    var t6 := Step(t5, actions[5]);
    t := [s, t1, t2, t3, t4, t5, t6];
  }

  // ----- The target -----

  /** The target that the first deciding write chooses. */
  function FirstTarget(chunks: seq<seq<byte>>, port: nat, http: seq<byte> -> Sniff): Option<Target> {
    if chunks == [] then None
    else
      var init := chunks[..|chunks| - 1];
      var t := FirstTarget(init, port, http);
      if t.Some? then t else Choice(Flatten(init), chunks[|chunks| - 1], port, http)
  }

  ghost predicate TargetInv(s: State) {
    && ByteInv(s) && NetInv(s)
    && (s.target.None? ==> s.wire == [] && s.writer.Idle? && s.fields.connection.None?)
    && (s.target.Some? && s.writer.Idle? ==> s.fields.connection.Some? || s.fields.failed)
    && (!s.errored ==> s.target == FirstTarget(s.chunks, s.port, s.http))
  }

  lemma FirstTargetSnoc(chunks: seq<seq<byte>>, payload: seq<byte>, port: nat, http: seq<byte> -> Sniff)
    ensures FirstTarget(chunks + [payload], port, http) ==
            if FirstTarget(chunks, port, http).Some? then FirstTarget(chunks, port, http)
            else Choice(Flatten(chunks), payload, port, http)
  {
    hide Choice, Flatten;
    assert (chunks + [payload])[..|chunks|] == chunks;
  }

  lemma TargetStart(s: State, payload: seq<byte>)
    requires TargetInv(s) && s.writer.Idle?
    ensures TargetInv(DoStart(s, payload))
  {
    hide Choice, FirstTarget, NetInv, Flatten;
    ByteStart(s, payload);
    NetStep(s, StartWrite(payload));
    FirstTargetSnoc(s.chunks, payload, s.port, s.http);
    if s.target.None? && !s.errored {
      assert s.wire + InTransit(s.writer) + s.fields.pending == s.fields.pending;
    }
  }

  lemma TargetStep(s: State, a: Action)
    requires TargetInv(s) && Enabled(s, a)
    ensures TargetInv(Step(s, a))
  {
    hide Choice, FirstTarget;
    ByteStep(s, a);
    NetStep(s, a);
    if a.StartWrite? {
      TargetStart(s, a.payload);
    }
  }

  /** In every run, the target dialled is the one the writes seen so far determine. */
  lemma {:induction false} TargetOfRun(run: seq<State>, actions: seq<Action>, i: nat)
    requires IsRun(run, actions) && i < |run|
    ensures TargetInv(run[i])
    ensures run[i].port == run[0].port && run[i].http == run[0].http
    decreases i
  {
    hide Choice, FirstTarget;
    if i == 0 {
      NoChunksNoTarget(run[0].port, run[0].http);
    } else {
      TargetOfRun(run, actions, i - 1);
      TargetStep(run[i - 1], actions[i - 1]);
    }
  }

  lemma NoChunksNoTarget(port: nat, http: seq<byte> -> Sniff)
    ensures FirstTarget([], port, http) == None
  {
  }

  /** The bytes are TLS, or the port never carries plain HTTP. */
  predicate Decisive(stream: seq<byte>, port: nat) {
    (stream != [] && stream[0] == 0x16) || port == 443 || port == 8443
  }

  lemma SniffIsFinal(s: seq<byte>, t: seq<byte>, port: nat, http: seq<byte> -> Sniff)
    requires Decisive(s + t, port) && Sniffed(s, port, http) != NeedMore
    ensures Sniffed(s + t, port, http) == Sniffed(s, port, http)
  {
    hide SniffRecords;
    assert (s + t)[0] == s[0];
    if s[0] == 0x16 {
      VerdictIsFinal(s, t, []);
    }
  }

  /** On a port that may carry plain HTTP, bytes that are not TLS are for the HTTP parser to decide. */
  lemma HttpDecides(chunk: seq<byte>, port: nat, http: seq<byte> -> Sniff)
    requires 0 < |chunk| <= 65536 && chunk[0] != 0x16 && port != 443 && port != 8443
    ensures FirstTarget([chunk], port, http) == TargetOf(http(chunk))
  {
    assert [chunk][..0] == [] && [] + chunk == chunk;
  }

  /** On the TLS ports bytes that are not TLS go to the address that was dialled. */
  lemma NotTlsOnTlsPort(chunk: seq<byte>, port: nat, http: seq<byte> -> Sniff)
    requires 0 < |chunk| <= 65536 && chunk[0] != 0x16 && (port == 443 || port == 8443)
    ensures FirstTarget([chunk], port, http) == Some(Destination)
  {
    assert [chunk][..0] == [] && [] + chunk == chunk;
  }

  /** Up to 64 KiB, the target depends only on the bytes and not on how they were cut. */
  lemma {:induction false} TargetIsOfStream(chunks: seq<seq<byte>>, port: nat, http: seq<byte> -> Sniff)
    requires |Flatten(chunks)| <= MAX_INITIAL && Decisive(Flatten(chunks), port)
    ensures FirstTarget(chunks, port, http) == TargetOf(Sniffed(Flatten(chunks), port, http))
    decreases |chunks|
  {
    hide SniffRecords;
    if chunks != [] {
      var init, last := chunks[..|chunks| - 1], chunks[|chunks| - 1];
      assert chunks == init + [last];
      FlattenSnoc(init, last);
      var before := Flatten(init);
      if before == [] {
        NothingWrittenYet(init, port, http);
      } else {
        assert Flatten(chunks)[0] == before[0];
        TargetIsOfStream(init, port, http);
        if Sniffed(before, port, http) != NeedMore {
          SniffIsFinal(before, last, port, http);
        }
      }
    }
  }

  lemma {:induction false} NothingWrittenYet(chunks: seq<seq<byte>>, port: nat, http: seq<byte> -> Sniff)
    requires Flatten(chunks) == []
    ensures FirstTarget(chunks, port, http) == None
  {
    hide SniffRecords;
    if chunks != [] {
      var init, last := chunks[..|chunks| - 1], chunks[|chunks| - 1];
      assert chunks == init + [last];
      FlattenSnoc(init, last);
      NothingWrittenYet(init, port, http);
    }
  }

  /** Any two ways of cutting the same stream of at most 64 KiB choose the same CONNECT target. */
  lemma ChunkingDoesNotMatter(a: seq<seq<byte>>, b: seq<seq<byte>>, port: nat, http: seq<byte> -> Sniff)
    requires Flatten(a) == Flatten(b) && |Flatten(a)| <= MAX_INITIAL && Decisive(Flatten(a), port)
    ensures FirstTarget(a, port, http) == FirstTarget(b, port, http)
  {
    TargetIsOfStream(a, port, http);
    TargetIsOfStream(b, port, http);
  }

  /** Beyond 64 KiB it does matter: one large write skips the sniffing that two writes would do. */
  lemma LargeWriteSkipsSniffing(c: seq<byte>, e: seq<byte>, port: nat, http: seq<byte> -> Sniff)
    requires |c| <= MAX_INITIAL < |c| + |e| && Sniffed(c, port, http).Resolved?
    ensures FirstTarget([c, e], port, http) == Some(Host(Sniffed(c, port, http).host))
    ensures FirstTarget([c + e], port, http) == Some(Destination)
  {
    hide SniffRecords;
    assert [c, e][..1] == [c] && [c][..0] == [] && [c + e][..0] == [];
    assert Flatten([]) == [] && [] + c == c;
    assert FirstTarget([c], port, http) == Choice([], c, port, http);
  }

  /** The target does not depend on how the stream is cut into writes. */
  ghost predicate CutFree(stream: seq<byte>, port: nat, http: seq<byte> -> Sniff) {
    forall a, b :: Flatten(a) == stream && Flatten(b) == stream ==>
      FirstTarget(a, port, http) == FirstTarget(b, port, http)
  }

  /** Whether a name shows in what can be held back. */
  predicate NamedEarly(stream: seq<byte>, port: nat, http: seq<byte> -> Sniff)
    requires |stream| > MAX_INITIAL
  {
    Sniffed(stream[..MAX_INITIAL], port, http).Resolved?
  }

  /** Any part of a long stream without an early name leads to the dialled address or to no decision. */
  lemma {:induction false} UnnamedTarget(chunks: seq<seq<byte>>, stream: seq<byte>, port: nat, http: seq<byte> -> Sniff)
    requires Flatten(chunks) <= stream && |stream| > MAX_INITIAL
    requires Decisive(stream, port) && !NamedEarly(stream, port, http)
    ensures FirstTarget(chunks, port, http) in {None, Some(Destination)}
    ensures |Flatten(chunks)| > MAX_INITIAL ==> FirstTarget(chunks, port, http) == Some(Destination)
  {
    hide SniffRecords, Sniffed;
    var f := Flatten(chunks);
    if |f| <= MAX_INITIAL {
      UnnamedShort(chunks, stream, port, http);
    } else {
      var init, last := chunks[..|chunks| - 1], chunks[|chunks| - 1];
      assert chunks == init + [last];
      FlattenSnoc(init, last);
      UnnamedTarget(init, stream, port, http);
    }
  }

  lemma UnnamedShort(chunks: seq<seq<byte>>, stream: seq<byte>, port: nat, http: seq<byte> -> Sniff)
    requires Flatten(chunks) <= stream && |Flatten(chunks)| <= MAX_INITIAL < |stream|
    requires Decisive(stream, port) && !NamedEarly(stream, port, http)
    ensures FirstTarget(chunks, port, http) in {None, Some(Destination)}
  {
    hide SniffRecords, Sniffed;
    var f := Flatten(chunks);
    if f == [] {
      NothingWrittenYet(chunks, port, http);
    } else {
      var early := stream[..MAX_INITIAL];
      assert f + early[|f|..] == early;
      TargetIsOfStream(chunks, port, http);
      if Sniffed(f, port, http) != NeedMore {
        SniffIsFinal(f, early[|f|..], port, http);
      }
    }
  }

  /**
   The exact condition: the cut of a stream does not matter if and only if the stream fits what can be
   held back, or no name shows in as much of it as fits.
   */
  lemma CutFreeIff(stream: seq<byte>, port: nat, http: seq<byte> -> Sniff)
    requires Decisive(stream, port)
    ensures CutFree(stream, port, http) <==> |stream| <= MAX_INITIAL || !NamedEarly(stream, port, http)
  {
    hide SniffRecords, Sniffed, FirstTarget;
    if |stream| > MAX_INITIAL && NamedEarly(stream, port, http) {
      var c, e := stream[..MAX_INITIAL], stream[MAX_INITIAL..];
      assert c + e == stream;
      LargeWriteSkipsSniffing(c, e, port, http);
      FlattenTwo(c, e);
      assert Flatten([c, e]) == stream && Flatten([stream]) == stream;
      assert FirstTarget([c, e], port, http) != FirstTarget([stream], port, http);
    } else {
      forall a, b | Flatten(a) == stream && Flatten(b) == stream
        ensures FirstTarget(a, port, http) == FirstTarget(b, port, http)
      {
        if |stream| <= MAX_INITIAL {
          ChunkingDoesNotMatter(a, b, port, http);
        } else {
          UnnamedTarget(a, stream, port, http);
          UnnamedTarget(b, stream, port, http);
        }
      }
    }
  }

  lemma FlattenTwo(c: seq<byte>, e: seq<byte>)
    ensures Flatten([c, e]) == c + e && Flatten([c + e]) == c + e
  {
    assert [c, e][1..] == [e] && Flatten([e]) == e + [] && Flatten([c + e]) == c + e + [];
  }

  /** The ClientHello of any usable name, followed by enough data, is such a stream, on every port. */
  lemma ClientHelloDependsOnCut(host: Short, data: seq<byte>, port: nat, http: seq<byte> -> Sniff)
    returns (hello: seq<byte>, r: Record)
    requires |host| <= 254 && Usable(host).Some? && |data| >= MAX_INITIAL
    ensures |hello| <= 1000 && r.fragment == HandshakeMessage(hello)
    ensures !CutFree(Records([r]) + data, port, http)
  {
    hide SniffRecords, Records, HandshakeMessage, Usable, CutFree;
    hello, r := PlainHello(host);
    var record := Records([r]);
    var stream := record + data;
    var k := MAX_INITIAL - |record|;
    assert stream[..MAX_INITIAL] == record + data[..k];
    assert SniffRecords(record + data[..k], []) == ToSniff(Usable(host));
    CutFreeIff(stream, port, http);
  }

  /** So the cut does matter for some stream. */
  lemma SomeStreamDependsOnCut(port: nat, http: seq<byte> -> Sniff) returns (stream: seq<byte>)
    ensures Decisive(stream, port) && !CutFree(stream, port, http)
  {
    hide SniffRecords, CutFree, Usable;
    ShortNameIsUsable();
    var data := seq(MAX_INITIAL, _ => 0);
    var hello, r := ClientHelloDependsOnCut([0x61, 0x2E, 0x62], data, port, http);
    stream := Records([r]) + data;
  }
}
