/**
 The heartbeat of one channel: the daemon's tracker and ticker loop (`server.go`), and the inbound
 watchdog of the device's control session (`VpnControlSession.ets`). Times are integers of one clock.
 */
module Heartbeat {
  import opened Wrappers
  import opened Bytes

  const SECOND := 1_000_000_000
  const DEFAULT_INTERVAL := 5 * SECOND
  const DEFAULT_TIMEOUT := 15 * SECOND

  /** The device's inbound watchdog. */
  const WATCHDOG := 20 * SECOND

  // ----- Configuration -----

  /** The interval and the timeout that `New` settles on. */
  method Configure(interval: int, timeout: int) returns (i: int, t: int)
    ensures 0 < i < t
    ensures i == if interval > 0 then interval else DEFAULT_INTERVAL
    ensures timeout > i ==> t == timeout
    ensures 0 < timeout <= i ==> t == 3 * i
    ensures interval <= 0 && timeout <= 0 ==> i == 5 * SECOND && t == 15 * SECOND
  {
    i, t := interval, timeout;
    if i <= 0 {
      i := DEFAULT_INTERVAL;
    }
    if t <= 0 {
      t := DEFAULT_TIMEOUT;
    }
    if t <= i {
      t := 3 * i;
    }
  }

  // ----- The tracker -----

  const TWO_64 := TWO_32 * TWO_32

  /** The low 64 bits of a time: the remainder, found by taking 2^64 away or adding it. */
  function Wrapped(now: int): nat
    decreases if now < 0 then -now else now
  {
    if now < -TWO_64 then Wrapped(now + TWO_64)
    else if now < 0 then now + TWO_64
    else if now < TWO_64 then now
    else Wrapped(now - TWO_64)
  }

  lemma {:induction false} WrappedFits(now: int)
    ensures Wrapped(now) < TWO_64
    decreases if now < 0 then -now else now
  {
    if now < -TWO_64 {
      WrappedFits(now + TWO_64);
    } else if now >= TWO_64 {
      WrappedFits(now - TWO_64);
    }
  }

  lemma SomeEight(n: nat)
    requires n < TWO_64
    ensures exists p: seq<byte> :: |p| == 8 && Value(p) == n
  {
    var hi, lo := PutU32(n / TWO_32), PutU32(n % TWO_32);
    hide PutU32, U32;
    U32IsBigEndian(hi[0], hi[1], hi[2], hi[3]);
    U32IsBigEndian(lo[0], lo[1], lo[2], lo[3]);
    ValueOfFour(hi[0], hi[1], hi[2], hi[3]);
    ValueOfMore(hi, lo[0], lo[1], lo[2], lo[3]);
    assert hi == [hi[0], hi[1], hi[2], hi[3]];
    assert |hi + [lo[0], lo[1], lo[2], lo[3]]| == 8;
  }

  /** The payload of a PING sent at `now`: the low 64 bits of the time, big-endian. */
  function Nonce(now: int): (p: seq<byte>)
    ensures |p| == 8
  {
    WrappedFits(now);
    SomeEight(Wrapped(now));
    OneEncoding();
    var p: seq<byte> :| |p| == 8 && Value(p) == Wrapped(now);
    p
  }

  lemma NonceValue(now: int)
    ensures Value(Nonce(now)) == Wrapped(now)
  {
  }

  /** The eight bytes of a PING are its time, the most significant first. */
  lemma NonceLayout(now: int)
    requires 0 <= now < TWO_64
    ensures var p := Nonce(now);
            now == 4294967296 * Weighted(p[0], p[1], p[2], p[3]) + Weighted(p[4], p[5], p[6], p[7])
  {
    hide Nonce;
    var p := Nonce(now);
    NonceValue(now);
    ValueOfFour(p[0], p[1], p[2], p[3]);
    ValueOfMore(p[..4], p[4], p[5], p[6], p[7]);
    assert p[..4] == [p[0], p[1], p[2], p[3]] && p == p[..4] + [p[4], p[5], p[6], p[7]];
  }

  lemma NonceIsInjective(a: int, b: int)
    requires 0 <= a < TWO_64 && 0 <= b < TWO_64 && Nonce(a) == Nonce(b)
    ensures a == b
  {
    hide Nonce;
    NonceValue(a);
    NonceValue(b);
  }

  /** An empty `pending` is none; `sentAt` is then 0. */
  datatype Tracker = Tracker(pending: seq<byte>, sentAt: int)

  const IDLE := Tracker([], 0)

  function Waiting(now: int): Tracker {
    Tracker(Nonce(now), now)
  }

  function AfterPong(t: Tracker, payload: seq<byte>): Tracker {
    if t.pending != [] && payload == t.pending then IDLE else t
  }

  class HeartbeatTracker {
    var pending: seq<byte>
    var sentAt: int

    ghost function State(): (t: Tracker)
      reads this
    {
      Tracker(pending, sentAt)
    }

    constructor ()
      ensures State() == IDLE
    {
      pending, sentAt := [], 0;
    }

    /** A second PING is never begun before the first is answered; `expired` is only of a PING under way. */
    method Begin(now: int, timeout: int) returns (payload: Option<seq<byte>>, expired: bool)
      modifies this
      ensures payload.Some? <==> old(pending) == []
      ensures payload.Some? ==> payload.value == Nonce(now) && State() == Waiting(now)
      ensures payload.None? ==> State() == old(State())
      ensures expired <==> old(pending) != [] && now - old(sentAt) >= timeout
    {
      if |pending| != 0 {
        return None, now - sentAt >= timeout;
      }
      pending := Nonce(now);
      sentAt := now;
      return Some(pending), false;
    }

    method Acknowledge(payload: seq<byte>, now: int) returns (roundTrip: int, ok: bool)
      modifies this
      ensures ok <==> old(pending) != [] && payload == old(pending)
      ensures roundTrip == if ok then now - old(sentAt) else 0
      ensures State() == AfterPong(old(State()), payload)
    {
      if |pending| == 0 || payload != pending {
        return 0, false;
      }
      roundTrip := now - sentAt;
      pending := [];
      sentAt := 0;
      ok := true;
    }
  }

  /** The PONG of one PING never answers another, within the 584 years of a 64-bit nonce. */
  lemma StalePongIsIgnored(sentAt: int, other: int)
    requires 0 <= sentAt < TWO_64 && 0 <= other < TWO_64
    ensures AfterPong(Waiting(sentAt), Nonce(other)) == if other == sentAt then IDLE else Waiting(sentAt)
  {
    if Nonce(other) == Nonce(sentAt) {
      NonceIsInjective(other, sentAt);
    }
  }

  // ----- The step system -----

  datatype Status = Beating | TimedOut | WriteFailed | Stopped

  /**
   `active` is false for a tick that the data channel skips since the VPN is not active; `written` is
   whether the PING of the tick, if any, was written.
   */
  datatype Event =
    | Tick(at: int, active: bool, written: bool)
    | Pong(at: int, payload: seq<byte>)
    | Stop(at: int)

  /**
   `lastTick` is the last tick not skipped, at first the start; `sent` is the history of the frames
   sent: the HELLO_ACK at the start and the PINGs.
   */
  datatype State = State(tracker: Tracker, status: Status, now: int, lastTick: int, sent: seq<int>)

  function Start(at: int): State {
    State(IDLE, Beating, at, at, [at])
  }

  function TickStep(s: State, at: int, written: bool, timeout: int): State {
    if s.tracker.pending != [] then
      s.(now := at, lastTick := at, status := if at - s.tracker.sentAt >= timeout then TimedOut else Beating)
    else
      s.(now := at, lastTick := at, tracker := Waiting(at), sent := s.sent + [at],
         status := if written then Beating else WriteFailed)
  }

  function Step(s: State, e: Event, timeout: int): State {
    match e
    case Tick(at, active, written) =>
      if s.status.Beating? && active then TickStep(s, at, written, timeout) else s.(now := at)
    case Pong(at, payload) =>
      s.(now := at, tracker := if |payload| == 8 then AfterPong(s.tracker, payload) else s.tracker)
    case Stop(at) => s.(now := at, status := if s.status.Beating? then Stopped else s.status)
  }

  /** The clock does not go back, and at any event the last tick is at most `gap` ago. */
  predicate Timely(s: State, e: Event, gap: int) {
    s.now <= e.at <= s.lastTick + gap
  }

  ghost predicate IsRun(run: seq<State>, events: seq<Event>, gap: int, timeout: int) {
    && |run| == |events| + 1
    && run[0] == Start(run[0].now)
    && forall i :: 0 <= i < |events| ==>
        run[i + 1] == Step(run[i], events[i], timeout) && (run[i].status.Beating? ==> Timely(run[i], events[i], gap))
  }

  function Last(s: seq<int>): int
    requires s != []
  {
    s[|s| - 1]
  }

  /** A PING under way is the last one sent, and was not overdue at the last tick. */
  ghost predicate Inv(s: State, timeout: int) {
    && s.sent != []
    && (s.tracker == IDLE || s.tracker == Waiting(Last(s.sent)))
    && (s.status.Beating? ==> s.lastTick <= s.now && Last(s.sent) <= s.lastTick < Last(s.sent) + timeout)
  }

  ghost predicate Spaced(sent: seq<int>, bound: int) {
    forall i :: 0 < i < |sent| ==> sent[i - 1] <= sent[i] < sent[i - 1] + bound
  }

  lemma InvStep(s: State, e: Event, gap: int, timeout: int)
    requires 0 < timeout && Inv(s, timeout)
    requires s.status.Beating? ==> Timely(s, e, gap)
    ensures Inv(Step(s, e, timeout), timeout)
  {
    hide Nonce;
  }

  lemma SpacedStep(s: State, e: Event, gap: int, timeout: int)
    requires Inv(s, timeout) && Spaced(s.sent, timeout + gap)
    requires s.status.Beating? ==> Timely(s, e, gap)
    ensures Spaced(Step(s, e, timeout).sent, timeout + gap)
  {
    hide Nonce;
  }

  lemma {:induction false} Invariance(run: seq<State>, events: seq<Event>, gap: int, timeout: int, i: nat)
    requires 0 < timeout && IsRun(run, events, gap, timeout) && i < |run|
    ensures Inv(run[i], timeout) && Spaced(run[i].sent, timeout + gap)
    decreases i
  {
    if i > 0 {
      Invariance(run, events, gap, timeout, i - 1);
      InvStep(run[i - 1], events[i - 1], gap, timeout);
      SpacedStep(run[i - 1], events[i - 1], gap, timeout);
    }
  }

  // ----- Theorems -----

  /** Event `j` sent a PING, and no PONG with its payload came between it and event `i`. */
  ghost predicate UnansweredSince(run: seq<State>, events: seq<Event>, i: nat, j: nat)
    requires i < |run| == |events| + 1
  {
    && j < i
    && events[j].Tick?
    && run[j + 1].sent == run[j].sent + [events[j].at]
    && forall k :: j < k < i ==> !(events[k].Pong? && events[k].payload == Nonce(events[j].at))
  }

  lemma {:induction false} PendingIsUnanswered(run: seq<State>, events: seq<Event>, gap: int, timeout: int, i: nat)
    returns (j: nat)
    requires IsRun(run, events, gap, timeout) && i < |run|
    requires run[i].tracker.pending != []
    ensures UnansweredSince(run, events, i, j) && run[i].tracker == Waiting(events[j].at)
    decreases i
  {
    hide Nonce;
    var s, e := run[i - 1], events[i - 1];
    assert run[i] == Step(s, e, timeout);
    if s.tracker.pending == [] {
      j := i - 1;
    } else {
      j := PendingIsUnanswered(run, events, gap, timeout, i - 1);
    }
  }

  /** While no PONG answers it, the tracker waits for the PING and no other is sent. */
  lemma {:induction false} UnansweredIsPending(run: seq<State>, events: seq<Event>, gap: int, timeout: int, i: nat, j: nat)
    requires IsRun(run, events, gap, timeout) && i < |run| && UnansweredSince(run, events, i, j)
    ensures run[i].tracker == Waiting(events[j].at) && run[i].sent == run[j + 1].sent
    decreases i
  {
    hide Nonce;
    var s, e := run[i - 1], events[i - 1];
    assert run[i] == Step(s, e, timeout);
    if j < i - 1 {
      UnansweredIsPending(run, events, gap, timeout, i - 1, j);
    } else {
      assert s.sent != s.sent + [e.at];
    }
  }

  /**
   A channel times out at a tick exactly if a PING sent by an earlier tick had gone without its PONG
   for at least the timeout, and then for less than the timeout and one gap between ticks.
   */
  lemma TimesOutIffUnanswered(run: seq<State>, events: seq<Event>, gap: int, timeout: int, i: nat)
    requires 0 < timeout && IsRun(run, events, gap, timeout) && i < |events|
    requires run[i].status.Beating?
    ensures run[i + 1].status.TimedOut? <==>
              && events[i].Tick? && events[i].active
              && exists j: nat :: UnansweredSince(run, events, i, j) && events[i].at - events[j].at >= timeout
    ensures run[i + 1].status.TimedOut? ==>
              exists j: nat :: UnansweredSince(run, events, i, j) && timeout <= events[i].at - events[j].at < timeout + gap
  {
    hide Nonce;
    Invariance(run, events, gap, timeout, i);
    assert run[i + 1] == Step(run[i], events[i], timeout);
    if run[i].tracker.pending != [] {
      var j := PendingIsUnanswered(run, events, gap, timeout, i);
    }
    forall j: nat | UnansweredSince(run, events, i, j) ensures run[i].tracker == Waiting(events[j].at) {
      UnansweredIsPending(run, events, gap, timeout, i, j);
    }
  }

  /** While the channel beats, no PING has gone unanswered for the timeout and one gap. */
  lemma UnansweredEndsInTime(run: seq<State>, events: seq<Event>, gap: int, timeout: int, i: nat, j: nat)
    requires 0 < timeout && IsRun(run, events, gap, timeout) && i < |events|
    requires run[i].status.Beating? && UnansweredSince(run, events, i, j)
    ensures events[i].at - events[j].at < timeout + gap
  {
    hide Nonce;
    Invariance(run, events, gap, timeout, i);
    UnansweredIsPending(run, events, gap, timeout, i, j);
  }

  /** A beating channel stops at a stop, at an overdue PING and at a PING that cannot be written, and only then. */
  lemma BeatsOnIff(run: seq<State>, events: seq<Event>, gap: int, timeout: int, i: nat)
    requires IsRun(run, events, gap, timeout) && i < |events| && run[i].status.Beating?
    ensures run[i + 1].status.Beating? <==>
              && !events[i].Stop?
              && (events[i].Tick? && events[i].active ==>
                    if run[i].tracker.pending != [] then events[i].at - run[i].tracker.sentAt < timeout
                    else events[i].written)
    ensures events[i].Tick? && events[i].active && run[i].tracker.pending == [] && !events[i].written ==>
              run[i + 1].status.WriteFailed?
  {
    hide Nonce;
  }

  /** A channel that has stopped sends nothing any more. */
  lemma {:induction false} StoppedForGood(run: seq<State>, events: seq<Event>, gap: int, timeout: int, i: nat, j: nat)
    requires IsRun(run, events, gap, timeout) && i <= j < |run| && !run[i].status.Beating?
    ensures run[j].status == run[i].status && run[j].sent == run[i].sent
    decreases j
  {
    hide Nonce;
    if i < j {
      StoppedForGood(run, events, gap, timeout, i, j - 1);
      assert run[j] == Step(run[j - 1], events[j - 1], timeout);
    }
  }

  /** Successive frames are less than the timeout and one gap apart. */
  lemma PingsAreSpaced(run: seq<State>, events: seq<Event>, gap: int, timeout: int, i: nat, k: nat)
    requires 0 < timeout && IsRun(run, events, gap, timeout) && i < |run| && 0 < k < |run[i].sent|
    ensures run[i].sent[k] - run[i].sent[k - 1] < timeout + gap
  {
    Invariance(run, events, gap, timeout, i);
  }

  // ----- Ideal ticks -----

  /** No tick is skipped, and each comes one interval after the one before. */
  ghost predicate Ideal(run: seq<State>, events: seq<Event>, interval: int)
    requires |run| == |events| + 1
  {
    forall i :: 0 <= i < |events| && events[i].Tick? && run[i].status.Beating? ==>
      events[i].active && events[i].at == run[i].lastTick + interval
  }

  lemma {:induction false} TickNumber(run: seq<State>, events: seq<Event>, interval: int, timeout: int, i: nat)
    returns (n: nat)
    requires IsRun(run, events, interval, timeout) && Ideal(run, events, interval) && i < |run|
    ensures run[i].lastTick == run[0].now + n * interval
    decreases i
  {
    hide Nonce;
    n := 0;
    if i > 0 {
      var m := TickNumber(run, events, interval, timeout, i - 1);
      assert run[i] == Step(run[i - 1], events[i - 1], timeout);
      n := if run[i].lastTick == run[i - 1].lastTick then m else m + 1;
    }
  }

  lemma {:induction false} SentNumber(
    run: seq<State>, events: seq<Event>, interval: int, timeout: int, i: nat, k: nat) returns (n: nat)
    requires IsRun(run, events, interval, timeout) && Ideal(run, events, interval)
    requires i < |run| && k < |run[i].sent|
    ensures run[i].sent[k] == run[0].now + n * interval
    decreases i
  {
    hide Nonce;
    n := 0;
    if i > 0 {
      assert run[i] == Step(run[i - 1], events[i - 1], timeout);
      if k < |run[i - 1].sent| {
        n := SentNumber(run, events, interval, timeout, i - 1, k);
      } else {
        n := TickNumber(run, events, interval, timeout, i);
      }
    }
  }

  lemma {:induction false} Monotone(x: int, y: int, interval: int)
    requires x <= y && 0 <= interval
    ensures x * interval <= y * interval
    decreases y - x
  {
    if x < y {
      Monotone(x, y - 1, interval);
      assert y * interval == (y - 1) * interval + interval;
    }
  }

  /** Between points of a grid, less than one step more than a multiple is at most that multiple. */
  lemma OnGrid(interval: int, m: int, a: int, b: int)
    requires 0 < interval && b * interval - a * interval < m * interval
    ensures b * interval - a * interval <= (m - 1) * interval
  {
    assert b * interval - a * interval == (b - a) * interval;
    if m <= b - a {
      Monotone(m, b - a, interval);
    } else {
      Monotone(b - a, m - 1, interval);
    }
  }

  /**
   With ideal ticks and a timeout of `m` intervals, successive frames are at most the timeout apart: at
   most 15 seconds with the defaults.
   */
  lemma IdealPings(run: seq<State>, events: seq<Event>, interval: int, m: nat, i: nat, k: nat)
    requires 0 < interval && 0 < m && IsRun(run, events, interval, m * interval) && Ideal(run, events, interval)
    requires i < |run| && 0 < k < |run[i].sent|
    ensures run[i].sent[k] - run[i].sent[k - 1] <= m * interval
  {
    hide Nonce, Step;
    var a := SentNumber(run, events, interval, m * interval, i, k - 1);
    var b := SentNumber(run, events, interval, m * interval, i, k);
    PingsAreSpaced(run, events, interval, m * interval, i, k);
    OnGrid(interval, m + 1, a, b);
  }

  // ----- The watchdog of the device -----

  /** Frame `k` arrives at `arrivals[k]`, not before it is sent and at most `delay` after. */
  ghost predicate Delivered(sent: seq<int>, arrivals: seq<int>, delay: int) {
    |arrivals| == |sent| && forall k :: 0 <= k < |sent| ==> sent[k] <= arrivals[k] <= sent[k] + delay
  }

  /** At a check at `now`, no frame has arrived in the last 20 seconds. */
  ghost predicate WatchdogFires(arrivals: seq<int>, now: int) {
    forall k :: 0 <= k < |arrivals| && arrivals[k] <= now ==> now - arrivals[k] >= WATCHDOG
  }

  lemma InSomeGap(sent: seq<int>, bound: int, y: int) returns (k: nat)
    requires sent != [] && sent[0] <= y < Last(sent) + bound
    requires forall i :: 0 < i < |sent| ==> sent[i] <= sent[i - 1] + bound
    ensures k < |sent| && sent[k] <= y < sent[k] + bound
  {
    k := |sent| - 1;
    while sent[k] > y
      invariant k < |sent| && y < sent[k] + bound
      decreases k
    {
      assert sent[k] <= sent[k - 1] + bound;
      k := k - 1;
    }
  }

  lemma SpacedFramesKeepTheWatchdogQuiet(
    sent: seq<int>, arrivals: seq<int>, bound: int, delay: int, now: int)
    requires sent != [] && Delivered(sent, arrivals, delay) && arrivals[0] <= now
    requires forall i :: 0 < i < |sent| ==> sent[i] <= sent[i - 1] + bound
    requires 0 < bound && bound + delay <= WATCHDOG && now - delay < Last(sent) + bound
    ensures !WatchdogFires(arrivals, now)
  {
    if now - delay < sent[0] {
      assert now - arrivals[0] < WATCHDOG;
    } else {
      var k := InSomeGap(sent, bound, now - delay);
      assert arrivals[k] <= now && now - arrivals[k] < WATCHDOG;
    }
  }

  /**
   A channel that beats never trips the device's watchdog, however late its ticks are, so long as the
   timeout, the largest gap between ticks and the delay of a frame make 20 seconds at most.
   */
  lemma WatchdogStaysQuiet(run: seq<State>, events: seq<Event>, gap: int, timeout: int, i: nat,
                           arrivals: seq<int>, delay: int, now: int)
    requires 0 < timeout && 0 <= gap && IsRun(run, events, gap, timeout) && i < |run| && run[i].status.Beating?
    requires Delivered(run[i].sent, arrivals, delay) && timeout + gap + delay <= WATCHDOG
    requires run[i].sent != [] && arrivals[0] <= now && now - delay <= run[i].lastTick + gap
    ensures !WatchdogFires(arrivals, now)
  {
    hide Nonce, Step;
    Invariance(run, events, gap, timeout, i);
    SpacedFramesKeepTheWatchdogQuiet(run[i].sent, arrivals, timeout + gap, delay, now);
  }

  /** With ideal ticks at the default times, frames may take up to five seconds. */
  lemma DefaultsKeepTheWatchdogQuiet(run: seq<State>, events: seq<Event>, i: nat,
                                     arrivals: seq<int>, delay: int, now: int)
    requires IsRun(run, events, DEFAULT_INTERVAL, DEFAULT_TIMEOUT) && Ideal(run, events, DEFAULT_INTERVAL)
    requires i < |run| && run[i].status.Beating? && Delivered(run[i].sent, arrivals, delay) && delay <= 5 * SECOND
    requires run[i].sent != [] && arrivals[0] <= now && now - delay < run[i].lastTick + DEFAULT_INTERVAL
    ensures !WatchdogFires(arrivals, now)
    ensures exists k :: 0 <= k < |arrivals| && arrivals[k] <= now < arrivals[k] + 20_000_000_000
  {
    hide Nonce, Step;
    var sent := run[i].sent;
    Invariance(run, events, DEFAULT_INTERVAL, DEFAULT_TIMEOUT, i);
    forall k | 0 < k < |sent| ensures sent[k] <= sent[k - 1] + DEFAULT_TIMEOUT {
      IdealPings(run, events, DEFAULT_INTERVAL, 3, i, k);
    }
    var a := SentNumber(run, events, DEFAULT_INTERVAL, DEFAULT_TIMEOUT, i, |sent| - 1);
    var b := TickNumber(run, events, DEFAULT_INTERVAL, DEFAULT_TIMEOUT, i);
    OnGrid(DEFAULT_INTERVAL, 3, a, b);
    SpacedFramesKeepTheWatchdogQuiet(sent, arrivals, DEFAULT_TIMEOUT, delay, now);
  }
}
