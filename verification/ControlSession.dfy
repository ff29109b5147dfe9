/**
 The sending side of the device's control session (`VpnControlSession.ets`). A send takes its number at
 once and queues its frame; the queue is drained one frame at a time, and goes on after a send that
 fails. The number is taken even if the frame is then refused by the encoder.
 */
module ControlSession {
  import opened Bytes
  import opened Frames
  import opened Channel

  /** Positions among the frames asked for. */
  type Positions = seq<nat>

  ghost predicate Increasing(ps: Positions) {
    forall i, j :: 0 <= i < j < |ps| ==> ps[i] < ps[j]
  }

  // ----- The object -----

  class VpnControlSession {
    var nextOutgoingSequence: uint32
    var expectedIncomingSequence: uint32
    var sendQueue: seq<Frame>

    constructor ()
      ensures nextOutgoingSequence == 1 && expectedIncomingSequence == 1 && sendQueue == []
    {
      nextOutgoingSequence, expectedIncomingSequence, sendQueue := 1, 1, [];
    }

    method Send(kind: byte, payload: seq<byte>) returns (thrown: bool)
      modifies this
      ensures nextOutgoingSequence == NextSequence(old(nextOutgoingSequence))
      ensures thrown <==> !ValidFrame(Frame(kind, 0, old(nextOutgoingSequence), payload))
      ensures sendQueue ==
              if thrown then old(sendQueue)
              else old(sendQueue) + [Frame(kind, 0, old(nextOutgoingSequence), payload)]
      ensures expectedIncomingSequence == old(expectedIncomingSequence)
    {
      var sequence := nextOutgoingSequence;
      nextOutgoingSequence := if sequence == 0xFFFF_FFFF then 1 else sequence + 1;
      var frame := Frame(kind, 0, sequence, payload);
      thrown := !ValidFrame(frame);
      if !thrown {
        sendQueue := sendQueue + [frame];
      }
    }

    /** The check of an incoming frame. */
    method Expect(frame: Frame) returns (ok: bool)
      modifies this
      ensures ok <==> Taken(old(expectedIncomingSequence), [frame]) == [frame]
      ensures expectedIncomingSequence ==
              if ok then NextSequence(old(expectedIncomingSequence)) else old(expectedIncomingSequence)
      ensures nextOutgoingSequence == old(nextOutgoingSequence) && sendQueue == old(sendQueue)
    {
      if frame.sequence != expectedIncomingSequence {
        return false;
      }
      expectedIncomingSequence := if expectedIncomingSequence == 0xFFFF_FFFF then 1 else expectedIncomingSequence + 1;
      assert [frame][1..] == [];
      ok := true;
    }
  }

  // ----- The step system -----

  /** `asked` are all frames that took a number, `waiting` and `written` positions in it. */
  datatype State = State(next: uint32, asked: seq<Frame>, waiting: Positions, written: Positions)

  /** `Ask` is a call of `send`, `Drain` the end of the send of the frame at the head of the queue. */
  datatype Action =
    | Ask(kind: byte, payload: seq<byte>)
    | Drain(ok: bool)

  ghost predicate Init(s: State) {
    s == State.State(1, [], [], [])
  }

  predicate Enabled(s: State, a: Action) {
    a.Drain? ==> s.waiting != []
  }

  function Step(s: State, a: Action): State
    requires Enabled(s, a)
  {
    match a
    case Ask(kind, payload) =>
      var frame := Frame(kind, 0, s.next, payload);
      s.(next := NextSequence(s.next), asked := s.asked + [frame],
         waiting := if !ValidFrame(frame) then s.waiting else s.waiting + [|s.asked|])
    case Drain(ok) =>
      s.(waiting := s.waiting[1..], written := if ok then s.written + [s.waiting[0]] else s.written)
  }

  ghost predicate IsRun(run: seq<State>, actions: seq<Action>) {
    && |run| == |actions| + 1
    && Init(run[0])
    && forall i :: 0 <= i < |actions| ==> Enabled(run[i], actions[i]) && run[i + 1] == Step(run[i], actions[i])
  }

  ghost predicate Inv(s: State) {
    && s.next == SequenceOf(|s.asked| + 1)
    && Numbered(s.asked, 1)
    && Increasing(s.written + s.waiting)
    && forall i :: 0 <= i < |s.written + s.waiting| ==> (s.written + s.waiting)[i] < |s.asked|
  }

  lemma InvStep(s: State, a: Action)
    requires Inv(s) && Enabled(s, a)
    ensures Inv(Step(s, a))
  {
    hide SequenceOf, ValidFrame;
    var t := Step(s, a);
    match a
    case Ask(_, _) =>
      NextOfSequence(|s.asked| + 1);
      assert t.written + t.waiting == s.written + s.waiting || t.written + t.waiting == s.written + s.waiting + [|s.asked|];
    case Drain(ok) =>
      if ok {
        assert t.written + t.waiting == s.written + s.waiting;
      } else {
        assert t.written + t.waiting == s.written + s.waiting[1..];
        assert forall i :: 0 <= i < |t.written + t.waiting| ==>
            (t.written + t.waiting)[i] == (s.written + s.waiting)[if i < |s.written| then i else i + 1];
      }
  }

  lemma {:induction false} Invariance(run: seq<State>, actions: seq<Action>, i: nat)
    requires IsRun(run, actions) && i < |run|
    ensures Inv(run[i])
    decreases i
  {
    hide SequenceOf, Step;
    if i == 0 {
      NextOfSequence(1);
    } else {
      Invariance(run, actions, i - 1);
      InvStep(run[i - 1], actions[i - 1]);
    }
  }

  // ----- What the daemon takes -----

  /** How many frames were written before the first one that was not. */
  function Unbroken(written: Positions): (n: nat)
    ensures n <= |written|
    ensures forall i :: 0 <= i < n ==> written[i] == i
    ensures n < |written| ==> written[n] != n
  {
    if written == [] then 0
    else
      var n := Unbroken(written[..|written| - 1]);
      if n == |written| - 1 && written[n] == n then n + 1 else n
  }

  ghost function At(asked: seq<Frame>, ps: Positions): (fs: seq<Frame>)
    requires forall i :: 0 <= i < |ps| ==> ps[i] < |asked|
    ensures |fs| == |ps| && forall i :: 0 <= i < |ps| ==> fs[i] == asked[ps[i]]
  {
    seq(|ps|, i requires 0 <= i < |ps| => asked[ps[i]])
  }

  /** A receiver notices the loss of so many frames in a row. */
  predicate Noticed(loss: int) {
    loss % 0xFFFF_FFFF != 0
  }

  ghost predicate InRange(asked: seq<Frame>, written: Positions) {
    forall i :: 0 <= i < |written| ==> written[i] < |asked|
  }

  lemma WrittenInRange(s: State)
    requires Inv(s)
    ensures InRange(s.asked, s.written) && Increasing(s.written)
  {
    hide SequenceOf;
    assert forall i :: 0 <= i < |s.written| ==> s.written[i] == (s.written + s.waiting)[i];
  }

  /** The k-th of increasing positions is at least `k`. */
  lemma {:induction false} NotBefore(ps: Positions, k: nat)
    requires Increasing(ps) && k < |ps|
    ensures k <= ps[k]
    decreases k
  {
    if k > 0 {
      NotBefore(ps, k - 1);
    }
  }

  function UpTo(n: nat): (ps: Positions)
    ensures |ps| == n && forall i :: 0 <= i < n ==> ps[i] == i
  {
    seq(n, i requires 0 <= i < n => i)
  }

  /** As long as no send fails and no frame is refused, every frame is written or waits, in order. */
  lemma {:induction false} NothingIsLost(run: seq<State>, actions: seq<Action>, i: nat)
    requires IsRun(run, actions) && i < |run|
    requires forall k :: 0 <= k < i && actions[k].Drain? ==> actions[k].ok
    requires forall k :: 0 <= k < |run[i].asked| ==> ValidFrame(run[i].asked[k])
    ensures run[i].written + run[i].waiting == UpTo(|run[i].asked|)
    decreases i
  {
    hide ValidFrame;
    if i > 0 {
      var s, a, t := run[i - 1], actions[i - 1], run[i];
      assert t == Step(s, a);
      assert s.asked <= t.asked;
      assert forall k :: 0 <= k < |s.asked| ==> s.asked[k] == t.asked[k];
      NothingIsLost(run, actions, i - 1);
      if a.Ask? {
        assert t.asked[|s.asked|] == Frame(a.kind, 0, s.next, a.payload);
        assert t.written + t.waiting == s.written + s.waiting + [|s.asked|];
      } else {
        assert t.written + t.waiting == s.written + s.waiting;
      }
    }
  }

  lemma TakesUnbroken(asked: seq<Frame>, written: Positions, n: nat)
    requires Numbered(asked, 1) && InRange(asked, written) && n <= |written|
    requires forall i :: 0 <= i < n ==> written[i] == i
    ensures n <= |asked|
    ensures Taken(SequenceOf(1), At(asked, written)) ==
            asked[..n] + Taken(SequenceOf(1 + n), At(asked, written)[n..])
  {
    hide SequenceOf, Taken;
    var fs := At(asked, written);
    assert n > 0 ==> written[n - 1] == n - 1;
    assert fs == asked[..n] + fs[n..];
    TakesNumbered(1, asked[..n], fs[n..]);
  }

  lemma StopsAtLoss(asked: seq<Frame>, written: Positions, n: nat)
    requires Numbered(asked, 1) && InRange(asked, written) && Increasing(written) && n < |written|
    ensures Taken(SequenceOf(1 + n), At(asked, written)[n..]) == [] <==> Noticed(written[n] - n)
  {
    hide SequenceOf;
    NotBefore(written, n);
    SameSequence(1 + n, written[n] - n);
    assert At(asked, written)[n..][0].sequence == SequenceOf(1 + written[n]);
  }

  /**
   In every run, whatever sends fail, the daemon takes the frames before the first one that was lost,
   and it takes nothing after it exactly unless a multiple of 2^32-1 frames is lost there.
   */
  lemma DaemonTakesUpToFirstLoss(run: seq<State>, actions: seq<Action>, i: nat)
    requires IsRun(run, actions) && i < |run|
    ensures InRange(run[i].asked, run[i].written) && Unbroken(run[i].written) <= |run[i].asked|
    ensures var s := run[i];
            var n := Unbroken(s.written);
            && s.asked[..n] <= Taken(1, At(s.asked, s.written))
            && (Taken(1, At(s.asked, s.written)) == s.asked[..n] <==> n == |s.written| || Noticed(s.written[n] - n))
  {
    hide SequenceOf, Step, Taken, Noticed;
    Invariance(run, actions, i);
    var s := run[i];
    WrittenInRange(s);
    var n := Unbroken(s.written);
    NextOfSequence(1);
    TakesUnbroken(s.asked, s.written, n);
    if n < |s.written| {
      StopsAtLoss(s.asked, s.written, n);
    } else {
      NothingTaken(SequenceOf(1 + n), At(s.asked, s.written)[n..]);
    }
  }

  lemma NothingTaken(expected: uint32, fs: seq<Frame>)
    requires fs == []
    ensures Taken(expected, fs) == []
  {
  }
}
