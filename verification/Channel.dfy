/**
 One direction of an HNB/1 connection: several goroutines or threads share one locked writer, the
 frames they send carry consecutive sequence numbers, and the receiver checks them. The Go writer
 (`frameWriter` in `internal/daemon/server.go`) advances its sequence before it writes; the native
 writer (`SendFrame` in `packet_pump.cpp`) advances it after a successful write.
 */
module Channel {
  import opened Wrappers
  import opened Bytes
  import opened Frames
  import opened Decoder

  const LAST_SEQUENCE: uint32 := 0xFFFF_FFFF

  function NextSequence(s: uint32): uint32 {
    if s == LAST_SEQUENCE then 1 else s + 1
  }

  /** The sequence number of the n-th frame of a direction: from 1 to 2^32-1, then 1 again. */
  function SequenceOf(n: nat): (s: uint32)
    requires n >= 1
    ensures 1 <= s <= LAST_SEQUENCE
  {
    (n - 1) % 0xFFFF_FFFF + 1
  }

  /** Counting with wrap-around is the closed form. */
  lemma NextOfSequence(n: nat)
    requires n >= 1
    ensures NextSequence(SequenceOf(n)) == SequenceOf(n + 1)
    ensures SequenceOf(1) == 1
  {
  }

  /** Two positions share a number exactly when they are a multiple of 2^32-1 apart. */
  lemma SameSequence(n: nat, gap: nat)
    requires n >= 1
    ensures SequenceOf(n + gap) == SequenceOf(n) <==> gap % 0xFFFF_FFFF == 0
  {
  }

  /** Frames `n`, `n + 1`, ... of a direction. */
  ghost predicate Numbered(fs: seq<Frame>, n: nat)
    requires n >= 1
  {
    forall i :: 0 <= i < |fs| ==> fs[i].sequence == SequenceOf(n + i)
  }

  // ----- The receiver -----

  /** The frames that a receiver takes before the first one with an unexpected number. */
  function Taken(expected: uint32, fs: seq<Frame>): seq<Frame>
    decreases |fs|
  {
    if fs == [] || fs[0].sequence != expected then []
    else [fs[0]] + Taken(NextSequence(expected), fs[1..])
  }

  /** Consecutive frames are all taken, and whatever follows them is judged at the right number. */
  lemma {:induction false} TakesNumbered(n: nat, fs: seq<Frame>, rest: seq<Frame>)
    requires n >= 1 && Numbered(fs, n)
    ensures Taken(SequenceOf(n), fs + rest) == fs + Taken(SequenceOf(n + |fs|), rest)
    decreases |fs|
  {
    hide SequenceOf;
    if fs == [] {
      assert fs + rest == rest;
    } else {
      assert fs[0].sequence == SequenceOf(n + 0);
      forall i | 0 <= i < |fs[1..]| ensures fs[1..][i].sequence == SequenceOf(n + 1 + i) {
        assert fs[1..][i] == fs[i + 1];
      }
      assert (fs + rest)[1..] == fs[1..] + rest && (fs + rest)[0] == fs[0];
      NextOfSequence(n);
      TakesNumbered(n + 1, fs[1..], rest);
    }
  }

  /**
   Losing fewer than 2^32-1 frames in a row is always noticed: the receiver takes the frames before
   the gap and nothing after it.
   */
  lemma GapIsDetected(n: nat, fs: seq<Frame>, i: nat, gap: nat)
    requires n >= 1 && Numbered(fs, n) && i + gap < |fs|
    requires 0 < gap < 0xFFFF_FFFF
    ensures Taken(SequenceOf(n), fs[..i] + fs[i + gap..]) == fs[..i]
  {
    TakesNumbered(n, fs[..i], fs[i + gap..]);
    assert fs[i + gap..][0].sequence == SequenceOf(n + (i + gap));
    SameSequence(n + i, gap);
    hide SequenceOf;
    assert n + (i + gap) == (n + i) + gap;
    assert Taken(SequenceOf(n + i), fs[i + gap..]) == [];
  }

  /** One turn of the read loop. */
  lemma TakenFromRead(expected: uint32, s: seq<byte>)
    ensures Taken(expected, Decode(s).frames) ==
            match ReadFrame(s)
            case Got(f, rest) =>
              if f.sequence != expected then [] else [f] + Taken(NextSequence(expected), Decode(rest).frames)
            case _ => []
    ensures ReadFrame(s).Got? ==> |ReadFrame(s).rest| < |s|
  {
    hide FrontOf, ReadFrame;
    FrontIsRead(s);
    if ReadFrame(s).Got? {
      assert Decode(s).frames[1..] == Decode(ReadFrame(s).rest).frames;
    }
  }

  /** The read loop of a data connection: frames until the input ends or a number is unexpected. */
  method ReceiveFrames(reader: Source, first: uint32) returns (taken: seq<Frame>)
    requires reader.Valid()
    modifies reader
    ensures reader.Valid()
    ensures taken == Taken(first, Decode(old(reader.Remaining())).frames)
  {
    hide FrontOf, ReadFrame, Taken, Decode;
    ghost var all := Decode(reader.Remaining()).frames;
    taken := [];
    var expected := first;
    while true
      invariant reader.Valid()
      invariant Taken(first, all) == taken + Taken(expected, Decode(reader.Remaining()).frames)
      decreases |reader.Remaining()|
    {
      TakenFromRead(expected, reader.Remaining());
      var r := ReadFrameFrom(reader);
      if !r.Got? {
        return;
      }
      if r.frame.sequence != expected {
        return;
      }
      taken := taken + [r.frame];
      expected := NextSequence(expected);
    }
  }

  // ----- The writers -----

  datatype Policy = AdvanceFirst | AdvanceAfter

  /** The lock, with the frame that its holder is writing and how many of its bytes are out. */
  datatype Holder = Free | Writing(writer: nat, frame: Frame, emitted: nat)

  datatype State = State(
    policy: Policy,
    holder: Holder,
    sequence: uint32,
    broken: bool,
    // History: the frames written completely, and every byte that reached the connection.
    sent: seq<Frame>,
    wire: seq<byte>)

  datatype Action =
    | Take(writer: nat, kind: byte, payload: seq<byte>)
    | Emit(count: nat)
    | Finish
    | Fail

  /** The handshake frame has been written with number 1; the writers start with 2. */
  ghost predicate Init(s: State) {
    && s.holder == Free && s.sequence == 2 && !s.broken
    && |s.sent| == 1 && ValidFrame(s.sent[0]) && s.sent[0].sequence == 1
    && s.wire == Encode(s.sent[0])
  }

  predicate Enabled(s: State, a: Action) {
    && !s.broken
    && match a
       case Take(_, _, _) => s.holder.Free?
       case Emit(count) => s.holder.Writing? && 0 < count <= |Encode(s.holder.frame)| - s.holder.emitted
       case Finish => s.holder.Writing? && s.holder.emitted == |Encode(s.holder.frame)|
       case Fail => s.holder.Writing?
  }

  function Step(s: State, a: Action): State
    requires Enabled(s, a)
  {
    match a
    case Take(w, kind, payload) =>
      var f := Frame(kind, 0, s.sequence, payload);
      if !ValidFrame(f) then s.(broken := true)
      else
        s.(holder := Writing(w, f, 0),
           sequence := if s.policy.AdvanceFirst? then NextSequence(s.sequence) else s.sequence)
    case Emit(count) =>
      var Writing(w, f, k) := s.holder;
      s.(holder := Writing(w, f, k + count), wire := s.wire + Encode(f)[k..k + count])
    case Finish =>
      s.(holder := Free, sent := s.sent + [s.holder.frame],
         sequence := if s.policy.AdvanceAfter? then NextSequence(s.sequence) else s.sequence)
    case Fail => s.(broken := true)
  }

  ghost predicate IsRun(run: seq<State>, actions: seq<Action>) {
    && |run| == |actions| + 1
    && Init(run[0])
    && forall i :: 0 <= i < |actions| ==> Enabled(run[i], actions[i]) && run[i + 1] == Step(run[i], actions[i])
  }

  ghost predicate Inv(s: State) {
    && (forall i :: 0 <= i < |s.sent| ==> ValidFrame(s.sent[i]))
    && Numbered(s.sent, 1)
    && match s.holder
       case Free =>
         s.wire == EncodeAll(s.sent) && (s.broken || s.sequence == SequenceOf(|s.sent| + 1))
       case Writing(_, f, k) =>
         && ValidFrame(f) && k <= |Encode(f)|
         && f.sequence == SequenceOf(|s.sent| + 1)
         && s.wire == EncodeAll(s.sent) + Encode(f)[..k]
         && s.sequence == if s.policy.AdvanceFirst? then SequenceOf(|s.sent| + 2) else f.sequence
  }

  lemma InvInit(s: State)
    requires Init(s)
    ensures Inv(s)
  {
    hide Encode;
    NextOfSequence(1);
    assert EncodeAll(s.sent) == Encode(s.sent[0]) + EncodeAll(s.sent[1..]);
    assert s.wire + [] == s.wire;
  }

  lemma InvStep(s: State, a: Action)
    requires Inv(s) && Enabled(s, a)
    ensures Inv(Step(s, a))
  {
    hide Encode, SequenceOf;
    NextOfSequence(|s.sent| + 1);
    match a
    case Take(_, _, _) => assert s.wire + [] == s.wire;
    case Emit(count) =>
      var Writing(_, f, k) := s.holder;
      assert Encode(f)[..k] + Encode(f)[k..k + count] == Encode(f)[..k + count];
    case Finish =>
      var f := s.holder.frame;
      EncodeAllSnoc(s.sent, f);
      assert Encode(f)[..|Encode(f)|] == Encode(f);
    case Fail =>
  }

  lemma {:induction false} Invariance(run: seq<State>, actions: seq<Action>, i: nat)
    requires IsRun(run, actions) && i < |run|
    ensures Inv(run[i])
    decreases i
  {
    hide Encode, SequenceOf;
    if i == 0 {
      InvInit(run[0]);
    } else {
      Invariance(run, actions, i - 1);
      InvStep(run[i - 1], actions[i - 1]);
    }
  }

  /** Part of a frame decodes to nothing and to no error. */
  lemma PartOfFrame(f: Frame, k: nat)
    requires ValidFrame(f) && k <= |Encode(f)|
    ensures Decode(Encode(f)[..k]).error.None?
    ensures Decode(Encode(f)[..k]).frames == if k == |Encode(f)| then [f] else []
  {
    hide Encode, FrontOf;
    var s, t := Encode(f)[..k], Encode(f)[k..];
    assert s + t == Encode(f) && Encode(f) + [] == Encode(f) && (k == |Encode(f)| ==> s == Encode(f));
    DecodeOfEncode(f, []);
    ShortIsNotDecoded([]);
    DecodeExtend(s, t);
    DecodeConserves(s);
    var d := Decode(s);
    assert Decode(Encode(f)).frames == [f] && d.error.None?;
    assert d.frames + Decode(d.rest + t).frames == [f];
    if d.frames != [] {
      assert d.frames[0] == [f][0] && |d.frames| == 1;
      assert d.frames == [f];
      assert EncodeAll([f]) == Encode(f) + EncodeAll([]);
    }
  }

  /** Some of the bytes of a stream show some of its frames, and an error only if the stream has it. */
  lemma DecodePrefix(s: seq<byte>, whole: seq<byte>)
    requires s <= whole && Decode(whole).error.None?
    ensures Decode(s).error.None? && Decode(s).frames <= Decode(whole).frames
  {
    hide FrontOf;
    assert s + whole[|s|..] == whole;
    DecodeExtend(s, whole[|s|..]);
  }

  /**
   In every interleaving of the writers, up to the first write error: the n-th frame carries the
   n-th sequence number, the bytes on the wire never mix two frames, and a receiver that has been
   delivered any part of them decodes a prefix of the frames, meets no error and takes them all.
   */
  lemma ReceiverTakesEverySentFrame(run: seq<State>, actions: seq<Action>, i: nat, delivered: seq<byte>)
    requires IsRun(run, actions) && i < |run| && delivered <= run[i].wire
    ensures Numbered(run[i].sent, 1)
    ensures Decode(run[i].wire).error.None?
    ensures run[i].sent <= Decode(run[i].wire).frames
    ensures |Decode(run[i].wire).frames| <= |run[i].sent| + 1
    ensures Decode(delivered).error.None? && Decode(delivered).frames <= Decode(run[i].wire).frames
    ensures Taken(1, Decode(delivered).frames) == Decode(delivered).frames
  {
    hide Encode, EncodeAll, FrontOf, SequenceOf, Step, Decode;
    Invariance(run, actions, i);
    var s := run[i];
    var part := WirePart(s);
    DecodeOfEncodeAll(s.sent, part);
    var all := s.sent + Decode(part).frames;
    assert Numbered(all, 1);
    DecodePrefix(delivered, s.wire);
    var fs := Decode(delivered).frames;
    assert Numbered(fs, 1);
    NextOfSequence(1);
    TakesNumbered(1, fs, []);
    assert fs + [] == fs;
  }

  /** Whoever finds the lock free gets its frame out, with the next number. */
  lemma WriteCompletes(s: State, w: nat, kind: byte, payload: seq<byte>) returns (s1: State, s2: State, s3: State)
    requires s.holder == Free && !s.broken && ValidFrame(Frame(kind, 0, s.sequence, payload))
    ensures Enabled(s, Take(w, kind, payload)) && s1 == Step(s, Take(w, kind, payload))
    ensures Enabled(s1, Emit(16 + |payload|)) && s2 == Step(s1, Emit(16 + |payload|))
    ensures Enabled(s2, Finish) && s3 == Step(s2, Finish)
    ensures var f := Frame(kind, 0, s.sequence, payload);
            && s3.sent == s.sent + [f] && s3.wire == s.wire + Encode(f)
            && s3.holder == Free && !s3.broken && s3.sequence == NextSequence(s.sequence)
  {
    var f := Frame(kind, 0, s.sequence, payload);
    s1 := Step(s, Take(w, kind, payload));
    hide Encode;
    s2 := Step(s1, Emit(16 + |payload|));
    assert Encode(f)[0..16 + |payload|] == Encode(f);
    s3 := Step(s2, Finish);
  }

  /** The number after the last is 1, and 0 is never used. */
  lemma NextSequenceRules(s: uint32)
    ensures NextSequence(s) == if s == 4294967295 then 1 else s + 1
    ensures NextSequence(s) != 0
  {
  }

  /** What has reached the wire of the frame being written. */
  lemma WirePart(s: State) returns (part: seq<byte>)
    requires Inv(s)
    ensures s.wire == EncodeAll(s.sent) + part
    ensures Decode(part).error.None? && |Decode(part).frames| <= 1
    ensures forall j :: 0 <= j < |Decode(part).frames| ==> Decode(part).frames[j].sequence == SequenceOf(|s.sent| + 1 + j)
  {
    hide Encode, FrontOf, SequenceOf;
    match s.holder
    case Free =>
      part := [];
      ShortIsNotDecoded([]);
      assert s.wire + [] == s.wire;
    case Writing(_, f, k) =>
      part := Encode(f)[..k];
      PartOfFrame(f, k);
  }

  // ----- The writer objects -----

  /** `frameWriter` of the daemon. */
  class FrameWriter {
    const conn: Sink
    var sequence: uint32

    constructor (conn: Sink, first: uint32)
      ensures this.conn == conn && sequence == first
    {
      this.conn := conn;
      sequence := first;
    }

    /** The number is used up even if the write fails. */
    method Write(kind: byte, payload: seq<byte>) returns (error: Option<WriteError>)
      modifies this`sequence, conn
      ensures sequence == NextSequence(old(sequence))
      ensures var f := Frame(kind, 0, old(sequence), payload);
              && (ValidateFrame(f).Some? <==> error.Some? && error.value.Invalid?)
              && (error == None ==> conn.accepted == old(conn.accepted) + Encode(f))
              && conn.faulty == (old(conn.faulty) || error == Some(Io))
              && old(conn.accepted) <= conn.accepted <= old(conn.accepted) + Encode(f)
    {
      var number := sequence;
      sequence := NextSequence(number);
      error := WriteFrame(conn, Frame(kind, 0, number, payload));
    }
  }

  /** The writing half of `PacketPump`. */
  class PacketWriter {
    const fd: Sink
    var outgoingSequence: uint32

    constructor (fd: Sink)
      ensures this.fd == fd && outgoingSequence == 2
    {
      this.fd := fd;
      outgoingSequence := 2;
    }

    /** The number is used up only by a frame that was written completely. */
    method SendFrame(kind: byte, payload: seq<byte>) returns (failed: bool)
      requires |payload| < TWO_32
      modifies this`outgoingSequence, fd
      ensures outgoingSequence == if failed then old(outgoingSequence) else NextSequence(old(outgoingSequence))
      ensures var f := Frame(kind, 0, old(outgoingSequence), payload);
              && (!failed ==> fd.accepted == old(fd.accepted) + Encode(f))
              && fd.faulty == (old(fd.faulty) || failed)
              && old(fd.accepted) <= fd.accepted <= old(fd.accepted) + Encode(f)
    {
      hide PutU16, PutU32;
      WireLengthIsExact(payload);
      var header := MakeHeader(kind, 0, |payload|, outgoingSequence);
      assert Encode(Frame(kind, 0, outgoingSequence, payload)) == header[..] + payload;
      ghost var before := fd.accepted;
      assert before + (header[..] + payload) == before + header[..] + payload;
      failed := WriteAll(fd, header[..]);
      if !failed && |payload| > 0 {
        failed := WriteAll(fd, payload);
      }
      if !failed {
        outgoingSequence := NextSequence(outgoingSequence);
      }
    }
  }
}
