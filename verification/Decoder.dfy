/**
 The incremental frame decoder of the device (`HnbProtocol.ets`) against the one-shot Go reader:
 whatever the chunks in which the bytes arrive, both see the same frames.
 */
module Decoder {
  import opened Wrappers
  import opened Bytes
  import opened Frames

  /** All complete frames at the front of a stream, what follows them, and the error met there. */
  datatype Decoded = Decoded(frames: seq<Frame>, rest: seq<byte>, error: Option<ProtocolError>)

  /** What stands at the front of a stream. */
  datatype Front = Short | Bad(error: ProtocolError) | Whole(frame: Frame, length: nat)

  function FrontOf(s: seq<byte>): (p: Front)
    ensures p.Whole? ==> 0 < p.length <= |s|
  {
    if |s| < HEADER_SIZE then Short
    else
      var f := FieldsAt(s);
      var e := CheckHeader(s);
      if e.Some? then Bad(e.value)
      else if |s| - HEADER_SIZE < f.length then Short
      else Whole(Frame(f.kind, f.flags, f.sequence, s[HEADER_SIZE..HEADER_SIZE + f.length]), HEADER_SIZE + f.length)
  }

  function Decode(s: seq<byte>): (d: Decoded)
    decreases |s|
  {
    match FrontOf(s)
    case Short => Decoded([], s, None)
    case Bad(e) => Decoded([], s, Some(e))
    case Whole(f, n) => Prepend([f], Decode(s[n..]))
  }

  function Prepend(fs: seq<Frame>, d: Decoded): Decoded {
    d.(frames := fs + d.frames)
  }

  lemma ShortIsNotDecoded(s: seq<byte>)
    requires |s| < HEADER_SIZE || FrontOf(s).Short?
    ensures Decode(s) == Decoded([], s, None)
  {
  }

  /** A front that is not short is decided for good. */
  lemma FrontExtend(s: seq<byte>, t: seq<byte>)
    requires !FrontOf(s).Short?
    ensures FrontOf(s + t) == FrontOf(s)
  {
    var u := s + t;
    assert u[..4] == s[..4];
    var n := HEADER_SIZE + FieldsAt(s).length;
    if CheckHeader(s).None? && n <= |s| {
      assert u[HEADER_SIZE..n] == s[HEADER_SIZE..n];
    }
  }

  /** One Go read looks at the same front. */
  lemma FrontIsRead(s: seq<byte>)
    ensures match FrontOf(s)
            case Whole(f, n) => ReadFrame(s) == Got(f, s[n..])
            case Bad(e) => ReadFrame(s) == Rejected(e)
            case Short => ReadFrame(s) == if s == [] || |s| == HEADER_SIZE then EndOfInput else UnexpectedEnd
  {
  }

  lemma FrontConserves(s: seq<byte>)
    requires FrontOf(s).Whole?
    ensures s == Encode(FrontOf(s).frame) + s[FrontOf(s).length..]
    ensures ValidFrame(FrontOf(s).frame)
  {
    FrontIsRead(s);
    EncodeOfReadFrame(s);
  }

  lemma FrontOfEncode(f: Frame, rest: seq<byte>)
    requires ValidFrame(f)
    ensures FrontOf(Encode(f) + rest) == Whole(f, |Encode(f)|)
    ensures (Encode(f) + rest)[|Encode(f)|..] == rest
  {
    hide Encode;
    WireLengthIsExact(f.payload);
    ReadFrameOfEncode(f, rest);
    FrontIsRead(Encode(f) + rest);
  }

  /** What a push returns or throws, and the bytes it leaves pending. */
  datatype Pushed = Pushed(frames: seq<Frame>, thrown: Option<ProtocolError>, pending: seq<byte>)

  /** A push that throws returns no frame and leaves every byte pending. */
  function AfterPush(pending: seq<byte>, chunk: seq<byte>): Pushed {
    var d := Decode(pending + chunk);
    if d.error.Some? then Pushed([], d.error, pending + chunk)
    else Pushed(d.frames, None, d.rest)
  }

  /** The frames returned by a whole sequence of pushes, in order. */
  function PushAll(pending: seq<byte>, chunks: seq<seq<byte>>): Pushed {
    if chunks == [] then Pushed([], None, pending)
    else
      var p := PushAll(pending, chunks[..|chunks| - 1]);
      var q := AfterPush(p.pending, chunks[|chunks| - 1]);
      Pushed(p.frames + q.frames, q.thrown, q.pending)
  }

  class HnbFrameDecoder {
    var pending: seq<byte>

    constructor ()
      ensures pending == []
    {
      pending := [];
    }

    method Push(chunk: seq<byte>) returns (r: Result<seq<Frame>, ProtocolError>)
      modifies this
      ensures var p := AfterPush(old(pending), chunk);
              && pending == p.pending
              && r == if p.thrown.Some? then Err(p.thrown.value) else Ok(p.frames)
    {
      hide FrontOf;
      pending := pending + chunk;
      ghost var all := pending;
      var frames: seq<Frame> := [];
      var offset := 0;
      while |pending| - offset >= HEADER_SIZE
        invariant 0 <= offset <= |pending| && pending == all
        invariant Decode(all) == Prepend(frames, Decode(all[offset..]))
        decreases |pending| - offset
      {
        var front := Examine(pending[offset..]);
        if front.Bad? {
          return Err(front.error);
        }
        if front.Short? {
          break;
        }
        assert all[offset..][front.length..] == all[offset + front.length..];
        frames := frames + [front.frame];
        offset := offset + front.length;
      }
      assert Decode(all) == Decoded(frames, all[offset..], None) by {
        ShortIsNotDecoded(all[offset..]);
      }
      if offset > 0 {
        pending := pending[offset..];
      }
      r := Ok(frames);
    }

    /** The checks of one header, and the payload if it has all arrived. */
    method Examine(s: seq<byte>) returns (front: Front)
      requires |s| >= HEADER_SIZE
      ensures front == FrontOf(s)
    {
      if s[..4] != [0x48, 0x4E, 0x42, 0x31] {
        return Bad(InvalidMagic);
      }
      if s[4] != VERSION {
        return Bad(VersionUnsupported);
      }
      var f := FieldsAt(s);
      var invalid := ValidateHeader(f.kind, f.flags, f.sequence, f.length);
      if invalid.Some? {
        return Bad(invalid.value);
      }
      var frameLength := HEADER_SIZE + f.length;
      if |s| < frameLength {
        return Short;
      }
      front := Whole(Frame(f.kind, f.flags, f.sequence, s[HEADER_SIZE..frameLength]), frameLength);
    }

    method Reset()
      modifies this
      ensures pending == []
    {
      pending := [];
    }
  }

  /** Bytes that arrive later never change a frame already decoded. */
  lemma {:induction false} DecodeExtend(s: seq<byte>, t: seq<byte>)
    ensures var d := Decode(s);
            if d.error.Some? then Decode(s + t).error == d.error && Decode(s + t).frames == d.frames
            else Decode(s + t) == Prepend(d.frames, Decode(d.rest + t))
    decreases |s|
  {
    hide FrontOf;
    if !FrontOf(s).Short? {
      FrontExtend(s, t);
    }
    if FrontOf(s).Whole? {
      var n := FrontOf(s).length;
      assert (s + t)[n..] == s[n..] + t;
      DecodeExtend(s[n..], t);
    }
  }

  /** What the decoder has not returned is exactly what it still holds. */
  lemma {:induction false} DecodeConserves(s: seq<byte>)
    ensures s == EncodeAll(Decode(s).frames) + Decode(s).rest
    ensures forall i :: 0 <= i < |Decode(s).frames| ==> ValidFrame(Decode(s).frames[i])
    decreases |s|
  {
    hide FrontOf, Encode;
    if FrontOf(s).Whole? {
      var n := FrontOf(s).length;
      FrontConserves(s);
      DecodeConserves(s[n..]);
      assert Decode(s).frames[1..] == Decode(s[n..]).frames;
    }
  }

  function EncodeAll(fs: seq<Frame>): seq<byte> {
    if fs == [] then [] else Encode(fs[0]) + EncodeAll(fs[1..])
  }

  lemma {:induction false} EncodeAllSnoc(fs: seq<Frame>, f: Frame)
    ensures EncodeAll(fs + [f]) == EncodeAll(fs) + Encode(f)
  {
    hide Encode;
    if fs == [] {
      assert fs + [f] == [f] && EncodeAll([f]) == Encode(f) + [];
    } else {
      assert (fs + [f])[1..] == fs[1..] + [f];
      EncodeAllSnoc(fs[1..], f);
    }
  }

  lemma DecodeOfEncode(f: Frame, rest: seq<byte>)
    requires ValidFrame(f)
    ensures Decode(Encode(f) + rest) == Prepend([f], Decode(rest))
  {
    hide FrontOf, Encode;
    FrontOfEncode(f, rest);
  }

  lemma {:induction false} DecodeOfEncodeAll(fs: seq<Frame>, rest: seq<byte>)
    requires forall i :: 0 <= i < |fs| ==> ValidFrame(fs[i])
    ensures Decode(EncodeAll(fs) + rest) == Prepend(fs, Decode(rest))
  {
    hide FrontOf, Encode;
    if fs == [] {
      assert EncodeAll(fs) + rest == rest;
    } else {
      assert EncodeAll(fs) + rest == Encode(fs[0]) + (EncodeAll(fs[1..]) + rest);
      DecodeOfEncode(fs[0], EncodeAll(fs[1..]) + rest);
      DecodeOfEncodeAll(fs[1..], rest);
    }
  }

  /**
   Chunking does not matter. While no header is bad, the pushes have returned exactly the frames of
   the concatenated stream and hold exactly its tail. After a bad header has arrived, the last push
   threw that header's error, every byte since the last good push is pending, and the frames
   returned are those complete before the chunk that brought the header (`ReturnedBeforeBad`).
   */
  lemma {:induction false} PushAllIsDecode(chunks: seq<seq<byte>>)
    ensures PushAll([], chunks).frames <= Decode(Flatten(chunks)).frames
    ensures Flatten(chunks) == EncodeAll(PushAll([], chunks).frames) + PushAll([], chunks).pending
    ensures PushAll([], chunks).thrown == Decode(Flatten(chunks)).error
    ensures Decode(Flatten(chunks)).error.None? ==>
              && PushAll([], chunks).frames == Decode(Flatten(chunks)).frames
              && PushAll([], chunks).pending == Decode(Flatten(chunks)).rest
  {
    hide PutU16, PutU32, FrontOf;
    ShortIsNotDecoded([]);
    if chunks != [] {
      var init, last := chunks[..|chunks| - 1], chunks[|chunks| - 1];
      assert chunks == init + [last];
      FlattenSnoc(init, last);
      PushAllIsDecode(init);
      PushedFramesAreValid(init);
      var p := PushAll([], init);
      assert Flatten(chunks) == EncodeAll(p.frames) + (p.pending + last);
      PushAfter(p, last);
    }
  }

  /** One push after pushes that returned `p.frames` and left `p.pending`. */
  lemma PushAfter(p: Pushed, last: seq<byte>)
    requires forall i :: 0 <= i < |p.frames| ==> ValidFrame(p.frames[i])
    ensures var d := Decode(EncodeAll(p.frames) + (p.pending + last));
            var q := AfterPush(p.pending, last);
            && p.frames + q.frames <= d.frames
            && EncodeAll(p.frames) + (p.pending + last) == EncodeAll(p.frames + q.frames) + q.pending
            && q.thrown == d.error
            && (d.error.None? ==> p.frames + q.frames == d.frames && q.pending == d.rest)
  {
    hide Decode, Encode;
    var q := AfterPush(p.pending, last);
    DecodeOfEncodeAll(p.frames, p.pending + last);
    PushConserves(p.pending, last);
    EncodeAllAppend(p.frames, q.frames);
    assert EncodeAll(p.frames) + (p.pending + last) == EncodeAll(p.frames + q.frames) + q.pending;
  }

  lemma PushConserves(pending: seq<byte>, chunk: seq<byte>)
    ensures var q := AfterPush(pending, chunk);
            && pending + chunk == EncodeAll(q.frames) + q.pending
            && forall i :: 0 <= i < |q.frames| ==> ValidFrame(q.frames[i])
  {
    DecodeConserves(pending + chunk);
  }

  lemma {:induction false} PushedFramesAreValid(chunks: seq<seq<byte>>)
    ensures var p := PushAll([], chunks);
            forall i :: 0 <= i < |p.frames| ==> ValidFrame(p.frames[i])
  {
    if chunks != [] {
      var init := chunks[..|chunks| - 1];
      PushedFramesAreValid(init);
      PushConserves(PushAll([], init).pending, chunks[|chunks| - 1]);
      assert PushAll([], chunks).frames
             == PushAll([], init).frames + AfterPush(PushAll([], init).pending, chunks[|chunks| - 1]).frames;
    }
  }

  lemma {:induction false} EncodeAllAppend(a: seq<Frame>, b: seq<Frame>)
    ensures EncodeAll(a + b) == EncodeAll(a) + EncodeAll(b)
  {
    hide Encode;
    if a == [] {
      assert a + b == b;
    } else {
      assert (a + b)[1..] == a[1..] + b;
      EncodeAllAppend(a[1..], b);
    }
  }

  /** Every chunking of the encodings of valid frames yields exactly those frames and nothing more. */
  lemma EveryChunkingYieldsTheFrames(fs: seq<Frame>, chunks: seq<seq<byte>>)
    requires forall i :: 0 <= i < |fs| ==> ValidFrame(fs[i])
    requires Flatten(chunks) == EncodeAll(fs)
    ensures PushAll([], chunks) == Pushed(fs, None, [])
  {
    DecodeOfEncodeAll(fs, []);
    assert EncodeAll(fs) + [] == EncodeAll(fs) && fs + [] == fs;
    PushAllIsDecode(chunks);
  }

  /** Chunk `k` brings the first bad header. */
  ghost predicate TurnsBad(chunks: seq<seq<byte>>, k: nat) {
    && k < |chunks|
    && Decode(Flatten(chunks[..k])).error.None?
    && Decode(Flatten(chunks[..k + 1])).error.Some?
  }

  /** Every stream that has a bad header has such a chunk. */
  lemma {:induction false} SomeChunkTurnsBad(chunks: seq<seq<byte>>) returns (k: nat)
    requires Decode(Flatten(chunks)).error.Some?
    ensures TurnsBad(chunks, k)
    decreases |chunks|
  {
    hide FrontOf;
    ShortIsNotDecoded([]);
    var init := chunks[..|chunks| - 1];
    assert chunks[..|chunks|] == chunks;
    if Decode(Flatten(init)).error.None? {
      k := |init|;
    } else {
      k := SomeChunkTurnsBad(init);
      assert init[..k] == chunks[..k] && init[..k + 1] == chunks[..k + 1];
    }
  }

  lemma DecodeAfterBad(chunks: seq<seq<byte>>, n: nat)
    requires n <= |chunks| && Decode(Flatten(chunks[..n])).error.Some?
    ensures Decode(Flatten(chunks)).error == Decode(Flatten(chunks[..n])).error
    ensures Decode(Flatten(chunks)).frames == Decode(Flatten(chunks[..n])).frames
  {
    hide Decode;
    assert chunks == chunks[..n] + chunks[n..];
    FlattenAppend(chunks[..n], chunks[n..]);
    DecodeExtend(Flatten(chunks[..n]), Flatten(chunks[n..]));
  }

  /** What was returned is exactly the frames complete before the chunk that brings the bad header. */
  lemma {:induction false} ReturnedBeforeBad(chunks: seq<seq<byte>>, k: nat)
    requires TurnsBad(chunks, k)
    ensures PushAll([], chunks).frames == Decode(Flatten(chunks[..k])).frames
    decreases |chunks|
  {
    hide Decode;
    var init := chunks[..|chunks| - 1];
    DecodeAfterBad(chunks, k + 1);
    PushAllIsDecode(chunks);
    assert AfterPush(PushAll([], init).pending, chunks[|chunks| - 1]).frames == [];
    if k == |init| {
      PushAllIsDecode(init);
    } else {
      assert init[..k] == chunks[..k] && init[..k + 1] == chunks[..k + 1];
      ReturnedBeforeBad(init, k);
    }
  }

  /**
   The pushes return every frame of the stream if and only if no frame is completed by the chunk
   that brings the first bad header.
   */
  lemma NothingIsLostIff(chunks: seq<seq<byte>>, k: nat)
    requires TurnsBad(chunks, k)
    ensures PushAll([], chunks).frames == Decode(Flatten(chunks)).frames <==>
              Decode(Flatten(chunks[..k])).frames == Decode(Flatten(chunks[..k + 1])).frames
  {
    ReturnedBeforeBad(chunks, k);
    DecodeAfterBad(chunks, k + 1);
  }

  /** A frame and a bad header in one chunk: the frame is lost, and in two chunks it is not. */
  lemma FrameBeforeBadHeaderIsLost(f: Frame, bad: seq<byte>)
    requires ValidFrame(f) && FrontOf(bad).Bad?
    ensures Decode(Flatten([Encode(f) + bad])).frames == [f] == Decode(Flatten([Encode(f), bad])).frames
    ensures PushAll([], [Encode(f) + bad]).frames == []
    ensures PushAll([], [Encode(f), bad]).frames == [f]
  {
    hide Encode, FrontOf;
    var one, two := [Encode(f) + bad], [Encode(f), bad];
    ShortIsNotDecoded([]);
    DecodeOfEncode(f, bad);
    DecodeOfEncode(f, []);
    assert Encode(f) + [] == Encode(f) && [f] + [] == [f];
    assert Flatten(one) == Encode(f) + bad + [] == Encode(f) + bad;
    assert two[1..] == [bad] && Flatten([bad]) == bad + [] && Flatten(two) == Encode(f) + bad;
    assert one[..0] == [] && one[..1] == one && two[..1] == [Encode(f)] && two[..2] == two;
    assert Flatten(two[..1]) == Encode(f) + [];
    ReturnedBeforeBad(one, 0);
    ReturnedBeforeBad(two, 1);
  }

  /** Any PING and sixteen zero bytes, pushed as one chunk. */
  lemma SomeFrameIsLost(payload: seq<byte>)
    requires |payload| == 8
    ensures Decode(Flatten([PING_HEADER + payload + seq(16, _ => 0)])).frames == [Frame(0x30, 0, 2, payload)]
    ensures PushAll([], [PING_HEADER + payload + seq(16, _ => 0)]).frames == []
  {
    hide Encode, Decode;
    var zeros: seq<byte> := seq(16, _ => 0);
    assert zeros[..4][0] == 0;
    PingOnTheWire(payload, []);
    FrameBeforeBadHeaderIsLost(Frame(0x30, 0, 2, payload), zeros);
  }

  /** Once a push has thrown, every later push throws the same error until the decoder is reset. */
  lemma ThrowingIsPermanent(pending: seq<byte>, chunk: seq<byte>, next: seq<byte>)
    requires AfterPush(pending, chunk).thrown.Some?
    ensures AfterPush(AfterPush(pending, chunk).pending, next).thrown == AfterPush(pending, chunk).thrown
  {
    DecodeExtend(pending + chunk, next);
  }

  /** The frames that repeated Go reads return, and how the last read ended. */
  function ReadAll(s: seq<byte>): (seq<Frame>, ReadResult)
    decreases |s|
  {
    match ReadFrame(s)
    case Got(f, rest) =>
      assert |rest| < |s|;
      var (fs, end) := ReadAll(rest);
      ([f] + fs, end)
    case end => ([], end)
  }

  /** Both implementations accept the same frames and reject the same header for the same reason. */
  lemma {:induction false} GoReadsTheSame(s: seq<byte>)
    ensures ReadAll(s).0 == Decode(s).frames
    ensures ReadAll(s).1.Rejected? <==> Decode(s).error.Some?
    ensures ReadAll(s).1.Rejected? ==> Decode(s).error == Some(ReadAll(s).1.error)
    ensures ReadAll(s).1.EndOfInput? <==>
              Decode(s).error.None? && (Decode(s).rest == [] || |Decode(s).rest| == HEADER_SIZE)
    decreases |s|
  {
    hide FrontOf;
    FrontIsRead(s);
    if ReadFrame(s).Got? {
      GoReadsTheSame(ReadFrame(s).rest);
    }
  }

  /** `encodeFrame` of the device: refuses what HNB/1 forbids, with the true length. */
  method EncodeFrame(kind: byte, sequence: uint32, payload: seq<byte>) returns (r: Result<seq<byte>, ProtocolError>)
    ensures r.Ok? <==> ValidFrame(Frame(kind, 0, sequence, payload))
    ensures r.Ok? ==> r.value == Encode(Frame(kind, 0, sequence, payload))
    ensures r.Ok? ==> Decode(r.value) == Decoded([Frame(kind, 0, sequence, payload)], [], None)
  {
    hide PutU16, PutU32, FrontOf;
    if !KnownType(kind) {
      return Err(UnknownFrameType);
    }
    if sequence == 0 {
      return Err(InvalidSequence);
    }
    if |payload| > PayloadLimit(kind) {
      return Err(PayloadTooLarge);
    }
    var bytes := Fill(kind, sequence, payload);
    DecodeOfEncode(Frame(kind, 0, sequence, payload), []);
    assert bytes + [] == bytes;
    ShortIsNotDecoded([]);
    r := Ok(bytes);
  }

  method Fill(kind: byte, sequence: uint32, payload: seq<byte>) returns (bytes: seq<byte>)
    requires |payload| < TWO_32
    ensures bytes == Encode(Frame(kind, 0, sequence, payload))
  {
    hide PutU16, PutU32;
    var result := new byte[HEADER_SIZE + |payload|];
    var header := MakeHeader(kind, 0, |payload|, sequence);
    ghost var h := header[..];
    for i := 0 to HEADER_SIZE
      invariant header[..] == h
      invariant forall j :: 0 <= j < i ==> result[j] == h[j]
    {
      result[i] := header[i];
    }
    for i := 0 to |payload|
      invariant forall j :: 0 <= j < HEADER_SIZE ==> result[j] == h[j]
      invariant forall j :: 0 <= j < i ==> result[HEADER_SIZE + j] == payload[j]
    {
      result[HEADER_SIZE + i] := payload[i];
    }
    WireLengthIsExact(payload);
    bytes := result[..];
    assert bytes == h + payload;
  }
}
