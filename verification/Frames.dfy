/**
 HNB/1 frames: the header checks that the Go and ArkTS sides share, the encoding, and the one-shot
 Go reader and writer (`internal/protocol/protocol.go`).
 */
module Frames {
  import opened Wrappers
  import opened Bytes

  const HEADER_SIZE := 16
  const VERSION: byte := 1
  const MAX_CONTROL_PAYLOAD := 16 * 1024
  const MAX_PACKET_PAYLOAD := 65535
  const IP_PACKET: byte := 0x20

  datatype Frame = Frame(kind: byte, flags: uint16, sequence: uint32, payload: seq<byte>)

  datatype ProtocolError =
    | InvalidMagic
    | VersionUnsupported
    | UnknownFrameType
    | InvalidFlags
    | InvalidSequence
    | PayloadTooLarge

  predicate KnownType(kind: byte) {
    || 0x01 <= kind <= 0x05
    || 0x10 <= kind <= 0x12
    || kind == 0x20
    || 0x30 <= kind <= 0x31
  }

  function PayloadLimit(kind: byte): nat {
    if kind == IP_PACKET then MAX_PACKET_PAYLOAD else MAX_CONTROL_PAYLOAD
  }

  /** `validateHeader`, in the order in which it reports. */
  function ValidateHeader(kind: byte, flags: uint16, sequence: uint32, length: uint32): Option<ProtocolError> {
    if !KnownType(kind) then Some(UnknownFrameType)
    else if flags != 0 then Some(InvalidFlags)
    else if sequence == 0 then Some(InvalidSequence)
    else if length > PayloadLimit(kind) then Some(PayloadTooLarge)
    else None
  }

  /** The length that the header can carry: Go converts `len(payload)` to a `uint32`. */
  function WireLength(payload: seq<byte>): uint32 {
    Low32(|payload|)
  }

  lemma WireLengthIsExact(payload: seq<byte>)
    ensures WireLength(payload) <= |payload|
    ensures WireLength(payload) == |payload| <==> |payload| < TWO_32
    ensures WireLength(payload) == |payload| % TWO_32
  {
    Low32IsRemainder(|payload|);
  }

  /** `validateFrame` of the Go side, which sees only the converted length. */
  function ValidateFrame(f: Frame): Option<ProtocolError> {
    ValidateHeader(f.kind, f.flags, f.sequence, WireLength(f.payload))
  }

  /** A frame that obeys HNB/1. */
  predicate ValidFrame(f: Frame) {
    && KnownType(f.kind) && f.flags == 0 && f.sequence != 0
    && |f.payload| <= PayloadLimit(f.kind)
  }

  function Header(kind: byte, flags: uint16, length: uint32, sequence: uint32): (h: seq<byte>)
    ensures |h| == HEADER_SIZE
  {
    Join(kind, PutU16(flags), PutU32(length), PutU32(sequence))
  }

  /** Magic, version and type, then the three encoded integers. */
  function Join(kind: byte, x: seq<byte>, y: seq<byte>, z: seq<byte>): (h: seq<byte>)
    requires |x| == 2 && |y| == 4 && |z| == 4
    ensures |h| == HEADER_SIZE
  {
    [0x48, 0x4E, 0x42, 0x31, VERSION, kind] + x + y + z
  }

  function Encode(f: Frame): (s: seq<byte>)
    ensures |s| == HEADER_SIZE + |f.payload|
  {
    Header(f.kind, f.flags, WireLength(f.payload), f.sequence) + f.payload
  }

  /** The fields of a header, once the magic and the version have been recognised. */
  datatype Fields = Fields(kind: byte, flags: uint16, length: uint32, sequence: uint32)

  function FieldsAt(s: seq<byte>): Fields
    requires |s| >= HEADER_SIZE
  {
    Fields(s[5], U16(s[6], s[7]), U32(s[8], s[9], s[10], s[11]), U32(s[12], s[13], s[14], s[15]))
  }

  /** Everything that both sides check in a header before they wait for the payload. */
  function CheckHeader(s: seq<byte>): Option<ProtocolError>
    requires |s| >= HEADER_SIZE
  {
    var f := FieldsAt(s);
    if s[..4] != [0x48, 0x4E, 0x42, 0x31] then Some(InvalidMagic)
    else if s[4] != VERSION then Some(VersionUnsupported)
    else ValidateHeader(f.kind, f.flags, f.sequence, f.length)
  }

  /** How `ReadFrame` ends: a frame, end of input (clean or inside a frame), or a protocol error. */
  datatype ReadResult =
    | Got(frame: Frame, rest: seq<byte>)
    | EndOfInput
    | UnexpectedEnd
    | Rejected(error: ProtocolError)

  /** `ReadFrame` on a reader that will deliver exactly `s`. */
  function ReadFrame(s: seq<byte>): ReadResult {
    if s == [] then EndOfInput
    else if |s| < HEADER_SIZE then UnexpectedEnd
    else
      var f := FieldsAt(s);
      match CheckHeader(s)
      case Some(e) => Rejected(e)
      case None =>
        if |s| == HEADER_SIZE && f.length > 0 then EndOfInput
        else if |s| - HEADER_SIZE < f.length then UnexpectedEnd
        else Got(Frame(f.kind, f.flags, f.sequence, s[HEADER_SIZE..HEADER_SIZE + f.length]),
                 s[HEADER_SIZE + f.length..])
  }

  lemma JoinFields(kind: byte, x: seq<byte>, y: seq<byte>, z: seq<byte>, rest: seq<byte>)
    requires |x| == 2 && |y| == 4 && |z| == 4
    ensures var s := Join(kind, x, y, z) + rest;
            && FieldsAt(s) == Fields(kind, U16(x[0], x[1]), U32(y[0], y[1], y[2], y[3]), U32(z[0], z[1], z[2], z[3]))
            && s[..4] == [0x48, 0x4E, 0x42, 0x31] && s[4] == VERSION
            && s[HEADER_SIZE..] == rest
  {
  }

  lemma JoinOfFields(s: seq<byte>)
    requires |s| >= HEADER_SIZE && s[..4] == [0x48, 0x4E, 0x42, 0x31] && s[4] == VERSION
    ensures s[..HEADER_SIZE] == Join(s[5], [s[6], s[7]], [s[8], s[9], s[10], s[11]], [s[12], s[13], s[14], s[15]])
  {
    assert s[..4][0] == s[0] && s[..4][1] == s[1] && s[..4][2] == s[2] && s[..4][3] == s[3];
  }

  /** Reading a header and as many bytes as it announces. */
  lemma ReadFrameOfHeader(kind: byte, flags: uint16, length: uint32, sequence: uint32, body: seq<byte>)
    requires ValidateHeader(kind, flags, sequence, length).None? && length <= |body|
    ensures ReadFrame(Header(kind, flags, length, sequence) + body)
            == Got(Frame(kind, flags, sequence, body[..length]), body[length..])
  {
    var s := Header(kind, flags, length, sequence) + body;
    JoinFields(kind, PutU16(flags), PutU32(length), PutU32(sequence), body);
    assert s[HEADER_SIZE..HEADER_SIZE + length] == s[HEADER_SIZE..][..length];
    assert s[HEADER_SIZE + length..] == s[HEADER_SIZE..][length..];
  }

  /**
   A frame that `WriteFrame` accepts is read back, whatever follows it, exactly when its payload is
   shorter than 2^32 bytes: a longer one passes the checks with its length reduced modulo 2^32.
   */
  lemma ReadFrameOfEncode(f: Frame, rest: seq<byte>)
    requires ValidateFrame(f).None?
    ensures ReadFrame(Encode(f) + rest) == Got(f, rest) <==> |f.payload| < TWO_32
  {
    var n := WireLength(f.payload);
    WireLengthIsExact(f.payload);
    var body := f.payload + rest;
    assert Encode(f) + rest == Header(f.kind, f.flags, n, f.sequence) + body;
    ReadFrameOfHeader(f.kind, f.flags, n, f.sequence, body);
    if |f.payload| < TWO_32 {
      assert body[..n] == f.payload && body[n..] == rest;
    } else {
      assert |body[..n]| < |f.payload|;
    }
  }

  /** The smallest payload that `WriteFrame` accepts and no reader returns. */
  lemma OversizeFrameIsLost()
    ensures var f := Frame(0x01, 0, 1, seq(TWO_32, _ => 0));
            ValidateFrame(f).None? && ReadFrame(Encode(f)) != Got(f, [])
  {
    hide Encode, ReadFrame;
    var f := Frame(0x01, 0, 1, seq(TWO_32, _ => 0));
    ReadFrameOfEncode(f, []);
    assert Encode(f) + [] == Encode(f);
  }

  lemma HeaderOfFields(s: seq<byte>)
    requires |s| >= HEADER_SIZE && CheckHeader(s).None?
    ensures var f := FieldsAt(s);
            s[..HEADER_SIZE] == Header(f.kind, f.flags, f.length, f.sequence)
  {
    JoinOfFields(s);
    PutU16OfU16(s[6], s[7]);
    PutU32OfU32(s[8], s[9], s[10], s[11]);
    PutU32OfU32(s[12], s[13], s[14], s[15]);
  }

  /** What the checks on a header say of the frame it announces. */
  lemma CheckedIsValid(s: seq<byte>)
    requires |s| >= HEADER_SIZE && CheckHeader(s).None?
    ensures var f := FieldsAt(s);
            KnownType(f.kind) && f.flags == 0 && f.sequence != 0 && f.length <= PayloadLimit(f.kind)
  {
    hide FieldsAt;
  }

  /** Bytes that are accepted are exactly the encoding of the frame returned, and it obeys HNB/1. */
  lemma EncodeOfReadFrame(s: seq<byte>)
    requires ReadFrame(s).Got?
    ensures s == Encode(ReadFrame(s).frame) + ReadFrame(s).rest
    ensures ValidFrame(ReadFrame(s).frame)
  {
    hide Header, FieldsAt, CheckHeader, KnownType, PayloadLimit;
    HeaderOfFields(s);
    CheckedIsValid(s);
    var f := FieldsAt(s);
    WireLengthIsExact(ReadFrame(s).frame.payload);
    assert s == s[..HEADER_SIZE] + s[HEADER_SIZE..HEADER_SIZE + f.length] + s[HEADER_SIZE + f.length..];
  }

  // ----- The wire, byte by byte -----

  /** Where each part of a frame stands in its encoding. */
  lemma WireLayout(f: Frame)
    requires |f.payload| < TWO_32
    ensures |Encode(f)| == 16 + |f.payload| && Encode(f)[16..] == f.payload
    ensures Encode(f)[..6] == [0x48, 0x4E, 0x42, 0x31, 0x01, f.kind]
    ensures var s := Encode(f); Weighted(0, 0, s[6], s[7]) == f.flags
    ensures var s := Encode(f); Weighted(s[8], s[9], s[10], s[11]) == |f.payload|
    ensures var s := Encode(f); Weighted(s[12], s[13], s[14], s[15]) == f.sequence
  {
    var x, y, z := PutU16(f.flags), PutU32(|f.payload|), PutU32(f.sequence);
    hide PutU16, PutU32, U16, U32;
    WireLengthIsExact(f.payload);
    var s := Encode(f);
    assert s == Join(f.kind, x, y, z) + f.payload;
    assert s[6] == x[0] && s[7] == x[1];
    assert s[8] == y[0] && s[9] == y[1] && s[10] == y[2] && s[11] == y[3];
    assert s[12] == z[0] && s[13] == z[1] && s[14] == z[2] && s[15] == z[3];
    U16IsBigEndian(x[0], x[1]);
    U32IsBigEndian(y[0], y[1], y[2], y[3]);
    U32IsBigEndian(z[0], z[1], z[2], z[3]);
  }

  lemma FieldsLayout(s: seq<byte>)
    requires |s| >= 16
    ensures FieldsAt(s).kind == s[5] && FieldsAt(s).flags == Weighted(0, 0, s[6], s[7])
    ensures FieldsAt(s).length == Weighted(s[8], s[9], s[10], s[11])
    ensures FieldsAt(s).sequence == Weighted(s[12], s[13], s[14], s[15])
  {
    hide U16, U32;
    U16IsBigEndian(s[6], s[7]);
    U32IsBigEndian(s[8], s[9], s[10], s[11]);
    U32IsBigEndian(s[12], s[13], s[14], s[15]);
  }

  /** What is reported of a header that does not pass: the first thing wrong with it. */
  lemma HeaderErrors(s: seq<byte>)
    requires |s| >= 16
    ensures CheckHeader(s) ==
            if s[..4] != [0x48, 0x4E, 0x42, 0x31] then Some(InvalidMagic)
            else if s[4] != 0x01 then Some(VersionUnsupported)
            else if s[5] !in {0x01, 0x02, 0x03, 0x04, 0x05, 0x10, 0x11, 0x12, 0x20, 0x30, 0x31} then Some(UnknownFrameType)
            else if Weighted(0, 0, s[6], s[7]) != 0 then Some(InvalidFlags)
            else if Weighted(s[12], s[13], s[14], s[15]) == 0 then Some(InvalidSequence)
            else if Weighted(s[8], s[9], s[10], s[11]) > (if s[5] == 0x20 then 65535 else 16384) then Some(PayloadTooLarge)
            else None
  {
    FieldsLayout(s);
    hide FieldsAt, Weighted;
  }

  /** A PING with number 2, as it stands on the wire. */
  const PING_HEADER: seq<byte> :=
    [0x48, 0x4E, 0x42, 0x31, 0x01, 0x30, 0x00, 0x00, 0x00, 0x00, 0x00, 0x08, 0x00, 0x00, 0x00, 0x02]

  lemma PingOnTheWire(payload: seq<byte>, rest: seq<byte>)
    requires |payload| == 8
    ensures ReadFrame(PING_HEADER + payload + rest) == Got(Frame(0x30, 0, 2, payload), rest)
    ensures Encode(Frame(0x30, 0, 2, payload)) == PING_HEADER + payload
  {
    hide Encode, ReadFrame, CheckHeader, FieldsAt;
    var s := PING_HEADER + payload + rest;
    PingBytes(payload, rest);
    PingFields(s);
    PingPasses(s);
    ReadsPing(s);
    EncodeOfReadFrame(s);
    assert Encode(Frame(0x30, 0, 2, payload)) == s[..24];
  }

  lemma PingBytes(payload: seq<byte>, rest: seq<byte>)
    requires |payload| == 8
    ensures var s := PING_HEADER + payload + rest;
            && |s| >= 24 && s[..5] == [0x48, 0x4E, 0x42, 0x31, 0x01] && s[5] == 0x30
            && s[6] == 0 && s[7] == 0 && s[8] == 0 && s[9] == 0 && s[10] == 0 && s[11] == 8
            && s[12] == 0 && s[13] == 0 && s[14] == 0 && s[15] == 2
            && s[..24] == PING_HEADER + payload && s[16..24] == payload && s[24..] == rest
  {
  }

  lemma PingFields(s: seq<byte>)
    requires |s| >= 24 && s[5] == 0x30 && s[6] == 0 && s[7] == 0
    requires s[8] == 0 && s[9] == 0 && s[10] == 0 && s[11] == 8
    requires s[12] == 0 && s[13] == 0 && s[14] == 0 && s[15] == 2
    ensures FieldsAt(s) == Fields(0x30, 0, 8, 2)
  {
    FieldsLayout(s);
    hide FieldsAt;
  }

  lemma PingPasses(s: seq<byte>)
    requires |s| >= 24 && s[..5] == [0x48, 0x4E, 0x42, 0x31, 0x01] && FieldsAt(s) == Fields(0x30, 0, 8, 2)
    ensures CheckHeader(s).None?
  {
    hide FieldsAt;
    assert s[..4] == s[..5][..4] && s[4] == s[..5][4];
  }

  lemma ReadsPing(s: seq<byte>)
    requires |s| >= 24 && CheckHeader(s).None? && FieldsAt(s) == Fields(0x30, 0, 8, 2)
    ensures ReadFrame(s) == Got(Frame(0x30, 0, 2, s[16..24]), s[24..])
  {
    hide CheckHeader, FieldsAt;
  }

  /** A reader over bytes that have arrived or will arrive. */
  class Source {
    const data: seq<byte>
    var position: nat

    ghost predicate Valid()
      reads this
    {
      position <= |data|
    }

    ghost function Remaining(): (s: seq<byte>)
      requires Valid()
      reads this
    {
      data[position..]
    }

    constructor (data: seq<byte>)
      ensures Valid() && Remaining() == data
    {
      this.data := data;
      position := 0;
    }

    /** `io.ReadFull`: fills the buffer, or reports how the input ended. */
    method ReadFull(buffer: array<byte>) returns (ended: Option<ReadResult>)
      requires Valid()
      modifies this, buffer
      ensures Valid()
      ensures old(|Remaining()|) >= buffer.Length ==>
                && ended == None && buffer[..] == old(Remaining())[..buffer.Length]
                && Remaining() == old(Remaining())[buffer.Length..]
      ensures old(|Remaining()|) < buffer.Length ==>
                ended == Some(if old(Remaining()) == [] then EndOfInput else UnexpectedEnd)
    {
      var available := |data| - position;
      if available < buffer.Length {
        position := |data|;
        return Some(if available == 0 then EndOfInput else UnexpectedEnd);
      }
      for i := 0 to buffer.Length
        invariant position == old(position)
        invariant forall j :: 0 <= j < i ==> buffer[j] == data[position + j]
      {
        buffer[i] := data[position + i];
      }
      position := position + buffer.Length;
      ended := None;
    }
  }

  /** `ReadFrame`: two reads with the header checks between them. */
  method ReadFrameFrom(reader: Source) returns (r: ReadResult)
    requires reader.Valid()
    modifies reader
    ensures reader.Valid()
    ensures r == ReadFrame(old(reader.Remaining()))
    ensures r.Got? ==> reader.Remaining() == r.rest
  {
    ghost var s := reader.Remaining();
    var header := new byte[HEADER_SIZE];
    var ended := reader.ReadFull(header);
    if ended.Some? {
      return ended.value;
    }
    var h := header[..];
    assert h == s[..HEADER_SIZE] && FieldsAt(h) == FieldsAt(s) && h[..4] == s[..4];
    if h[..4] != [0x48, 0x4E, 0x42, 0x31] {
      return Rejected(InvalidMagic);
    }
    if h[4] != VERSION {
      return Rejected(VersionUnsupported);
    }
    var f := FieldsAt(h);
    var invalid := ValidateHeader(f.kind, f.flags, f.sequence, f.length);
    if invalid.Some? {
      return Rejected(invalid.value);
    }
    var payload := new byte[f.length];
    assert reader.Remaining() == s[HEADER_SIZE..];
    ended := reader.ReadFull(payload);
    if ended.Some? {
      return ended.value;
    }
    assert payload[..] == s[HEADER_SIZE..HEADER_SIZE + f.length];
    r := Got(Frame(f.kind, f.flags, f.sequence, payload[..]), reader.data[reader.position..]);
  }

  datatype WriteError = Invalid(error: ProtocolError) | Io

  /** `writeAll`: on success everything was taken once and in order, otherwise a prefix was. */
  method WriteAll(writer: Sink, payload: seq<byte>) returns (error: bool)
    modifies writer
    ensures old(writer.accepted) <= writer.accepted <= old(writer.accepted) + payload
    ensures !error ==> writer.accepted == old(writer.accepted) + payload
    ensures writer.faulty == (old(writer.faulty) || error)
  {
    var rest := payload;
    ghost var taken := 0;
    while |rest| > 0
      invariant taken <= |payload| && rest == payload[taken..]
      invariant writer.accepted == old(writer.accepted) + payload[..taken]
      invariant writer.faulty == old(writer.faulty)
    {
      var written, failed := writer.Write(rest);
      assert payload[..taken] + rest[..written] == payload[..taken + written];
      taken := taken + written;
      if failed {
        return true;
      }
      if written == 0 {
        return true;
      }
      rest := rest[written..];
    }
    error := false;
  }

  /** `WriteFrame`: header buffer, then payload. An invalid frame reaches the wire not at all. */
  method WriteFrame(writer: Sink, f: Frame) returns (error: Option<WriteError>)
    modifies writer
    ensures ValidateFrame(f).Some? ==>
              error == Some(Invalid(ValidateFrame(f).value)) && writer.accepted == old(writer.accepted)
    ensures ValidateFrame(f).None? ==> error == None || error == Some(Io)
    ensures error == None ==> writer.accepted == old(writer.accepted) + Encode(f)
    ensures old(writer.accepted) <= writer.accepted <= old(writer.accepted) + Encode(f)
    ensures writer.faulty == (old(writer.faulty) || error == Some(Io))
  {
    var invalid := ValidateFrame(f);
    if invalid.Some? {
      return Some(Invalid(invalid.value));
    }
    var header := MakeHeader(f.kind, f.flags, WireLength(f.payload), f.sequence);
    ghost var before := writer.accepted;
    assert before + Encode(f) == before + header[..] + f.payload;
    var failed := WriteAll(writer, header[..]);
    if failed {
      return Some(Io);
    }
    failed := WriteAll(writer, f.payload);
    if failed {
      return Some(Io);
    }
    error := None;
  }

  /** The header buffer, filled field by field. */
  method MakeHeader(kind: byte, flags: uint16, length: uint32, sequence: uint32) returns (header: array<byte>)
    ensures fresh(header) && header[..] == Header(kind, flags, length, sequence)
  {
    header := new byte[HEADER_SIZE];
    header[0], header[1], header[2], header[3] := 0x48, 0x4E, 0x42, 0x31;
    header[4] := VERSION;
    header[5] := kind;
    assert header[..6] == [0x48, 0x4E, 0x42, 0x31, VERSION, kind];
    PutUint16(header, 6, flags);
    assert header[..8] == [0x48, 0x4E, 0x42, 0x31, VERSION, kind] + PutU16(flags);
    PutUint32(header, 8, length);
    assert header[..12] == [0x48, 0x4E, 0x42, 0x31, VERSION, kind] + PutU16(flags) + PutU32(length);
    PutUint32(header, 12, sequence);
  }

  lemma PutsTwo(n: uint16)
    ensures PutU16(n) == [n / 0x100, n % 0x100]
  {
    hide PutU16;
    U16IsBigEndian(n / 0x100, n % 0x100);
    PutU16OfU16(n / 0x100, n % 0x100);
  }

  lemma PutsFour(n: uint32)
    ensures PutU32(n) == PutU16(n / 0x1_0000) + PutU16(n % 0x1_0000)
  {
    hide PutU16, PutU32, U16, U32;
    var x, y := PutU16(n / 0x1_0000), PutU16(n % 0x1_0000);
    U16IsBigEndian(x[0], x[1]);
    U16IsBigEndian(y[0], y[1]);
    U32IsBigEndian(x[0], x[1], y[0], y[1]);
    PutU32OfU32(x[0], x[1], y[0], y[1]);
    assert x + y == [x[0], x[1], y[0], y[1]];
  }

  method PutUint16(buffer: array<byte>, offset: nat, n: uint16)
    requires offset + 2 <= buffer.Length
    modifies buffer
    ensures buffer[..] == old(buffer[..offset]) + PutU16(n) + old(buffer[offset + 2..])
  {
    PutsTwo(n);
    buffer[offset] := n / 0x100;
    buffer[offset + 1] := n % 0x100;
  }

  method PutUint32(buffer: array<byte>, offset: nat, n: uint32)
    requires offset + 4 <= buffer.Length
    modifies buffer
    ensures buffer[..] == old(buffer[..offset]) + PutU32(n) + old(buffer[offset + 4..])
  {
    hide PutU16, PutU32;
    PutsFour(n);
    PutUint16(buffer, offset, n / 0x1_0000);
    PutUint16(buffer, offset + 2, n % 0x1_0000);
  }
}
