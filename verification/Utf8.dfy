/**
 The hand-written UTF-8 of the device (`HnbProtocol.ets`): strings of UTF-16 code units to bytes and
 back, rejecting malformed input (section 3 of RFC 3629). Bits or-ed into a byte are written as a
 sum, bits masked out of it as a difference.
 */
module Utf8 {
  import opened Wrappers
  import opened Bytes

  type Text = seq<uint16>

  predicate IsHigh(u: int) { 0xD800 <= u <= 0xDBFF }

  predicate IsLow(u: int) { 0xDC00 <= u <= 0xDFFF }

  /** A Unicode scalar value: a code point that is not a surrogate. */
  predicate IsScalar(cp: int) {
    0 <= cp < 0xD800 || 0xE000 <= cp <= 0x10FFFF
  }

  /** `codePointAt`: a surrogate pair counts as one, a lone surrogate as U+FFFD. */
  function CodePointAt(text: Text, index: nat): (cp: int)
    requires index < |text|
    ensures IsScalar(cp)
    ensures cp > 0xFFFF ==> index + 1 < |text|
  {
    var first: int := text[index];
    if IsHigh(first) && index + 1 < |text| && IsLow(text[index + 1]) then
      0x10000 + (first - 0xD800) * 1024 + (text[index + 1] - 0xDC00)
    else if 0xD800 <= first <= 0xDFFF then 0xFFFD
    else first
  }

  function EncodeScalar(cp: int): (b: seq<byte>)
    requires IsScalar(cp)
    ensures 1 <= |b| <= 4
  {
    if cp <= 0x7F then [cp]
    else if cp <= 0x7FF then [0xC0 + cp / 64, 0x80 + cp % 64]
    else
      var high := cp / 64;
      if cp <= 0xFFFF then [0xE0 + high / 64, 0x80 + high % 64, 0x80 + cp % 64]
      else [0xF0 + high / 64 / 64, 0x80 + high / 64 % 64, 0x80 + high % 64, 0x80 + cp % 64]
  }

  /** How many code units `CodePointAt` consumed. */
  function UnitsTaken(cp: int): nat {
    if cp > 0xFFFF then 2 else 1
  }

  function Encode(text: Text): seq<byte> {
    if text == [] then []
    else
      var cp := CodePointAt(text, 0);
      EncodeScalar(cp) + Encode(text[UnitsTaken(cp)..])
  }

  /** The code units of one scalar value. */
  function Units(cp: int): (t: Text)
    requires IsScalar(cp)
    ensures |t| == UnitsTaken(cp)
  {
    if cp <= 0xFFFF then [cp]
    else [0xD800 + (cp - 0x10000) / 1024, 0xDC00 + (cp - 0x10000) % 1024]
  }

  datatype Utf8Error = NotUtf8 | Truncated | InvalidCodePoint

  /** Folds continuation bytes into a code point. */
  function Continue(bytes: seq<byte>, cp: nat): Option<nat> {
    if bytes == [] then Some(cp)
    else if 0x80 <= bytes[0] < 0xC0 then Continue(bytes[1..], cp * 64 + (bytes[0] - 0x80))
    else None
  }

  /** What a first byte announces: its bits, the continuation bytes and the smallest code point. */
  datatype Lead = Lead(bits: nat, count: nat, minimum: nat)

  function LeadOf(first: byte): Option<Lead> {
    if first <= 0x7F then Some(Lead(first, 0, 0))
    else if 0xC2 <= first <= 0xDF then Some(Lead(first - 0xC0, 1, 0x80))
    else if 0xE0 <= first <= 0xEF then Some(Lead(first - 0xE0, 2, 0x800))
    else if 0xF0 <= first <= 0xF4 then Some(Lead(first - 0xF0, 3, 0x10000))
    else None
  }

  datatype One = One(cp: int, length: nat)

  /** The first encoded scalar value of a nonempty input. */
  function DecodeOne(bytes: seq<byte>): (r: Result<One, Utf8Error>)
    requires bytes != []
    ensures r.Ok? ==> IsScalar(r.value.cp) && 1 <= r.value.length <= |bytes|
  {
    match LeadOf(bytes[0])
    case None => Err(NotUtf8)
    case Some(Lead(bits, count, minimum)) =>
      if count >= |bytes| then Err(Truncated)
      else
        match Continue(bytes[1..1 + count], bits)
        case None => Err(NotUtf8)
        case Some(cp) =>
          if cp < minimum || cp > 0x10FFFF || 0xD800 <= cp <= 0xDFFF then Err(InvalidCodePoint)
          else Ok(One(cp, 1 + count))
  }

  function After(front: Text, r: Result<Text, Utf8Error>): Result<Text, Utf8Error> {
    match r
    case Ok(t) => Ok(front + t)
    case Err(e) => Err(e)
  }

  function Decode(bytes: seq<byte>): Result<Text, Utf8Error> {
    if bytes == [] then Ok([])
    else
      match DecodeOne(bytes)
      case Err(e) => Err(e)
      case Ok(One(cp, n)) => After(Units(cp), Decode(bytes[n..]))
  }

  // ----- One scalar value -----

  lemma Continue1(x: byte, cp: nat)
    requires 0x80 <= x < 0xC0
    ensures Continue([x], cp) == Some(cp * 64 + (x - 0x80))
  {
  }

  lemma Continue2(x: byte, y: byte, cp: nat)
    requires 0x80 <= x < 0xC0 && 0x80 <= y < 0xC0
    ensures Continue([x, y], cp) == Some(cp * 4096 + (x - 0x80) * 64 + (y - 0x80))
  {
    assert [x, y][1..] == [y];
    Continue1(y, cp * 64 + (x - 0x80));
  }

  lemma Continue3(x: byte, y: byte, z: byte, cp: nat)
    requires 0x80 <= x < 0xC0 && 0x80 <= y < 0xC0 && 0x80 <= z < 0xC0
    ensures Continue([x, y, z], cp) == Some(cp * 262144 + (x - 0x80) * 4096 + (y - 0x80) * 64 + (z - 0x80))
  {
    assert [x, y, z][1..] == [y, z];
    Continue2(y, z, cp * 64 + (x - 0x80));
  }

  lemma {:induction false} ContinueIsAll(bytes: seq<byte>, cp: nat)
    requires Continue(bytes, cp).Some?
    ensures forall i :: 0 <= i < |bytes| ==> 0x80 <= bytes[i] < 0xC0
  {
    if bytes != [] {
      ContinueIsAll(bytes[1..], cp * 64 + (bytes[0] - 0x80));
      assert forall i :: 1 <= i < |bytes| ==> bytes[i] == bytes[1..][i - 1];
    }
  }

  lemma DecodeOne1(a: nat, b: nat, rest: seq<byte>)
    requires 2 <= a < 32 && b < 64
    ensures DecodeOne([0xC0 + a, 0x80 + b] + rest) == Ok(One(a * 64 + b, 2))
  {
    var bytes := [0xC0 + a, 0x80 + b] + rest;
    assert bytes[1..2] == [0x80 + b];
    Continue1(0x80 + b, a);
  }

  lemma DecodeOne2(a: nat, b: nat, c: nat, rest: seq<byte>)
    requires a < 16 && b < 64 && c < 64
    requires a * 4096 + b * 64 + c > 0x7FF && IsScalar(a * 4096 + b * 64 + c)
    ensures DecodeOne([0xE0 + a, 0x80 + b, 0x80 + c] + rest) == Ok(One(a * 4096 + b * 64 + c, 3))
  {
    var bytes := [0xE0 + a, 0x80 + b, 0x80 + c] + rest;
    assert bytes[1..3] == [0x80 + b, 0x80 + c];
    Continue2(0x80 + b, 0x80 + c, a);
  }

  lemma DecodeOne3(a: nat, b: nat, c: nat, d: nat, rest: seq<byte>)
    requires a < 5 && b < 64 && c < 64 && d < 64
    requires 0xFFFF < a * 262144 + b * 4096 + c * 64 + d <= 0x10FFFF
    ensures DecodeOne([0xF0 + a, 0x80 + b, 0x80 + c, 0x80 + d] + rest)
            == Ok(One(a * 262144 + b * 4096 + c * 64 + d, 4))
  {
    var bytes := [0xF0 + a, 0x80 + b, 0x80 + c, 0x80 + d] + rest;
    assert bytes[1..4] == [0x80 + b, 0x80 + c, 0x80 + d];
    Continue3(0x80 + b, 0x80 + c, 0x80 + d, a);
  }

  /** Decoding one encoded scalar value gives it back, whatever follows. */
  lemma DecodeOneOfEncode(cp: int, rest: seq<byte>)
    requires IsScalar(cp)
    ensures DecodeOne(EncodeScalar(cp) + rest) == Ok(One(cp, |EncodeScalar(cp)|))
  {
    hide DecodeOne;
    var high := cp / 64;
    if cp <= 0x7F {
      DecodeOne0(cp, rest);
    } else if cp <= 0x7FF {
      DecodeOne1(high, cp % 64, rest);
    } else if cp <= 0xFFFF {
      assert cp == high / 64 * 4096 + high % 64 * 64 + cp % 64;
      DecodeOne2(high / 64, high % 64, cp % 64, rest);
    } else {
      assert cp == high / 64 / 64 * 262144 + high / 64 % 64 * 4096 + high % 64 * 64 + cp % 64;
      DecodeOne3(high / 64 / 64, high / 64 % 64, high % 64, cp % 64, rest);
    }
  }

  lemma DecodeOne0(a: byte, rest: seq<byte>)
    requires a <= 0x7F
    ensures DecodeOne([a] + rest) == Ok(One(a, 1))
  {
    assert ([a] + rest)[1..1] == [];
  }

  /** Digits in range are the digits of their code point. */
  lemma Join2(a: nat, b: nat, c: nat)
    requires a < 16 && b < 64 && c < 64 && a * 4096 + b * 64 + c > 0x7FF && IsScalar(a * 4096 + b * 64 + c)
    ensures EncodeScalar(a * 4096 + b * 64 + c) == [0xE0 + a, 0x80 + b, 0x80 + c]
  {
    assert (a * 4096 + b * 64 + c) / 64 == a * 64 + b;
  }

  lemma Join3(a: nat, b: nat, c: nat, d: nat)
    requires a < 5 && b < 64 && c < 64 && d < 64
    requires 0xFFFF < a * 262144 + b * 4096 + c * 64 + d <= 0x10FFFF
    ensures EncodeScalar(a * 262144 + b * 4096 + c * 64 + d) == [0xF0 + a, 0x80 + b, 0x80 + c, 0x80 + d]
  {
    assert (a * 262144 + b * 4096 + c * 64 + d) / 64 == a * 4096 + b * 64 + c;
    assert (a * 4096 + b * 64 + c) / 64 == a * 64 + b;
  }

  /** Accepted bytes are the one encoding of the scalar value they stand for. */
  lemma EncodeOfDecodeOne(bytes: seq<byte>)
    requires bytes != [] && DecodeOne(bytes).Ok?
    ensures bytes[..DecodeOne(bytes).value.length] == EncodeScalar(DecodeOne(bytes).value.cp)
  {
    var Lead(bits, count, minimum) := LeadOf(bytes[0]).value;
    var tail := bytes[1..1 + count];
    ContinueIsAll(tail, bits);
    assert bytes[..1 + count] == [bytes[0]] + tail;
    match count
    case 0 =>
    case 1 =>
      assert tail == [bytes[1]];
      Continue1(bytes[1], bits);
    case 2 =>
      hide EncodeScalar;
      assert tail == [bytes[1], bytes[2]];
      Continue2(bytes[1], bytes[2], bits);
      Join2(bits, bytes[1] - 0x80, bytes[2] - 0x80);
    case _ =>
      hide EncodeScalar;
      assert tail == [bytes[1], bytes[2], bytes[3]];
      Continue3(bytes[1], bytes[2], bytes[3], bits);
      Join3(bits, bytes[1] - 0x80, bytes[2] - 0x80, bytes[3] - 0x80);
  }

  /** The bytes of every scalar value and the range that each byte is from (section 3 of RFC 3629). */
  lemma ScalarLayout(cp: int)
    requires IsScalar(cp)
    ensures var b := EncodeScalar(cp);
            if cp < 0x80 then b == [cp]
            else if cp < 0x800 then |b| == 2 && Tail(b, 1) && 0xC0 <= b[0] < 0xE0 && cp == Sum(0, 0, b[0] - 0xC0, b[1] - 0x80)
            else if cp < 0x1_0000 then
              |b| == 3 && Tail(b, 1) && 0xE0 <= b[0] < 0xF0 && cp == Sum(0, b[0] - 0xE0, b[1] - 0x80, b[2] - 0x80)
            else |b| == 4 && Tail(b, 1) && 0xF0 <= b[0] < 0xF8 && cp == Sum(b[0] - 0xF0, b[1] - 0x80, b[2] - 0x80, b[3] - 0x80)
  {
  }

  predicate Tail(b: seq<byte>, from: nat) {
    forall i :: from <= i < |b| ==> 0x80 <= b[i] < 0xC0
  }

  function Sum(a: int, b: int, c: int, d: int): int {
    262144 * a + 4096 * b + 64 * c + d
  }

  function Paired(high: int, low: int): int {
    0x1_0000 + 0x400 * (high - 0xD800) + (low - 0xDC00)
  }

  /** A surrogate pair and its code point (section 3.8 of the Unicode Standard). */
  lemma PairLayout(text: Text, i: nat)
    requires i + 1 < |text| && 0xD800 <= text[i] <= 0xDBFF && 0xDC00 <= text[i + 1] <= 0xDFFF
    ensures CodePointAt(text, i) == Paired(text[i], text[i + 1])
    ensures Units(CodePointAt(text, i)) == [text[i], text[i + 1]]
  {
  }

  /** How many bytes a first byte announces; 0 is none that can begin a scalar value. */
  function Announced(first: int): int {
    if first < 0x80 then 1 else if first < 0xC2 then 0 else if first < 0xE0 then 2
    else if first < 0xF0 then 3 else if first < 0xF5 then 4 else 0
  }

  /** What is reported of bytes that cannot be decoded. */
  lemma DecodeErrors(bytes: seq<byte>)
    requires bytes != []
    ensures var n := Announced(bytes[0]);
            if n == 0 then DecodeOne(bytes) == Err(NotUtf8)
            else if |bytes| < n then DecodeOne(bytes) == Err(Truncated)
            else if !Tail(bytes[..n], 1) then DecodeOne(bytes) == Err(NotUtf8)
            else DecodeOne(bytes).Ok? || DecodeOne(bytes) == Err(InvalidCodePoint)
  {
    var n := Announced(bytes[0]);
    if 0 < n <= |bytes| {
      var lead := LeadOf(bytes[0]).value;
      var tail := bytes[1..n];
      assert forall i :: 0 <= i < |tail| ==> tail[i] == bytes[..n][i + 1];
      ContinuesIff(tail, lead.bits);
    }
  }

  lemma {:induction false} ContinuesIff(bytes: seq<byte>, cp: nat)
    ensures Continue(bytes, cp).Some? <==> forall i :: 0 <= i < |bytes| ==> 0x80 <= bytes[i] < 0xC0
    decreases |bytes|
  {
    if bytes != [] && 0x80 <= bytes[0] < 0xC0 {
      ContinuesIff(bytes[1..], cp * 64 + (bytes[0] - 0x80));
      assert forall i :: 1 <= i < |bytes| ==> bytes[i] == bytes[1..][i - 1];
    }
  }

  // ----- Whole strings -----

  /** A surrogate without its partner. */
  predicate Lone(text: Text, i: nat)
    requires i < |text|
  {
    || (IsHigh(text[i]) && !(i + 1 < |text| && IsLow(text[i + 1])))
    || (IsLow(text[i]) && !(i > 0 && IsHigh(text[i - 1])))
  }

  /** The string with each lone surrogate replaced by U+FFFD. */
  function Repaired(text: Text): Text {
    seq(|text|, i requires 0 <= i < |text| => if Lone(text, i) then 0xFFFD else text[i])
  }

  lemma RepairedEmpty()
    ensures Repaired([]) == []
  {
  }

  lemma RepairedFront(text: Text)
    requires text != []
    ensures var cp := CodePointAt(text, 0);
            Repaired(text) == Units(cp) + Repaired(text[UnitsTaken(cp)..])
  {
    var cp := CodePointAt(text, 0);
    var n := UnitsTaken(cp);
    var rest := text[n..];
    forall i | 0 <= i < |rest| ensures Repaired(text)[n + i] == Repaired(rest)[i] {
      assert Lone(rest, i) == Lone(text, n + i);
    }
    assert Repaired(text)[..n] == Units(cp);
    assert Repaired(text) == Repaired(text)[..n] + Repaired(text)[n..];
    assert Repaired(text)[n..] == Repaired(rest);
  }

  /** Decoding what was encoded gives back the string, with lone surrogates replaced. */
  lemma {:induction false} DecodeOfEncode(text: Text)
    ensures Decode(Encode(text)) == Ok(Repaired(text))
  {
    hide EncodeScalar, DecodeOne, Repaired;
    if text == [] {
      assert Repaired([]) == [] by { RepairedEmpty(); }
    } else {
      var cp := CodePointAt(text, 0);
      var rest := text[UnitsTaken(cp)..];
      var e := EncodeScalar(cp);
      DecodeOneOfEncode(cp, Encode(rest));
      assert Encode(text) == e + Encode(rest) && Encode(text)[|e|..] == Encode(rest);
      DecodeOfEncode(rest);
      RepairedFront(text);
    }
  }

  lemma CodePointOfUnits(cp: int, rest: Text)
    requires IsScalar(cp)
    ensures CodePointAt(Units(cp) + rest, 0) == cp
  {
  }

  lemma EncodeUnits(cp: int, rest: Text)
    requires IsScalar(cp)
    ensures Encode(Units(cp) + rest) == EncodeScalar(cp) + Encode(rest)
  {
    CodePointOfUnits(cp, rest);
    hide EncodeScalar, Units, CodePointAt;
    assert (Units(cp) + rest)[UnitsTaken(cp)..] == rest;
  }

  /** Accepted bytes are exactly the encoding of the string returned. */
  lemma {:induction false} EncodeOfDecode(bytes: seq<byte>)
    requires Decode(bytes).Ok?
    ensures Encode(Decode(bytes).value) == bytes
    decreases |bytes|
  {
    hide EncodeScalar, DecodeOne, Units, CodePointAt;
    if bytes != [] {
      var One(cp, n) := DecodeOne(bytes).value;
      EncodeOfDecode(bytes[n..]);
      EncodeOfDecodeOne(bytes);
      EncodeUnits(cp, Decode(bytes[n..]).value);
      assert bytes == bytes[..n] + bytes[n..];
    }
  }

  /** The decoder accepts the encodings and nothing else. */
  lemma AcceptsExactlyEncodings(bytes: seq<byte>)
    ensures Decode(bytes).Ok? <==> exists text :: bytes == Encode(text)
  {
    if Decode(bytes).Ok? {
      EncodeOfDecode(bytes);
    }
    forall text | bytes == Encode(text) ensures Decode(bytes).Ok? {
      DecodeOfEncode(text);
    }
  }

  // ----- The loops -----

  lemma EncodeAt(text: Text, index: nat)
    requires index < |text|
    ensures var cp := CodePointAt(text, index);
            && index + UnitsTaken(cp) <= |text|
            && Encode(text[index..]) == EncodeScalar(cp) + Encode(text[index + UnitsTaken(cp)..])
  {
    var cp := CodePointAt(text, index);
    assert CodePointAt(text[index..], 0) == cp;
    assert text[index..][UnitsTaken(cp)..] == text[index + UnitsTaken(cp)..];
  }

  lemma EncodeEmpty()
    ensures Encode([]) == []
  {
  }

  /** First pass: the length to allocate. */
  method MeasureUtf8(text: Text) returns (byteLength: nat)
    ensures byteLength == |Encode(text)|
  {
    byteLength := 0;
    var index := 0;
    assert text[0..] == text;
    while index < |text|
      invariant index <= |text|
      invariant byteLength + |Encode(text[index..])| == |Encode(text)|
    {
      EncodeAt(text, index);
      var codePoint := CodePointAt(text, index);
      if codePoint > 0xFFFF {
        index := index + 1;
      }
      if codePoint <= 0x7F {
        byteLength := byteLength + 1;
      } else if codePoint <= 0x7FF {
        byteLength := byteLength + 2;
      } else if codePoint <= 0xFFFF {
        byteLength := byteLength + 3;
      } else {
        byteLength := byteLength + 4;
      }
      index := index + 1;
    }
  }

  /** `encodeUtf8`: the second pass fills exactly the array that the first pass measured. */
  method EncodeUtf8(text: Text) returns (result: array<byte>)
    ensures fresh(result) && result[..] == Encode(text)
  {
    hide EncodeScalar, Encode, CodePointAt, IsScalar;
    var byteLength := MeasureUtf8(text);
    result := new byte[byteLength];
    var output := 0;
    var index := 0;
    assert text[0..] == text;
    while index < |text|
      invariant index <= |text|
      invariant 0 <= output <= byteLength == result.Length
      invariant output + |Encode(text[index..])| == byteLength
      invariant result[..output] + Encode(text[index..]) == Encode(text)
    {
      EncodeAt(text, index);
      var codePoint := CodePointAt(text, index);
      if codePoint > 0xFFFF {
        index := index + 1;
      }
      output := PutScalar(result, output, codePoint);
      index := index + 1;
    }
    EncodeEmpty();
    assert text[index..] == [];
    assert result[..output] == result[..];
  }

  /** The bytes of a code point, as the second pass computes them. */
  lemma ScalarBytes(cp: int)
    requires IsScalar(cp)
    ensures cp <= 0x7F ==> EncodeScalar(cp) == [cp]
    ensures 0x7F < cp <= 0x7FF ==> EncodeScalar(cp) == [0xC0 + cp / 64, 0x80 + cp % 64]
    ensures 0x7FF < cp <= 0xFFFF ==> EncodeScalar(cp) == [0xE0 + cp / 4096, 0x80 + cp / 64 % 64, 0x80 + cp % 64]
    ensures cp > 0xFFFF ==>
              EncodeScalar(cp) == [0xF0 + cp / 262144, 0x80 + cp / 4096 % 64, 0x80 + cp / 64 % 64, 0x80 + cp % 64]
  {
  }

  /** Writes one code point at `output` and returns the position after it. */
  method PutScalar(result: array<byte>, output: nat, codePoint: int) returns (next: nat)
    requires IsScalar(codePoint) && output + |EncodeScalar(codePoint)| <= result.Length
    modifies result
    ensures next == output + |EncodeScalar(codePoint)|
    ensures result[..next] == old(result[..output]) + EncodeScalar(codePoint)
  {
    hide EncodeScalar;
    ScalarBytes(codePoint);
    next := output;
    if codePoint <= 0x7F {
      result[next], next := codePoint, next + 1;
    } else if codePoint <= 0x7FF {
      result[next], next := 0xC0 + codePoint / 64, next + 1;
      result[next], next := 0x80 + codePoint % 64, next + 1;
    } else if codePoint <= 0xFFFF {
      result[next], next := 0xE0 + codePoint / 4096, next + 1;
      result[next], next := 0x80 + codePoint / 64 % 64, next + 1;
      result[next], next := 0x80 + codePoint % 64, next + 1;
    } else {
      result[next], next := 0xF0 + codePoint / 262144, next + 1;
      result[next], next := 0x80 + codePoint / 4096 % 64, next + 1;
      result[next], next := 0x80 + codePoint / 64 % 64, next + 1;
      result[next], next := 0x80 + codePoint % 64, next + 1;
    }
  }

  /** One turn of `decodeUtf8`: the checks on a first byte and the loop over its continuation bytes. */
  method DecodeOneAt(bytes: seq<byte>, index: nat) returns (r: Result<One, Utf8Error>)
    requires index < |bytes|
    ensures r == DecodeOne(bytes[index..])
  {
    ghost var s := bytes[index..];
    var lead := LeadOf(bytes[index]);
    if lead.None? {
      return Err(NotUtf8);
    }
    var Lead(bits, count, minimum) := lead.value;
    if index + count >= |bytes| {
      return Err(Truncated);
    }
    var codePoint: nat := bits;
    ghost var tail := s[1..1 + count];
    var i := 1;
    while i <= count
      invariant 1 <= i <= count + 1
      invariant Continue(tail, bits) == Continue(tail[i - 1..], codePoint)
    {
      var next := bytes[index + i];
      assert tail[i - 1] == next && tail[i - 1..][1..] == tail[i..];
      if !(0x80 <= next < 0xC0) {
        return Err(NotUtf8);
      }
      codePoint := codePoint * 64 + (next - 0x80);
      i := i + 1;
    }
    if codePoint < minimum || codePoint > 0x10FFFF || 0xD800 <= codePoint <= 0xDFFF {
      return Err(InvalidCodePoint);
    }
    r := Ok(One(codePoint, 1 + count));
  }

  lemma AfterTwo(a: Text, b: Text, r: Result<Text, Utf8Error>)
    ensures After([], r) == r && After(a, Ok([])) == Ok(a)
    ensures After(a, After(b, r)) == After(a + b, r)
  {
    assert a + [] == a;
    if r.Ok? {
      assert [] + r.value == r.value && a + (b + r.value) == (a + b) + r.value;
    }
  }

  /** `decodeUtf8` */
  method DecodeUtf8(bytes: seq<byte>) returns (r: Result<Text, Utf8Error>)
    ensures r == Decode(bytes)
  {
    hide DecodeOne, Units;
    var result: Text := [];
    var index := 0;
    assert bytes[0..] == bytes;
    AfterTwo([], [], Decode(bytes));
    while index < |bytes|
      invariant index <= |bytes|
      invariant Decode(bytes) == After(result, Decode(bytes[index..]))
    {
      var one := DecodeOneAt(bytes, index);
      if one.Err? {
        return Err(one.error);
      }
      assert bytes[index..][one.value.length..] == bytes[index + one.value.length..];
      AfterTwo(result, Units(one.value.cp), Decode(bytes[index + one.value.length..]));
      result := result + Units(one.value.cp);
      index := index + one.value.length;
    }
    AfterTwo(result, [], Ok([]));
    r := Ok(result);
  }
}
