/** Bytes, the machine integers of the wire formats and their big-endian encodings. */
module Bytes {

  type byte = b: int | 0 <= b < 0x100

  type uint16 = n: int | 0 <= n < 0x1_0000

  type uint32 = n: int | 0 <= n < 0x1_0000_0000

  const TWO_32: int := 0x1_0000_0000

  /** What bytes mean as one number, the most significant first. */
  function Value(s: seq<byte>): nat {
    if s == [] then 0 else 0x100 * Value(s[..|s| - 1]) + s[|s| - 1]
  }

  /** The same for up to four bytes, weight by weight. */
  function Weighted(a: int, b: int, c: int, d: int): int {
    0x100_0000 * a + 0x1_0000 * b + 0x100 * c + d
  }

  lemma ValueOfTwo(a: byte, b: byte)
    ensures Value([a, b]) == Weighted(0, 0, a, b)
  {
    assert [a, b][..1] == [a] && [a][..0] == [];
    assert Value([a]) == 0x100 * Value([]) + a;
  }

  lemma ValueOfFour(a: byte, b: byte, c: byte, d: byte)
    ensures Value([a, b, c, d]) == Weighted(a, b, c, d)
  {
    assert [a, b, c, d][..3] == [a, b, c] && [a, b, c][..2] == [a, b];
    assert Value([a, b, c]) == 0x100 * Value([a, b]) + c;
    ValueOfTwo(a, b);
  }

  function U16(hi: byte, lo: byte): uint16 {
    ValueOfTwo(hi, lo);
    Value([hi, lo])
  }

  function U32(a: byte, b: byte, c: byte, d: byte): uint32 {
    ValueOfFour(a, b, c, d);
    Value([a, b, c, d])
  }

  /** Big-endian encodings of one length are unique. */
  lemma {:induction false} SameValue(s: seq<byte>, t: seq<byte>)
    requires |s| == |t| && Value(s) == Value(t)
    ensures s == t
  {
    if s != [] {
      var i, j := s[..|s| - 1], t[..|t| - 1];
      SameLast(Value(i), s[|s| - 1], Value(j), t[|t| - 1]);
      SameValue(i, j);
      assert s == i + [s[|s| - 1]] && t == j + [t[|t| - 1]];
    }
  }

  lemma SameLast(x: nat, b: byte, y: nat, c: byte)
    requires 0x100 * x + b == 0x100 * y + c
    ensures x == y && b == c
  {
  }

  lemma OneEncoding()
    ensures forall s: seq<byte>, t: seq<byte> :: |s| == |t| && Value(s) == Value(t) ==> s == t
  {
    forall s: seq<byte>, t: seq<byte> | |s| == |t| && Value(s) == Value(t) ensures s == t {
      SameValue(s, t);
    }
  }

  lemma SomeTwo(n: uint16)
    ensures exists s: seq<byte> :: |s| == 2 && Value(s) == n
  {
    var s: seq<byte> := [n / 0x100, n % 0x100];
    ValueOfTwo(s[0], s[1]);
    assert |s| == 2 && Value(s) == n;
  }

  lemma SomeFour(n: uint32)
    ensures exists s: seq<byte> :: |s| == 4 && Value(s) == n
  {
    var m := n / 0x1_0000;
    var s: seq<byte> := [m / 0x100, m % 0x100, n % 0x1_0000 / 0x100, n % 0x100];
    ValueOfFour(s[0], s[1], s[2], s[3]);
    assert |s| == 4 && Value(s) == n;
  }

  function PutU16(n: uint16): (s: seq<byte>)
    ensures |s| == 2 && U16(s[0], s[1]) == n
  {
    SomeTwo(n);
    OneEncoding();
    var s: seq<byte> :| |s| == 2 && Value(s) == n;
    assert s == [s[0], s[1]];
    s
  }

  function PutU32(n: uint32): (s: seq<byte>)
    ensures |s| == 4 && U32(s[0], s[1], s[2], s[3]) == n
  {
    SomeFour(n);
    OneEncoding();
    var s: seq<byte> :| |s| == 4 && Value(s) == n;
    assert s == [s[0], s[1], s[2], s[3]];
    s
  }

  /** Reading bytes and writing them back changes nothing. */
  lemma PutU16OfU16(a: byte, b: byte)
    ensures PutU16(U16(a, b)) == [a, b]
  {
    var s := PutU16(U16(a, b));
    assert s == [s[0], s[1]];
    SameValue(s, [a, b]);
  }

  lemma PutU32OfU32(a: byte, b: byte, c: byte, d: byte)
    ensures PutU32(U32(a, b, c, d)) == [a, b, c, d]
  {
    var s := PutU32(U32(a, b, c, d));
    assert s == [s[0], s[1], s[2], s[3]];
    SameValue(s, [a, b, c, d]);
  }

  lemma U16IsBigEndian(hi: byte, lo: byte)
    ensures U16(hi, lo) == Weighted(0, 0, hi, lo)
  {
    ValueOfTwo(hi, lo);
  }

  lemma U32IsBigEndian(a: byte, b: byte, c: byte, d: byte)
    ensures U32(a, b, c, d) == Weighted(a, b, c, d)
  {
    ValueOfFour(a, b, c, d);
  }

  /** Four more bytes. */
  lemma {:induction false} ValueOfMore(s: seq<byte>, a: byte, b: byte, c: byte, d: byte)
    ensures Value(s + [a, b, c, d]) == TWO_32 * Value(s) + Weighted(a, b, c, d)
  {
    var t := s + [a, b, c, d];
    assert t[..|t| - 1] == s + [a, b, c] && (s + [a, b, c])[..|s| + 2] == s + [a, b];
    assert (s + [a, b])[..|s| + 1] == s + [a] && (s + [a])[..|s|] == s;
    assert Value(s + [a]) == 0x100 * Value(s) + a;
    assert Value(s + [a, b]) == 0x100 * Value(s + [a]) + b;
    assert Value(s + [a, b, c]) == 0x100 * Value(s + [a, b]) + c;
  }

  /** The low 32 bits: the remainder, found by taking 2^32 away. */
  function Low32(n: nat): uint32 {
    if n < TWO_32 then n else Low32(n - TWO_32)
  }

  lemma {:induction false} Low32IsRemainder(n: nat)
    ensures Low32(n) == n % TWO_32 && Low32(n) <= n
  {
    if n >= TWO_32 {
      Low32IsRemainder(n - TWO_32);
    }
  }

  lemma SliceOfSlice(s: seq<byte>, a: nat, b: nat, c: nat, d: nat)
    requires a <= b <= |s| && c <= d <= b - a
    ensures s[a..b][c..d] == s[a + c..a + d]
  {
    var t := s[a..b][c..d];
    assert |t| == |s[a + c..a + d]|;
    forall i | 0 <= i < |t| ensures t[i] == s[a + c..a + d][i] {
      assert t[i] == s[a..b][c + i];
    }
  }

  /** ASCII lower case. */
  function Lower(s: seq<byte>): (t: seq<byte>)
    ensures |t| == |s|
    ensures forall i :: 0 <= i < |s| ==> t[i] == if 0x41 <= s[i] <= 0x5A then s[i] + 0x20 else s[i]
  {
    seq(|s|, i requires 0 <= i < |s| => if 0x41 <= s[i] <= 0x5A then s[i] + 0x20 else s[i])
  }

  // ----- Dotted names -----

  /** The labels in order, with a dot between neighbours. */
  function Dotted(ls: seq<seq<byte>>): seq<byte> {
    if ls == [] then []
    else if |ls| == 1 then ls[0]
    else ls[0] + [0x2E] + Dotted(ls[1..])
  }

  /** Where label `i` starts. */
  function StartOf(ls: seq<seq<byte>>, i: nat): nat
    requires i <= |ls|
  {
    if i == 0 then 0 else StartOf(ls, i - 1) + |ls[i - 1]| + 1
  }

  lemma {:induction false} StartAfterFirst(ls: seq<seq<byte>>, i: nat)
    requires 0 < i <= |ls|
    ensures StartOf(ls, i) == |ls[0]| + 1 + StartOf(ls[1..], i - 1)
    decreases i
  {
    if i > 1 {
      StartAfterFirst(ls, i - 1);
      assert ls[1..][i - 2] == ls[i - 1];
    }
  }

  /** Nothing follows the last label. */
  lemma {:induction false} DottedLength(ls: seq<seq<byte>>)
    requires ls != []
    ensures |Dotted(ls)| == StartOf(ls, |ls|) - 1
  {
    if |ls| == 1 {
      assert StartOf(ls, 1) == StartOf(ls, 0) + |ls[0]| + 1;
    } else {
      StartAfterFirst(ls, |ls|);
      DottedLength(ls[1..]);
    }
  }

  /** Label `i` stands where it starts, after a dot unless it is the first. */
  lemma {:induction false} DottedAt(ls: seq<seq<byte>>, i: nat)
    requires i < |ls|
    ensures StartOf(ls, i) + |ls[i]| <= |Dotted(ls)|
    ensures Dotted(ls)[StartOf(ls, i)..StartOf(ls, i) + |ls[i]|] == ls[i]
    ensures i > 0 ==> 0 < StartOf(ls, i) && Dotted(ls)[StartOf(ls, i) - 1] == 0x2E
    decreases i
  {
    if i > 0 {
      var s := StartOf(ls[1..], i - 1);
      StartAfterFirst(ls, i);
      hide StartOf;
      DottedAt(ls[1..], i - 1);
      AfterDot(ls[0], Dotted(ls[1..]), s, s + |ls[i]|);
    }
  }

  lemma AfterDot(first: seq<byte>, rest: seq<byte>, a: nat, b: nat)
    requires a <= b <= |rest|
    ensures var all, k := first + [0x2E] + rest, |first| + 1;
            && all[k + a..k + b] == rest[a..b] && all[|first|] == 0x2E
            && (a > 0 ==> all[k + a - 1] == rest[a - 1])
  {
  }

  // ----- Streams -----

  function Flatten(chunks: seq<seq<byte>>): seq<byte> {
    if chunks == [] then [] else chunks[0] + Flatten(chunks[1..])
  }

  lemma {:induction false} FlattenAppend(a: seq<seq<byte>>, b: seq<seq<byte>>)
    ensures Flatten(a + b) == Flatten(a) + Flatten(b)
  {
    if a == [] {
      assert a + b == b;
    } else {
      assert (a + b)[1..] == a[1..] + b;
      FlattenAppend(a[1..], b);
    }
  }

  lemma FlattenSnoc(a: seq<seq<byte>>, c: seq<byte>)
    ensures Flatten(a + [c]) == Flatten(a) + c
  {
    FlattenAppend(a, [c]);
    assert Flatten([c]) == c + [];
  }

  /** What one call of a writer does: how many bytes it takes, and whether it reports an error. */
  datatype WriteOutcome = WriteOutcome(count: nat, failed: bool)

  /** An `io.Writer` that takes any number of the offered bytes on each call, as scripted. */
  class Sink {
    const script: nat -> WriteOutcome
    var calls: nat
    var accepted: seq<byte>
    // History: some call reported an error or took nothing.
    var faulty: bool

    constructor (script: nat -> WriteOutcome)
      ensures this.script == script && calls == 0 && accepted == [] && !faulty
    {
      this.script := script;
      calls, accepted, faulty := 0, [], false;
    }

    method Write(payload: seq<byte>) returns (written: nat, failed: bool)
      modifies this
      ensures written <= |payload|
      ensures accepted == old(accepted) + payload[..written]
      ensures faulty == (old(faulty) || failed || written == 0)
    {
      var outcome := script(calls);
      calls := calls + 1;
      written := if outcome.count <= |payload| then outcome.count else |payload|;
      failed := outcome.failed;
      accepted := accepted + payload[..written];
      faulty := faulty || failed || written == 0;
    }
  }
}
