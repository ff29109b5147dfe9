/**
 The first question name of a DNS message (`DNSQuestionName` in `internal/relay/dns.go`), with the
 compression pointers of section 4.1.4 of RFC 1035 followed at most 32 times.
 */
module DnsName {
  import opened Wrappers
  import opened Bytes

  const MAX_JUMPS := 32

  datatype NameError =
    | ShortMessage
    | NoQuestion
    | NameTruncated
    | PointerTruncated
    | PointerOutside
    | PointerLoop
    | InvalidLabelType
    | LabelTruncated
    | UnsupportedCharacter

  /** What stands at an offset: the end of the name, a label, a pointer, or nothing usable. */
  datatype Hop =
    | End
    | Label(text: seq<byte>, next: nat)
    | Jump(to: nat)
    | Bad(error: NameError)

  predicate Printable(b: byte) { 0x21 <= b <= 0x7E }

  predicate AllPrintable(text: seq<byte>) {
    forall i :: 0 <= i < |text| ==> Printable(text[i])
  }

  function HopAt(m: seq<byte>, offset: nat): Hop {
    if offset >= |m| then Bad(NameTruncated)
    else
      var length := m[offset];
      if length == 0 then End
      else if length >= 0xC0 then
        if offset + 1 >= |m| then Bad(PointerTruncated)
        else
          var to := U16(length - 0xC0, m[offset + 1]);
          if to >= |m| then Bad(PointerOutside) else Jump(to)
      else if length >= 0x40 then Bad(InvalidLabelType)
      else if offset + 1 + length > |m| then Bad(LabelTruncated)
      else
        var text := m[offset + 1..offset + 1 + length];
        if AllPrintable(text) then Label(text, offset + 1 + length)
        else Bad(UnsupportedCharacter)
  }

  /** The offset that follows, if the name goes on. */
  function NextOffset(m: seq<byte>, offset: nat): Option<nat> {
    match HopAt(m, offset)
    case Label(_, next) => Some(next)
    case Jump(to) => Some(to)
    case _ => None
  }

  /** The offsets visited when a name is read from offset 12, up to some point. */
  ghost predicate IsPath(m: seq<byte>, p: seq<nat>) {
    && |p| >= 1 && p[0] == 12
    && forall i :: 0 <= i < |p| - 1 ==> NextOffset(m, p[i]) == Some(p[i + 1])
  }

  /** A finite expansion of the name: a path that reaches its end. */
  ghost predicate IsExpansion(m: seq<byte>, p: seq<nat>) {
    IsPath(m, p) && HopAt(m, p[|p| - 1]).End?
  }

  function LabelsOn(m: seq<byte>, p: seq<nat>): seq<seq<byte>> {
    if p == [] then []
    else
      var h := HopAt(m, p[|p| - 1]);
      LabelsOn(m, p[..|p| - 1]) + if h.Label? then [h.text] else []
  }

  function JumpsOn(m: seq<byte>, p: seq<nat>): nat {
    if p == [] then 0
    else JumpsOn(m, p[..|p| - 1]) + if HopAt(m, p[|p| - 1]).Jump? then 1 else 0
  }

  function Render(labels: seq<seq<byte>>): seq<byte> {
    if labels == [] then [0x2E] else Lower(Dotted(labels))
  }

  // ----- What a name means, from its bytes -----

  predicate WireLabel(l: seq<byte>) {
    1 <= |l| <= 63 && forall i :: 0 <= i < |l| ==> 0x21 <= l[i] <= 0x7E
  }

  /**
   The bytes at `o` spell the labels with so many pointers (section 4.1.4 of RFC 1035): a zero byte ends a
   name, a label is its length and its text, and a pointer is a 14-bit offset after two one bits.
   */
  ghost predicate Spelled(m: seq<byte>, o: nat, ls: seq<seq<byte>>, jumps: nat)
    decreases jumps, |ls|
  {
    o < |m| &&
    (|| (m[o] == 0 && ls == [] && jumps == 0)
     || (&& ls != [] && WireLabel(ls[0]) && o + 1 + |ls[0]| <= |m|
         && m[o] == |ls[0]| && m[o + 1..o + 1 + |ls[0]|] == ls[0]
         && Spelled(m, o + 1 + |ls[0]|, ls[1..], jumps))
     || (&& jumps > 0 && o + 1 < |m| && m[o] >= 0xC0
         && Spelled(m, Weighted(0, 0, m[o] - 0xC0, m[o + 1]), ls, jumps - 1)))
  }

  predicate SameButLower(name: seq<byte>, text: seq<byte>) {
    && |name| == |text|
    && forall i :: 0 <= i < |text| ==> name[i] == if 0x41 <= text[i] <= 0x5A then text[i] + 0x20 else text[i]
  }

  /** The labels in lower case, in order, with one dot between neighbours; the root is a dot. */
  ghost predicate IsNameOf(name: seq<byte>, ls: seq<seq<byte>>) {
    if ls == [] then name == [0x2E]
    else
      && |name| == StartOf(ls, |ls|) - 1
      && forall i :: 0 <= i < |ls| ==> LabelStands(name, ls, i)
  }

  ghost predicate LabelStands(name: seq<byte>, ls: seq<seq<byte>>, i: nat)
    requires i < |ls|
  {
    var at := StartOf(ls, i);
    && at + |ls[i]| <= |name|
    && SameButLower(name[at..at + |ls[i]|], ls[i])
    && (i > 0 ==> at > 0 && name[at - 1] == 0x2E)
  }

  lemma LowerOfSlice(s: seq<byte>, a: nat, b: nat)
    requires a <= b <= |s|
    ensures Lower(s)[a..b] == Lower(s[a..b])
  {
    assert forall j :: 0 <= j < b - a ==> s[a..b][j] == s[a + j];
  }

  lemma RenderIsName(ls: seq<seq<byte>>)
    ensures IsNameOf(Render(ls), ls)
  {
    hide Dotted, StartOf;
    if ls != [] {
      DottedLength(ls);
      forall i | 0 <= i < |ls| ensures LabelStands(Render(ls), ls, i) {
        DottedAt(ls, i);
        LowerOfSlice(Dotted(ls), StartOf(ls, i), StartOf(ls, i) + |ls[i]|);
      }
    }
  }

  /** One step of a name, by its bytes. */
  lemma HopOfBytes(m: seq<byte>, o: nat)
    requires o < |m|
    ensures HopAt(m, o).End? <==> m[o] == 0
    ensures forall l :: WireLabel(l) && o + 1 + |l| <= |m| && m[o] == |l| && m[o + 1..o + 1 + |l|] == l ==>
              HopAt(m, o) == Label(l, o + 1 + |l|)
    ensures HopAt(m, o).Label? ==>
              var Label(l, next) := HopAt(m, o);
              WireLabel(l) && next == o + 1 + |l| <= |m| && m[o] == |l| && m[o + 1..next] == l
    ensures m[o] >= 0xC0 && o + 1 < |m| ==>
              var to := Weighted(0, 0, m[o] - 0xC0, m[o + 1]);
              HopAt(m, o) == if to >= |m| then Bad(PointerOutside) else Jump(to)
    ensures HopAt(m, o).Jump? ==>
              m[o] >= 0xC0 && o + 1 < |m| && HopAt(m, o).to == Weighted(0, 0, m[o] - 0xC0, m[o + 1])
  {
    hide U16;
    if m[o] >= 0xC0 && o + 1 < |m| {
      U16IsBigEndian(m[o] - 0xC0, m[o + 1]);
    }
  }

  /** What is reported of a step that cannot be read. */
  lemma HopErrors(m: seq<byte>, o: nat)
    ensures o >= |m| ==> HopAt(m, o) == Bad(NameTruncated)
    ensures o + 1 == |m| && m[o] >= 0xC0 ==> HopAt(m, o) == Bad(PointerTruncated)
    ensures o < |m| && 0x40 <= m[o] < 0xC0 ==> HopAt(m, o) == Bad(InvalidLabelType)
    ensures o < |m| && 0 < m[o] < 0x40 && o + 1 + m[o] as int > |m| ==> HopAt(m, o) == Bad(LabelTruncated)
    ensures o < |m| && 0 < m[o] < 0x40 && o + 1 + m[o] as int <= |m| && !WireLabel(m[o + 1..o + 1 + m[o] as int]) ==>
              HopAt(m, o) == Bad(UnsupportedCharacter)
  {
  }

  lemma Extend(m: seq<byte>, p: seq<nat>, next: nat)
    requires IsPath(m, p) && NextOffset(m, p[|p| - 1]) == Some(next)
    ensures IsPath(m, p + [next]) && (p + [next])[..|p|] == p
  {
  }

  lemma SpelledHop(m: seq<byte>, o: nat, ls: seq<seq<byte>>, jumps: nat)
    requires Spelled(m, o, ls, jumps)
    ensures match HopAt(m, o)
            case End => ls == [] && jumps == 0
            case Label(l, next) => ls != [] && ls[0] == l && Spelled(m, next, ls[1..], jumps)
            case Jump(to) => jumps > 0 && Spelled(m, to, ls, jumps - 1)
            case Bad(_) => false
  {
    hide HopAt, Weighted;
    HopOfBytes(m, o);
  }

  lemma HopSpelled(m: seq<byte>, o: nat, ls: seq<seq<byte>>, jumps: nat)
    ensures HopAt(m, o).End? ==> Spelled(m, o, [], 0)
    ensures HopAt(m, o).Label? && Spelled(m, HopAt(m, o).next, ls, jumps) ==> Spelled(m, o, [HopAt(m, o).text] + ls, jumps)
    ensures HopAt(m, o).Jump? && Spelled(m, HopAt(m, o).to, ls, jumps) ==> Spelled(m, o, ls, jumps + 1)
  {
    hide HopAt, Weighted;
    if !HopAt(m, o).Bad? {
      EndsHere(m, o);
      HopOfBytes(m, o);
      if HopAt(m, o).Label? {
        assert ([HopAt(m, o).text] + ls)[1..] == ls;
      }
    }
  }

  /** What is spelled is what is read: from the end of a path, on to an expansion. */
  lemma {:induction false} SpelledExpands(m: seq<byte>, p: seq<nat>, ls: seq<seq<byte>>, jumps: nat) returns (q: seq<nat>)
    requires IsPath(m, p) && Spelled(m, p[|p| - 1], ls, jumps)
    ensures IsExpansion(m, q)
    ensures LabelsOn(m, q) == LabelsOn(m, p[..|p| - 1]) + ls
    ensures JumpsOn(m, q) == JumpsOn(m, p[..|p| - 1]) + jumps
    decreases jumps, |ls|
  {
    hide HopAt, Spelled;
    SpelledHop(m, p[|p| - 1], ls, jumps);
    match HopAt(m, p[|p| - 1])
    case End =>
      q := p;
      assert LabelsOn(m, p) == LabelsOn(m, p[..|p| - 1]) + [];
    case Jump(to) =>
      Extend(m, p, to);
      q := SpelledExpands(m, p + [to], ls, jumps - 1);
      assert LabelsOn(m, p) == LabelsOn(m, p[..|p| - 1]) + [];
    case Label(l, next) =>
      Extend(m, p, next);
      q := SpelledExpands(m, p + [next], ls[1..], jumps);
      assert ls == [l] + ls[1..];
  }

  /** And what is read is what is spelled. */
  lemma {:induction false} ExpansionSpells(m: seq<byte>, q: seq<nat>, i: nat) returns (ls: seq<seq<byte>>, jumps: nat)
    requires IsExpansion(m, q) && i < |q|
    ensures Spelled(m, q[i], ls, jumps)
    ensures LabelsOn(m, q) == LabelsOn(m, q[..i]) + ls && JumpsOn(m, q) == JumpsOn(m, q[..i]) + jumps
    decreases |q| - i
  {
    hide HopAt, Spelled;
    assert q[..i + 1][..i] == q[..i] && q[..|q|] == q;
    if i == |q| - 1 {
      ls, jumps := [], 0;
      HopSpelled(m, q[i], [], 0);
      assert LabelsOn(m, q) == LabelsOn(m, q[..i]) + [];
    } else {
      GoesOn(m, q, i);
      ls, jumps := ExpansionSpells(m, q, i + 1);
      HopSpelled(m, q[i], ls, jumps);
      if HopAt(m, q[i]).Label? {
        ls := [HopAt(m, q[i]).text] + ls;
      } else {
        jumps := jumps + 1;
        assert LabelsOn(m, q[..i + 1]) == LabelsOn(m, q[..i]) + [];
      }
    }
  }

  lemma EndsHere(m: seq<byte>, o: nat)
    requires !HopAt(m, o).Bad?
    ensures o < |m|
  {
  }

  /** Reading is deterministic: every path is the beginning of the expansion, if there is one. */
  lemma {:induction false} PathBeginsExpansion(m: seq<byte>, p: seq<nat>, q: seq<nat>)
    requires IsPath(m, p) && IsExpansion(m, q)
    ensures p <= q
    decreases |p|
  {
    hide HopAt;
    if |p| > 1 {
      var init := p[..|p| - 1];
      PathBeginsExpansion(m, init, q);
      assert init[|init| - 1] == q[|init| - 1];
      assert NextOffset(m, p[|p| - 2]) == Some(p[|p| - 1]);
      assert |init| < |q|;
      assert NextOffset(m, q[|init| - 1]) == Some(q[|init|]);
    }
  }

  /** From two visits of one offset, the same offsets would follow. */
  lemma {:induction false} RepeatRepeats(m: seq<byte>, p: seq<nat>, i: nat, j: nat, k: nat)
    requires IsPath(m, p) && i < j && j + k < |p| && p[i] == p[j]
    ensures p[i + k] == p[j + k]
    decreases k
  {
    hide HopAt;
    if k > 0 {
      RepeatRepeats(m, p, i, j, k - 1);
      assert NextOffset(m, p[i + k - 1]) == Some(p[i + k - 1 + 1]);
      assert NextOffset(m, p[j + k - 1]) == Some(p[j + k - 1 + 1]);
    }
  }

  lemma GoesOn(m: seq<byte>, p: seq<nat>, i: nat)
    requires IsPath(m, p) && i < |p| - 1
    ensures NextOffset(m, p[i]) == Some(p[i + 1])
  {
    assert NextOffset(m, p[i]) == Some(p[i + 1]);
  }

  /** A finite expansion visits no offset twice, so a repeated pointer target proves there is none. */
  lemma ExpansionHasNoRepeat(m: seq<byte>, p: seq<nat>, i: nat, j: nat)
    requires IsExpansion(m, p) && i < j < |p|
    ensures p[i] != p[j]
  {
    hide HopAt;
    var k := |p| - 1 - j;
    GoesOn(m, p, i + k);
    if p[i] == p[j] {
      RepeatRepeats(m, p, i, j, k);
    }
  }

  lemma {:induction false} JumpsGrow(m: seq<byte>, p: seq<nat>, q: seq<nat>)
    requires p <= q
    ensures JumpsOn(m, p) <= JumpsOn(m, q)
    decreases |q|
  {
    hide HopAt;
    if p != q {
      JumpsGrow(m, p, q[..|q| - 1]);
    }
  }

  /** How a reading ends: with an error met on the way, or for too many or repeated pointers. */
  ghost predicate FailsFor(m: seq<byte>, e: NameError) {
    match e
    case ShortMessage => |m| < 12
    case NoQuestion => |m| >= 12 && U16(m[4], m[5]) == 0
    case PointerLoop => forall q :: IsExpansion(m, q) ==> JumpsOn(m, q) > MAX_JUMPS
    case _ => exists p :: IsPath(m, p) && HopAt(m, p[|p| - 1]) == Bad(e)
  }

  /** A message whose name has an expansion with few enough pointers. */
  ghost predicate HasName(m: seq<byte>) {
    |m| >= 12 && U16(m[4], m[5]) != 0 && exists q :: IsExpansion(m, q) && JumpsOn(m, q) <= MAX_JUMPS
  }

  /** The message has a question, and its name is spelled with few enough pointers. */
  ghost predicate CarriesName(m: seq<byte>, ls: seq<seq<byte>>, jumps: nat) {
    |m| >= 12 && (m[4] != 0 || m[5] != 0) && jumps <= 32 && Spelled(m, 12, ls, jumps)
  }

  lemma HasNameIffCarried(m: seq<byte>)
    ensures HasName(m) <==> exists ls, jumps :: CarriesName(m, ls, jumps)
  {
    hide HopAt, Spelled, IsExpansion, U16;
    if HasName(m) {
      U16IsBigEndian(m[4], m[5]);
      var q :| IsExpansion(m, q) && JumpsOn(m, q) <= MAX_JUMPS;
      StartsAt12(m, q);
      var ls, jumps := ExpansionSpells(m, q, 0);
      assert q[..0] == [];
      assert CarriesName(m, ls, jumps);
    }
    forall ls, jumps | CarriesName(m, ls, jumps) ensures HasName(m) {
      var q := ReadCarried(m, ls, jumps);
    }
  }

  lemma StartsAt12(m: seq<byte>, q: seq<nat>)
    requires IsExpansion(m, q)
    ensures |q| > 0 && q[0] == 12
  {
  }

  lemma ReadCarried(m: seq<byte>, ls: seq<seq<byte>>, jumps: nat) returns (q: seq<nat>)
    requires CarriesName(m, ls, jumps)
    ensures IsExpansion(m, q) && LabelsOn(m, q) == ls && JumpsOn(m, q) == jumps && HasName(m)
  {
    hide HopAt, Spelled, U16;
    U16IsBigEndian(m[4], m[5]);
    q := SpelledExpands(m, [12], ls, jumps);
    assert [12][..0] == [] && [] + ls == ls;
  }

  /** The name read from a message that carries one is the name of its labels. */
  lemma CarriedIsRead(m: seq<byte>, ls: seq<seq<byte>>, jumps: nat, name: seq<byte>)
    requires CarriesName(m, ls, jumps)
    ensures HasName(m)
    ensures (forall q :: IsExpansion(m, q) ==> name == Render(LabelsOn(m, q))) ==> IsNameOf(name, ls)
  {
    hide HasName, IsExpansion, LabelsOn, Render, CarriesName, IsNameOf;
    var q := ReadCarried(m, ls, jumps);
    RenderIsName(ls);
  }

  // ----- Messages that carry a name -----

  /** A label as its length and its text. */
  function WireText(l: seq<byte>): (s: seq<byte>)
    requires WireLabel(l)
    ensures |s| == 1 + |l| && s[0] == |l| && s[1..] == l
  {
    var n: byte := |l|;
    [n] + l
  }

  function WireLabels(ls: seq<seq<byte>>): seq<byte>
    requires forall i :: 0 <= i < |ls| ==> WireLabel(ls[i])
  {
    if ls == [] then [] else WireText(ls[0]) + WireLabels(ls[1..])
  }

  lemma {:induction false} FrontIsSpelled(m: seq<byte>, o: nat, front: seq<seq<byte>>, tail: seq<seq<byte>>, jumps: nat)
    requires forall i :: 0 <= i < |front| ==> WireLabel(front[i])
    requires o <= |m| && WireLabels(front) <= m[o..]
    requires Spelled(m, o + |WireLabels(front)|, tail, jumps)
    ensures Spelled(m, o, front + tail, jumps)
    decreases |front|
  {
    hide Spelled;
    if front == [] {
      assert front + tail == tail;
    } else {
      var l, rest := front[0], WireLabels(front[1..]);
      SplitPrefix(m, o, WireText(l), rest);
      assert m[o] == m[o..o + 1 + |l|][0] && m[o + 1..o + 1 + |l|] == m[o..o + 1 + |l|][1..];
      FrontIsSpelled(m, o + 1 + |l|, front[1..], tail, jumps);
      LabelIsSpelled(m, o, l, front[1..] + tail, jumps);
      assert front + tail == [l] + (front[1..] + tail);
    }
  }

  lemma SplitPrefix(m: seq<byte>, o: nat, a: seq<byte>, b: seq<byte>)
    requires o <= |m| && a + b <= m[o..]
    ensures o + |a| <= |m| && a <= m[o..] && m[o..o + |a|] == a && b <= m[o + |a|..]
  {
    var s := m[o..];
    assert s[..|a + b|] == a + b;
    assert m[o..o + |a|] == s[..|a|] == (a + b)[..|a|] == a;
    assert m[o + |a|..][..|b|] == s[|a|..|a + b|] == (a + b)[|a|..] == b;
  }

  lemma LabelIsSpelled(m: seq<byte>, o: nat, l: seq<byte>, ls: seq<seq<byte>>, jumps: nat)
    requires WireLabel(l) && o + 1 + |l| <= |m| && m[o] == |l| && m[o + 1..o + 1 + |l|] == l
    requires Spelled(m, o + 1 + |l|, ls, jumps)
    ensures Spelled(m, o, [l] + ls, jumps)
  {
    assert ([l] + ls)[1..] == ls;
  }

  /** Labels and a zero byte. */
  lemma PlainNameIsSpelled(m: seq<byte>, o: nat, ls: seq<seq<byte>>)
    requires forall i :: 0 <= i < |ls| ==> WireLabel(ls[i])
    requires o <= |m| && WireLabels(ls) + [0] <= m[o..]
    ensures Spelled(m, o, ls, 0)
  {
    hide WireLabels, WireLabel, Spelled;
    SplitPrefix(m, o, WireLabels(ls), [0]);
    EndIsSpelled(m, o + |WireLabels(ls)|);
    FrontIsSpelled(m, o, ls, [], 0);
    assert ls + [] == ls;
  }

  lemma EndIsSpelled(m: seq<byte>, o: nat)
    requires o <= |m| && [0] <= m[o..]
    ensures Spelled(m, o, [], 0)
  {
    assert m[o] == m[o..][0];
  }

  lemma PointerIsSpelled(m: seq<byte>, o: nat, hi: byte, lo: byte, ls: seq<seq<byte>>, jumps: nat)
    requires hi < 0x40 && o <= |m| && [0xC0 + hi, lo] <= m[o..] && Spelled(m, Weighted(0, 0, hi, lo), ls, jumps)
    ensures Spelled(m, o, ls, jumps + 1)
  {
    hide Weighted;
    assert m[o] == m[o..][0] && m[o + 1] == m[o..][1];
    assert m[o] - 0xC0 == hi;
  }

  /** Labels and a pointer to where the others stand. */
  lemma PointedNameIsSpelled(m: seq<byte>, o: nat, front: seq<seq<byte>>, hi: byte, lo: byte, tail: seq<seq<byte>>, jumps: nat)
    requires forall i :: 0 <= i < |front| ==> WireLabel(front[i])
    requires hi < 0x40 && o <= |m| && WireLabels(front) + [0xC0 + hi, lo] <= m[o..]
    requires Spelled(m, Weighted(0, 0, hi, lo), tail, jumps)
    ensures Spelled(m, o, front + tail, jumps + 1)
  {
    hide WireLabels, WireLabel, Spelled, Weighted;
    SplitPrefix(m, o, WireLabels(front), [0xC0 + hi, lo]);
    PointerIsSpelled(m, o + |WireLabels(front)|, hi, lo, tail, jumps);
    FrontIsSpelled(m, o, front, tail, jumps + 1);
  }

  lemma AfterHeader(header: seq<byte>, labels: seq<byte>, rest: seq<byte>)
    requires |header| == 12
    ensures var m := header + labels + [0] + rest;
            m[4] == header[4] && m[5] == header[5] && labels + [0] <= m[12..]
  {
    var m := header + labels + [0] + rest;
    assert m[12..] == labels + [0] + rest;
  }

  /** The question of a query: a header with a question count, the name, and whatever follows. */
  lemma QuestionIsCarried(header: seq<byte>, ls: seq<seq<byte>>, rest: seq<byte>)
    requires |header| == 12 && (header[4] != 0 || header[5] != 0)
    requires forall i :: 0 <= i < |ls| ==> WireLabel(ls[i])
    ensures CarriesName(header + WireLabels(ls) + [0] + rest, ls, 0)
  {
    hide Spelled, WireLabels, WireLabel;
    AfterHeader(header, WireLabels(ls), rest);
    PlainNameIsSpelled(header + WireLabels(ls) + [0] + rest, 12, ls);
  }

  /** The pointer C0 0C leads to offset 12. */
  lemma PointerTo12(m: seq<byte>, o: nat)
    requires o + 1 < |m| && |m| > 12 && m[o] == 0xC0 && m[o + 1] == 0x0C
    ensures HopAt(m, o) == Jump(12)
  {
    U16IsBigEndian(m[o] - 0xC0, m[o + 1]);
  }

  /** A path that runs into something unusable begins no expansion. */
  lemma BadPathHasNoExpansion(m: seq<byte>, p: seq<nat>)
    requires IsPath(m, p) && HopAt(m, p[|p| - 1]).Bad?
    ensures !exists q :: IsExpansion(m, q)
  {
    hide HopAt;
    forall q | IsExpansion(m, q) ensures false {
      PathBeginsExpansion(m, p, q);
      if |p| < |q| {
        GoesOn(m, q, |p| - 1);
      }
    }
  }

  /** A pointer to an offset already on the path begins no expansion. */
  lemma LoopHasNoExpansion(m: seq<byte>, p: seq<nat>, to: nat)
    requires IsPath(m, p) && HopAt(m, p[|p| - 1]) == Jump(to) && to in p
    ensures !exists q :: IsExpansion(m, q)
  {
    hide HopAt;
    forall q | IsExpansion(m, q) ensures false {
      var p' := p + [to];
      PathBeginsExpansion(m, p', q);
      var i :| 0 <= i < |p| && p[i] == to;
      assert q[i] == p'[i] && q[|p|] == p'[|p|];
      ExpansionHasNoRepeat(m, q, i, |p|);
    }
  }

  /** One pointer too many. */
  lemma TooManyJumps(m: seq<byte>, p: seq<nat>, to: nat)
    requires IsPath(m, p) && HopAt(m, p[|p| - 1]) == Jump(to) && JumpsOn(m, p[..|p| - 1]) >= MAX_JUMPS
    ensures forall q :: IsExpansion(m, q) ==> JumpsOn(m, q) > MAX_JUMPS
  {
    hide HopAt;
    forall q | IsExpansion(m, q) ensures JumpsOn(m, q) > MAX_JUMPS {
      PathBeginsExpansion(m, p, q);
      JumpsGrow(m, p, q);
    }
  }

  /**
   `DNSQuestionName` terminates on every message and returns a name exactly when the expansion from
   offset 12 is finite, has only valid labels and follows at most 32 pointers; it is then the name
   that the expansion spells. The check on repeated targets rejects no other message.
   */
  method DNSQuestionName(m: seq<byte>) returns (r: Result<seq<byte>, NameError>)
    ensures r.Ok? <==> exists ls, jumps :: CarriesName(m, ls, jumps)
    ensures forall ls, jumps :: CarriesName(m, ls, jumps) ==> r.Ok? && IsNameOf(r.value, ls)
    ensures r.Ok? <==> HasName(m)
    ensures r.Ok? ==> forall q :: IsExpansion(m, q) ==> r.value == Render(LabelsOn(m, q))
    ensures r.Err? ==> FailsFor(m, r.error)
  {
    hide HasName, CarriesName, IsNameOf, IsExpansion, FailsFor, Render, LabelsOn;
    r := FollowName(m);
    HasNameIffCarried(m);
    forall ls, jumps | CarriesName(m, ls, jumps) ensures r.Ok? && IsNameOf(r.value, ls) {
      CarriedIsRead(m, ls, jumps, if r.Ok? then r.value else []);
    }
  }

  /** The loop over the hops of the name. */
  method FollowName(m: seq<byte>) returns (r: Result<seq<byte>, NameError>)
    ensures r.Ok? <==> HasName(m)
    ensures r.Ok? ==> forall q :: IsExpansion(m, q) ==> r.value == Render(LabelsOn(m, q))
    ensures r.Err? ==> FailsFor(m, r.error)
  {
    hide HopAt;
    if |m| < 12 {
      return Err(ShortMessage);
    }
    if U16(m[4], m[5]) == 0 {
      return Err(NoQuestion);
    }
    var labels: seq<seq<byte>> := [];
    var offset := 12;
    var jumps := 0;
    var visited: set<nat> := {};
    ghost var p := [12];
    assert p[..0] == [];
    while true
      invariant IsPath(m, p) && offset == p[|p| - 1]
      invariant labels == LabelsOn(m, p[..|p| - 1]) && jumps == JumpsOn(m, p[..|p| - 1])
      invariant jumps <= MAX_JUMPS
      invariant forall v :: v in visited ==> v in p
      decreases MAX_JUMPS - jumps, |m| - offset
    {
      var hop := ReadHop(m, offset);
      match hop {
        case End =>
          Finished(m, p);
          return Ok(Render(labels));
        case Bad(e) =>
          BadPathHasNoExpansion(m, p);
          NeverLoopError(m, offset);
          return Err(e);
        case Jump(to) =>
          if to in visited {
            LoopHasNoExpansion(m, p, to);
            return Err(PointerLoop);
          }
          if jumps >= MAX_JUMPS {
            TooManyJumps(m, p, to);
            return Err(PointerLoop);
          }
          visited := visited + {to};
          offset := to;
          jumps := jumps + 1;
          assert (p + [to])[..|p|] == p;
          p := p + [to];
        case Label(text, next) =>
          labels := labels + [text];
          offset := next;
          assert (p + [next])[..|p|] == p;
          p := p + [next];
      }
    }
  }

  lemma NeverLoopError(m: seq<byte>, offset: nat)
    ensures HopAt(m, offset).Bad? ==> HopAt(m, offset).error !in {ShortMessage, NoQuestion, PointerLoop}
    ensures HopAt(m, offset).Label? ==> offset < HopAt(m, offset).next <= |m|
  {
  }

  /** A path that has reached the end is the expansion. */
  lemma Finished(m: seq<byte>, p: seq<nat>)
    requires IsExpansion(m, p)
    ensures forall q :: IsExpansion(m, q) ==> q == p
    ensures LabelsOn(m, p) == LabelsOn(m, p[..|p| - 1]) && JumpsOn(m, p) == JumpsOn(m, p[..|p| - 1])
  {
    hide HopAt;
    forall q | IsExpansion(m, q) ensures q == p {
      PathBeginsExpansion(m, p, q);
      PathBeginsExpansion(m, q, p);
    }
  }

  /** The switch on the length byte, with the loop over the characters of a label. */
  method ReadHop(m: seq<byte>, offset: nat) returns (hop: Hop)
    ensures hop == HopAt(m, offset)
    ensures hop.Label? ==> offset < hop.next <= |m|
  {
    if offset >= |m| {
      return Bad(NameTruncated);
    }
    var length := m[offset];
    if length == 0 {
      return End;
    }
    if length >= 0xC0 {
      if offset + 1 >= |m| {
        return Bad(PointerTruncated);
      }
      var pointer := U16(length - 0xC0, m[offset + 1]);
      if pointer >= |m| {
        return Bad(PointerOutside);
      }
      return Jump(pointer);
    }
    if length >= 0x40 {
      return Bad(InvalidLabelType);
    }
    if offset + 1 + length > |m| {
      return Bad(LabelTruncated);
    }
    var text := m[offset + 1..offset + 1 + length];
    for i := 0 to |text|
      invariant forall j :: 0 <= j < i ==> Printable(text[j])
    {
      if !Printable(text[i]) {
        assert !AllPrintable(text);
        return Bad(UnsupportedCharacter);
      }
    }
    assert AllPrintable(text);
    hop := Label(text, offset + 1 + length);
  }
}
