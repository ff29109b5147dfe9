/**
 The hostname sniffer of the CONNECT tunnel (`internal/proxy/connect.go`): TLS records (section 5.1
 of RFC 8446), the ClientHello (section 4.1.2 of RFC 8446) and its server_name extension (section 3
 of RFC 6066), read from the client bytes seen so far.
 */
module Sniffer {
  import opened Wrappers
  import opened Bytes

  const MAX_INITIAL := 64 * 1024

  datatype Sniff = NeedMore | Resolved(host: seq<byte>) | Unavailable

  // ----- Hostnames -----

  const DOT: byte := 0x2E
  const DASH: byte := 0x2D

  /** `strings.TrimSuffix(host, ".")` */
  function TrimDot(host: seq<byte>): seq<byte> {
    if host != [] && host[|host| - 1] == DOT then host[..|host| - 1] else host
  }

  /** `strings.Split(host, ".")`: at least one label, none of them with a dot. */
  function Labels(host: seq<byte>): (ls: seq<seq<byte>>)
    ensures |ls| >= 1
  {
    if host == [] then [[]]
    else
      var ls := Labels(host[1..]);
      if host[0] == DOT then [[]] + ls else [[host[0]] + ls[0]] + ls[1..]
  }

  predicate IsDigit(b: byte) { 0x30 <= b <= 0x39 }

  predicate IsLetterDigitDash(b: byte) {
    0x61 <= b <= 0x7A || 0x41 <= b <= 0x5A || IsDigit(b) || b == DASH
  }

  predicate ValidLabel(l: seq<byte>) {
    && 1 <= |l| <= 63
    && l[0] != DASH && l[|l| - 1] != DASH
    && forall i :: 0 <= i < |l| ==> IsLetterDigitDash(l[i])
  }

  function Decimal(s: seq<byte>): nat
    requires forall i :: 0 <= i < |s| ==> IsDigit(s[i])
  {
    if s == [] then 0
    else
      var last: int := s[|s| - 1];
      assert IsDigit(s[|s| - 1]);
      Decimal(s[..|s| - 1]) * 10 + (last - 0x30)
  }

  /** A decimal octet without leading zeros. */
  predicate IsOctet(s: seq<byte>) {
    && 1 <= |s| <= 3
    && (forall i :: 0 <= i < |s| ==> IsDigit(s[i]))
    && (s[0] == 0x30 ==> |s| == 1)
    && Decimal(s) <= 255
  }

  /** What `net.ParseIP` accepts among names without a colon: dotted decimal IPv4. */
  predicate IsIPv4(host: seq<byte>) {
    |Labels(host)| == 4 && forall i :: 0 <= i < 4 ==> IsOctet(Labels(host)[i])
  }

  /** A name with a colon, which may be an IPv6 address, fails the label test in any case. */
  predicate ValidHostname(host: seq<byte>) {
    var h := TrimDot(host);
    && 1 <= |h| <= 253
    && !IsIPv4(h)
    && forall i :: 0 <= i < |Labels(h)| ==> ValidLabel(Labels(h)[i])
  }

  // ----- Which names are usable -----

  ghost predicate DotFree(ls: seq<seq<byte>>) {
    forall i :: 0 <= i < |ls| ==> 0x2E !in ls[i]
  }

  lemma {:induction false} LabelsOfFirst(l: seq<byte>, rest: seq<byte>)
    requires 0x2E !in l
    ensures Labels(l) == [l] && Labels(l + [0x2E] + rest) == [l] + Labels(rest)
  {
    var s := l + [0x2E] + rest;
    if l == [] {
      assert s[0] == 0x2E && s[1..] == rest;
    } else {
      assert s[0] == l[0] != 0x2E && s[1..] == l[1..] + [0x2E] + rest;
      LabelsOfFirst(l[1..], rest);
      assert [l[0]] + l[1..] == l;
      assert Labels(s) == [[l[0]] + l[1..]] + Labels(rest);
    }
  }

  /** Splitting undoes joining. */
  lemma {:induction false} LabelsOfDotted(ls: seq<seq<byte>>)
    requires ls != [] && DotFree(ls)
    ensures Labels(Dotted(ls)) == ls
  {
    hide Labels;
    if |ls| == 1 {
      LabelsOfFirst(ls[0], []);
      assert ls == [ls[0]];
    } else {
      LabelsOfFirst(ls[0], Dotted(ls[1..]));
      LabelsOfDotted(ls[1..]);
      assert ls == [ls[0]] + ls[1..];
    }
  }

  lemma PrependToFirst(b: byte, ls: seq<seq<byte>>)
    requires ls != []
    ensures Dotted([[b] + ls[0]] + ls[1..]) == [b] + Dotted(ls)
  {
    var longer := [[b] + ls[0]] + ls[1..];
    assert longer[1..] == ls[1..] && longer[0] == [b] + ls[0];
    if |ls| > 1 {
      assert [b] + ls[0] + [0x2E] + Dotted(ls[1..]) == [b] + (ls[0] + [0x2E] + Dotted(ls[1..]));
    }
  }

  lemma PrependEmpty(ls: seq<seq<byte>>)
    requires ls != []
    ensures Dotted([[]] + ls) == [0x2E] + Dotted(ls)
  {
    var longer := [[]] + ls;
    assert longer[1..] == ls && longer[0] == [];
    assert Dotted(longer) == [] + [0x2E] + Dotted(ls);
  }

  /** Joining undoes splitting. */
  lemma {:induction false} DottedOfLabels(host: seq<byte>)
    ensures Dotted(Labels(host)) == host && DotFree(Labels(host))
  {
    if host != [] {
      var ls := Labels(host[1..]);
      DottedOfLabels(host[1..]);
      PrependToFirst(host[0], ls);
      PrependEmpty(ls);
      assert host == [host[0]] + host[1..];
    }
  }

  /** One to 63 letters, digits and hyphens, with no hyphen at either end. */
  predicate HostLabel(l: seq<byte>) {
    && 1 <= |l| <= 63 && l[0] != 0x2D && l[|l| - 1] != 0x2D
    && forall i :: 0 <= i < |l| ==>
        0x30 <= l[i] <= 0x39 || 0x41 <= l[i] <= 0x5A || 0x61 <= l[i] <= 0x7A || l[i] == 0x2D
  }

  /** The decimal text of a number up to 255. */
  predicate OctetText(s: seq<byte>) {
    && (forall i :: 0 <= i < |s| ==> 0x30 <= s[i] <= 0x39)
    && (|| |s| == 1
        || (|s| == 2 && s[0] != 0x30)
        || (|s| == 3 && (s[0] == 0x31 || (s[0] == 0x32 && (s[1] < 0x35 || (s[1] == 0x35 && s[2] <= 0x35))))))
  }

  predicate UsableLabels(ls: seq<seq<byte>>) {
    && (forall i :: 0 <= i < |ls| ==> HostLabel(ls[i]))
    && |Dotted(ls)| <= 253
    && !(|ls| == 4 && forall i :: 0 <= i < 4 ==> OctetText(ls[i]))
  }

  lemma OctetIsText(s: seq<byte>)
    ensures IsOctet(s) <==> OctetText(s)
  {
    if 1 <= |s| <= 3 && forall i :: 0 <= i < |s| ==> IsDigit(s[i]) {
      DecimalOfFew(s);
    }
  }

  lemma DecimalOfFew(s: seq<byte>)
    requires 1 <= |s| <= 3 && forall i :: 0 <= i < |s| ==> IsDigit(s[i])
    ensures |s| == 1 ==> Decimal(s) + 0x30 == s[0]
    ensures |s| == 2 ==> Decimal(s) == Weight10(0x30, s[0], s[1])
    ensures |s| == 3 ==> Decimal(s) == Weight10(s[0], s[1], s[2])
  {
    assert Decimal(s[..0]) == 0;
    if |s| >= 2 {
      assert s[..2][..1] == s[..1] && s[..1][..0] == s[..0];
      assert Decimal(s[..1]) == Weight10(0x30, 0x30, s[0]);
      assert |s| == 3 ==> Decimal(s[..2]) == Weight10(0x30, s[0], s[1]);
    }
  }

  function Weight10(a: int, b: int, c: int): int {
    100 * (a - 0x30) + 10 * (b - 0x30) + (c - 0x30)
  }

  /** A host, with or without a dot at its end, is usable exactly if its labels are. */
  lemma UsableIff(host: seq<byte>, ls: seq<seq<byte>>)
    requires ls != [] && DotFree(ls)
    requires (host == Dotted(ls) && (host == [] || host[|host| - 1] != 0x2E)) || host == Dotted(ls) + [0x2E]
    ensures Usable(host) == if UsableLabels(ls) then Some(Lower(host)) else None
  {
    hide Labels, Dotted, Lower, OctetText, IsOctet;
    LabelsOfDotted(ls);
    assert TrimDot(host) == Dotted(ls);
    forall i | 0 <= i < |ls| ensures IsOctet(ls[i]) == OctetText(ls[i]) && HostLabel(ls[i]) == ValidLabel(ls[i]) {
      OctetIsText(ls[i]);
      HostLabelIsValid(ls[i]);
    }
    if UsableLabels(ls) {
      NotEmpty(ls);
    }
  }

  /** Every host has such labels. */
  lemma HostHasLabels(host: seq<byte>) returns (ls: seq<seq<byte>>)
    ensures ls != [] && DotFree(ls)
    ensures (host == Dotted(ls) && (host == [] || host[|host| - 1] != 0x2E)) || host == Dotted(ls) + [0x2E]
  {
    var h := TrimDot(host);
    ls := Labels(h);
    DottedOfLabels(h);
  }

  lemma HostLabelIsValid(l: seq<byte>)
    ensures HostLabel(l) == ValidLabel(l)
  {
  }

  lemma NotEmpty(ls: seq<seq<byte>>)
    requires ls != [] && HostLabel(ls[0])
    ensures |Dotted(ls)| >= 1
  {
  }

  // ----- The server_name extension -----

  /** The first host_name of a ServerNameList. */
  function NameIn(list: seq<byte>): Option<seq<byte>> {
    if |list| < 3 then None
    else
      var n := U16(list[1], list[2]);
      if n > |list| - 3 then None
      else if list[0] == 0 then
        var host := list[3..3 + n];
        if ValidHostname(host) then Some(Lower(host)) else None
      else NameIn(list[3 + n..])
  }

  function NameInExtension(extension: seq<byte>): Option<seq<byte>> {
    if |extension| < 2 then None
    else
      var n := U16(extension[0], extension[1]);
      if n > |extension| - 2 then None else NameIn(extension[2..2 + n])
  }

  /** The name in the first server_name extension of an extension block. */
  function NameInExtensions(block: seq<byte>): Option<seq<byte>> {
    if |block| < 4 then None
    else
      var n := U16(block[2], block[3]);
      if n > |block| - 4 then None
      else if U16(block[0], block[1]) == 0 then NameInExtension(block[4..4 + n])
      else NameInExtensions(block[4 + n..])
  }

  /** Where the extension block of a ClientHello body lies, if its fixed part is well formed. */
  datatype Span = Span(start: nat, end: nat)

  function ExtensionSpan(hello: seq<byte>): (r: Option<Span>)
    ensures r.Some? ==> r.value.start <= r.value.end <= |hello|
  {
    if |hello| < 35 then None
    else
      var sessionLength: int := hello[34];
      var session := 35 + sessionLength;
      if session + 2 > |hello| then None
      else
        var cipherLength := U16(hello[session], hello[session + 1]);
        var ciphers := session + 2 + cipherLength;
        if cipherLength == 0 || ciphers + 1 > |hello| then None
        else
          var compressionLength: int := hello[ciphers];
          var compression := ciphers + 1 + compressionLength;
          if compression + 2 > |hello| then None
          else
            var n := U16(hello[compression], hello[compression + 1]);
            if n > |hello| - (compression + 2) then None
            else Some(Span(compression + 2, compression + 2 + n))
  }

  function NameInHello(hello: seq<byte>): Option<seq<byte>> {
    match ExtensionSpan(hello)
    case None => None
    case Some(Span(start, end)) => NameInExtensions(hello[start..end])
  }

  // ----- Records -----

  function ToSniff(name: Option<seq<byte>>): Sniff {
    match name
    case None => Unavailable
    case Some(host) => Resolved(host)
  }

  function U24(a: byte, b: byte, c: byte): nat {
    a * 0x1_0000 + U16(b, c)
  }

  /** The verdict on the handshake bytes gathered so far, if there is one. */
  function Judge(handshake: seq<byte>): Option<Sniff> {
    if |handshake| < 4 then None
    else if handshake[0] != 0x01 then Some(Unavailable)
    else
      var n := U24(handshake[1], handshake[2], handshake[3]);
      if n > MAX_INITIAL - 4 then Some(Unavailable)
      else if |handshake| < 4 + n then None
      else Some(ToSniff(NameInHello(handshake[4..4 + n])))
  }

  /** `sniffTLSClientHello` from a record boundary, with the handshake bytes of earlier records. */
  function SniffRecords(s: seq<byte>, handshake: seq<byte>): Sniff
    decreases |s|
  {
    if |s| < 5 then NeedMore
    else if s[0] != 0x16 then Unavailable
    else
      var n := U16(s[3], s[4]);
      if n == 0 || n > MAX_INITIAL || |handshake| + n > MAX_INITIAL then Unavailable
      else if |s| - 5 < n then NeedMore
      else
        var h := handshake + s[5..5 + n];
        match Judge(h)
        case Some(verdict) => verdict
        case None => SniffRecords(s[5 + n..], h)
  }

  /** `sniffHostname`; what HTTP parsing makes of other bytes is a parameter. */
  function Sniffed(payload: seq<byte>, port: nat, http: seq<byte> -> Sniff): Sniff {
    if payload == [] then NeedMore
    else if payload[0] == 0x16 then SniffRecords(payload, [])
    else if port == 443 || port == 8443 then Unavailable
    else http(payload)
  }

  /** A verdict is final: no further bytes change it. */
  lemma {:induction false} VerdictIsFinal(s: seq<byte>, t: seq<byte>, handshake: seq<byte>)
    requires SniffRecords(s, handshake) != NeedMore
    ensures SniffRecords(s + t, handshake) == SniffRecords(s, handshake)
    decreases |s|
  {
    hide Judge;
    if s[0] == 0x16 {
      var n := U16(s[3], s[4]);
      if 0 < n <= MAX_INITIAL - |handshake| {
        assert (s + t)[5..5 + n] == s[5..5 + n] && (s + t)[5 + n..] == s[5 + n..] + t;
        var h := handshake + s[5..5 + n];
        if Judge(h).None? {
          VerdictIsFinal(s[5 + n..], t, h);
        }
      }
    }
  }

  // ----- What a client sends -----

  /** What a 16-bit length can announce. */
  type Short = s: seq<byte> | |s| < 0x1_0000

  datatype Name = Name(kind: byte, name: Short)

  datatype Extension = Extension(kind: uint16, data: Short)

  datatype Record = Record(major: byte, minor: byte, fragment: Short)

  function Block16(s: Short): (b: seq<byte>)
    ensures |b| == 2 + |s|
  {
    PutU16(|s|) + s
  }

  function Names(ns: seq<Name>): seq<byte> {
    if ns == [] then [] else [ns[0].kind] + Block16(ns[0].name) + Names(ns[1..])
  }

  function Extensions(es: seq<Extension>): seq<byte> {
    if es == [] then [] else PutU16(es[0].kind) + Block16(es[0].data) + Extensions(es[1..])
  }

  /** A ClientHello body with an extension block. */
  function Hello(fixed: seq<byte>, session: seq<byte>, ciphers: Short, compression: seq<byte>, block: Short): seq<byte>
    requires |fixed| == 34 && |session| < 0x100 && 0 < |ciphers| && |compression| < 0x100
  {
    fixed + [|session|] + session + Block16(ciphers) + [|compression|] + compression + Block16(block)
  }

  function HandshakeMessage(hello: seq<byte>): seq<byte>
    requires |hello| <= MAX_INITIAL - 4
  {
    [0x01, 0x00] + PutU16(|hello|) + hello
  }

  function Records(rs: seq<Record>): seq<byte> {
    if rs == [] then []
    else [0x16, rs[0].major, rs[0].minor] + Block16(rs[0].fragment) + Records(rs[1..])
  }

  function Fragments(rs: seq<Record>): seq<byte> {
    if rs == [] then [] else rs[0].fragment + Fragments(rs[1..])
  }

  /** The host of the first host_name entry, lower-cased, if the tunnel may use it. */
  function Usable(host: seq<byte>): Option<seq<byte>> {
    if ValidHostname(host) then Some(Lower(host)) else None
  }

  lemma FirstName(kind: byte, name: Short, next: seq<byte>)
    ensures NameIn([kind] + Block16(name) + next) == if kind == 0 then Usable(name) else NameIn(next)
  {
    hide PutU16, U16, ValidHostname, Lower;
    var list := [kind] + Block16(name) + next;
    assert list[1] == PutU16(|name|)[0] && list[2] == PutU16(|name|)[1];
    assert list[3..3 + |name|] == name && list[3 + |name|..] == next;
  }

  lemma {:induction false} NameInNames(ns: seq<Name>, host: Short, rest: seq<byte>)
    requires forall i :: 0 <= i < |ns| ==> ns[i].kind != 0
    ensures NameIn(Names(ns) + ([0] + Block16(host) + rest)) == Usable(host)
  {
    hide NameIn, Usable, Block16;
    var tail := [0] + Block16(host) + rest;
    if ns == [] {
      assert Names(ns) + tail == tail;
      FirstName(0, host, rest);
    } else {
      var next := Names(ns[1..]) + tail;
      assert Names(ns) + tail == [ns[0].kind] + Block16(ns[0].name) + next;
      FirstName(ns[0].kind, ns[0].name, next);
      NameInNames(ns[1..], host, rest);
    }
  }

  lemma FirstExtension(kind: uint16, data: Short, next: seq<byte>)
    ensures NameInExtensions(PutU16(kind) + Block16(data) + next)
            == if kind == 0 then NameInExtension(data) else NameInExtensions(next)
  {
    hide PutU16, NameInExtension;
    var n := |data|;
    var block := PutU16(kind) + Block16(data) + next;
    assert block[0] == PutU16(kind)[0] && block[1] == PutU16(kind)[1];
    assert block[2] == PutU16(n)[0] && block[3] == PutU16(n)[1];
    assert block[4..4 + n] == data && block[4 + n..] == next;
  }

  lemma {:induction false} NameInBlock(es: seq<Extension>, data: Short, rest: seq<byte>)
    requires forall i :: 0 <= i < |es| ==> es[i].kind != 0
    ensures NameInExtensions(Extensions(es) + (PutU16(0) + Block16(data) + rest)) == NameInExtension(data)
  {
    hide PutU16, NameInExtension, NameInExtensions, Block16;
    var tail := PutU16(0) + Block16(data) + rest;
    if es == [] {
      FirstExtension(0, data, rest);
      assert Extensions(es) + tail == tail;
    } else {
      var next := Extensions(es[1..]) + tail;
      assert Extensions(es) + tail == PutU16(es[0].kind) + Block16(es[0].data) + next;
      FirstExtension(es[0].kind, es[0].data, next);
      NameInBlock(es[1..], data, rest);
    }
  }

  /** The span of a body whose session, ciphers and compression end at `a`, `b` and `c`. */
  lemma SpanAt(hello: seq<byte>, a: nat, b: nat, c: nat, n: nat)
    requires 35 <= a < a + 2 < b < c && c + 2 + n <= |hello|
    requires a - 35 == hello[34] && b == a + 2 + U16(hello[a], hello[a + 1])
    requires c - b - 1 == hello[b] && n == U16(hello[c], hello[c + 1])
    ensures ExtensionSpan(hello) == Some(Span(c + 2, c + 2 + n))
  {
  }

  /** A body has an extension block only if each length before it fits and there is a cipher. */
  lemma SpanOnlyIf(hello: seq<byte>) returns (a: nat, n: nat, c: nat)
    requires ExtensionSpan(hello).Some?
    ensures 35 <= |hello| && a == hello[34] as int + 35 && a + 2 <= |hello|
    ensures n == Weighted(0, 0, hello[a], hello[a + 1]) && n > 0 && a + 2 + n < |hello|
    ensures c == a + 3 + n + hello[a + 2 + n] as int && c + 2 <= |hello|
    ensures ExtensionSpan(hello) == Some(Span(c + 2, c + 2 + Weighted(0, 0, hello[c], hello[c + 1])))
  {
    hide U16, Weighted;
    a := hello[34] as int + 35;
    U16IsBigEndian(hello[a], hello[a + 1]);
    n := U16(hello[a], hello[a + 1]);
    c := a + 3 + n + hello[a + 2 + n] as int;
    U16IsBigEndian(hello[c], hello[c + 1]);
  }

  /** A server_name extension is a list of the length it announces, which must fit. */
  lemma ExtensionRules(e: seq<byte>)
    ensures |e| < 2 ==> NameInExtension(e) == None
    ensures |e| >= 2 ==>
              var n := Weighted(0, 0, e[0], e[1]);
              NameInExtension(e) == if n > |e| - 2 then None else NameIn(e[2..2 + n])
  {
    hide U16, NameIn;
    if |e| >= 2 {
      U16IsBigEndian(e[0], e[1]);
    }
  }

  lemma SpanOfHello(fixed: seq<byte>, session: seq<byte>, ciphers: Short, compression: seq<byte>, block: Short)
    requires |fixed| == 34 && |session| < 0x100 && 0 < |ciphers| && |compression| < 0x100
    ensures var hello := Hello(fixed, session, ciphers, compression, block);
            var r := ExtensionSpan(hello);
            r.Some? && hello[r.value.start..r.value.end] == block
  {
    hide PutU16, ExtensionSpan, U16;
    var hello := Hello(fixed, session, ciphers, compression, block);
    var a := 35 + |session|;
    var b := a + 2 + |ciphers|;
    var c := b + 1 + |compression|;
    assert hello[34] == |session|;
    assert hello[a] == PutU16(|ciphers|)[0] && hello[a + 1] == PutU16(|ciphers|)[1];
    assert hello[b] == |compression|;
    assert hello[c] == PutU16(|block|)[0] && hello[c + 1] == PutU16(|block|)[1];
    assert hello[c + 2..c + 2 + |block|] == block;
    SpanAt(hello, a, b, c, |block|);
  }

  /** A complete handshake message is judged; any proper prefix of it is not. */
  lemma JudgeMessage(hello: seq<byte>, k: nat)
    requires |hello| <= MAX_INITIAL - 4 && k <= |HandshakeMessage(hello)|
    ensures Judge(HandshakeMessage(hello)[..k])
            == if k == |HandshakeMessage(hello)| then Some(ToSniff(NameInHello(hello))) else None
  {
    hide PutU16, NameInHello;
    var m := HandshakeMessage(hello);
    assert |m| == 4 + |hello|;
    if k >= 4 {
      assert m[2] == PutU16(|hello|)[0] && m[3] == PutU16(|hello|)[1];
      assert U24(m[1], m[2], m[3]) == |hello|;
      if k == |m| {
        assert m[..k][4..k] == hello;
      }
    }
  }

  lemma FirstRecord(r: Record, next: seq<byte>, handshake: seq<byte>)
    requires r.fragment != [] && |handshake| + |r.fragment| <= MAX_INITIAL
    ensures SniffRecords([0x16, r.major, r.minor] + Block16(r.fragment) + next, handshake) ==
            match Judge(handshake + r.fragment)
            case Some(verdict) => verdict
            case None => SniffRecords(next, handshake + r.fragment)
  {
    hide PutU16, U16, Judge;
    var n := |r.fragment|;
    var s := [0x16, r.major, r.minor] + Block16(r.fragment) + next;
    assert s[3] == PutU16(n)[0] && s[4] == PutU16(n)[1];
    assert s[5..5 + n] == r.fragment && s[5 + n..] == next;
  }

  /** When gathered handshake bytes are judged, and how. */
  lemma JudgeRules(h: seq<byte>)
    ensures |h| < 4 ==> Judge(h) == None
    ensures |h| >= 4 && h[0] != 0x01 ==> Judge(h) == Some(Unavailable)
    ensures |h| >= 4 && h[0] == 0x01 ==>
              var n := Weighted(0, h[1], h[2], h[3]);
              Judge(h) == if n > 65532 then Some(Unavailable)
                          else if |h| < 4 + n then None
                          else match NameInHello(h[4..4 + n])
                               case Some(host) => Some(Resolved(host))
                               case None => Some(Unavailable)
  {
    hide NameInHello, U16;
    if |h| >= 4 {
      U16IsBigEndian(h[2], h[3]);
    }
  }

  /** A record whose length is written 01 00 holds 256 bytes. */
  lemma RecordOf256(fragment: seq<byte>, next: seq<byte>)
    requires |fragment| == 256
    ensures SniffRecords([0x16, 0x03, 0x01, 0x01, 0x00] + fragment + next, []) ==
            match Judge(fragment)
            case Some(verdict) => verdict
            case None => SniffRecords(next, fragment)
  {
    hide Judge;
    var s := [0x16, 0x03, 0x01, 0x01, 0x00] + fragment + next;
    assert s[5..261] == fragment && s[261..] == next && [] + fragment == fragment;
  }

  /** However a message is cut into non-empty records, the sniffer judges exactly that message. */
  lemma {:induction false} SniffsWholeMessage(rs: seq<Record>, hello: seq<byte>, seen: nat, rest: seq<byte>)
    requires |hello| <= MAX_INITIAL - 4 && seen <= |HandshakeMessage(hello)|
    requires rs != [] && forall i :: 0 <= i < |rs| ==> rs[i].fragment != []
    requires Fragments(rs) == HandshakeMessage(hello)[seen..]
    ensures SniffRecords(Records(rs) + rest, HandshakeMessage(hello)[..seen]) == ToSniff(NameInHello(hello))
    decreases |rs|
  {
    hide SniffRecords, Judge, HandshakeMessage, NameInHello, Block16;
    var m := HandshakeMessage(hello);
    var f := rs[0].fragment;
    var n := |f|;
    var next := Records(rs[1..]) + rest;
    assert Records(rs) + rest == [0x16, rs[0].major, rs[0].minor] + Block16(f) + next;
    assert f == Fragments(rs)[..n] && m[..seen] + f == m[..seen + n];
    MessageLength(hello);
    FirstRecord(rs[0], next, m[..seen]);
    JudgeMessage(hello, seen + n);
    if rs[1..] == [] {
      assert Fragments(rs) == f + [];
      assert seen + n == |m|;
    } else {
      assert Fragments(rs[1..]) == Fragments(rs)[n..] == m[seen + n..];
      assert |Fragments(rs[1..])| > 0;
      SniffsWholeMessage(rs[1..], hello, seen + n, rest);
    }
  }

  lemma MessageLength(hello: seq<byte>)
    requires |hello| <= MAX_INITIAL - 4
    ensures |HandshakeMessage(hello)| == 4 + |hello|
  {
  }

  /**
   For every well-formed ClientHello whose server_name extension comes after extensions of other
   types and whose host_name comes after names of other types, every split of it into non-empty
   records, and whatever follows: the sniffer answers with the lower-cased host, or that there is
   no usable one.
   */
  lemma SnifferFindsHost(fixed: seq<byte>, session: seq<byte>, ciphers: Short, compression: seq<byte>,
                         es: seq<Extension>, ns: seq<Name>, host: Short, moreNames: seq<byte>, moreExtensions: seq<byte>,
                         rs: seq<Record>, rest: seq<byte>)
    requires |fixed| == 34 && |session| < 0x100 && 0 < |ciphers| && |compression| < 0x100
    requires forall i :: 0 <= i < |es| ==> es[i].kind != 0
    requires forall i :: 0 <= i < |ns| ==> ns[i].kind != 0
    requires |NameList(ns, host, moreNames)| < 0x1_0000 - 2
    requires |ExtensionBlock(es, NameList(ns, host, moreNames), moreExtensions)| < 0x1_0000
    requires |Hello(fixed, session, ciphers, compression,
                    ExtensionBlock(es, NameList(ns, host, moreNames), moreExtensions))| <= MAX_INITIAL - 4
    requires rs != [] && forall i :: 0 <= i < |rs| ==> rs[i].fragment != []
    requires Fragments(rs) == HandshakeMessage(Hello(fixed, session, ciphers, compression,
                                ExtensionBlock(es, NameList(ns, host, moreNames), moreExtensions)))
    ensures SniffRecords(Records(rs) + rest, []) == ToSniff(Usable(host))
  {
    hide PutU16, Judge, NameIn, NameInExtensions, ExtensionSpan;
    var list: Short := NameList(ns, host, moreNames);
    var block: Short := ExtensionBlock(es, list, moreExtensions);
    var hello := Hello(fixed, session, ciphers, compression, block);
    var data: Short := Block16(list);
    NameInNames(ns, host, moreNames);
    assert data[0] == PutU16(|list|)[0] && data[1] == PutU16(|list|)[1] && data[2..2 + |list|] == list;
    assert NameInExtension(data) == Usable(host);
    NameInBlock(es, data, moreExtensions);
    SpanOfHello(fixed, session, ciphers, compression, block);
    assert NameInHello(hello) == Usable(host);
    assert HandshakeMessage(hello)[0..] == HandshakeMessage(hello) && HandshakeMessage(hello)[..0] == [];
    SniffsWholeMessage(rs, hello, 0, rest);
  }

  function NameList(ns: seq<Name>, host: Short, more: seq<byte>): seq<byte> {
    Names(ns) + ([0] + Block16(host) + more)
  }

  function ExtensionBlock(es: seq<Extension>, list: seq<byte>, more: seq<byte>): seq<byte>
    requires |list| < 0x1_0000 - 2
  {
    Extensions(es) + (PutU16(0) + Block16(Block16(list)) + more)
  }

  /** The ClientHello of a name with nothing else in it, in one record, is small and shows the name. */
  lemma PlainHello(host: Short) returns (hello: seq<byte>, r: Record)
    requires |host| <= 254
    ensures |hello| <= 1000 && r.fragment == HandshakeMessage(hello)
    ensures 5 < |Records([r])| <= 2000 && Records([r])[0] == 0x16
    ensures forall rest :: SniffRecords(Records([r]) + rest, []) == ToSniff(Usable(host))
  {
    hide PutU16, SniffRecords, Usable;
    var fixed := seq(34, _ => 0);
    var list := NameList([], host, []);
    var block := ExtensionBlock([], list, []);
    assert Names([]) == [] && Extensions([]) == [];
    assert |list| == 3 + |host| && |block| == 9 + |host|;
    hello := Hello(fixed, [], [0x13, 0x01], [0], block);
    r := Record(3, 1, HandshakeMessage(hello));
    var rs := [r];
    assert Records(rs[1..]) == [] && Fragments(rs) == r.fragment + [];
    assert Records(rs) == [0x16, 3, 1] + Block16(r.fragment) + [];
    forall rest ensures SniffRecords(Records([r]) + rest, []) == ToSniff(Usable(host)) {
      SnifferFindsHost(fixed, [], [0x13, 0x01], [0], [], [], host, [], [], rs, rest);
    }
  }

  /** The name a.b is usable. */
  lemma ShortNameIsUsable()
    ensures Usable([0x61, 0x2E, 0x62]) == Some([0x61, 0x2E, 0x62])
  {
    hide Usable;
    var ls := [[0x61], [0x62]];
    assert ls[1..] == [[0x62]] && Dotted(ls) == [0x61] + [0x2E] + [0x62];
    assert Dotted(ls) == [0x61, 0x2E, 0x62];
    UsableIff([0x61, 0x2E, 0x62], ls);
    assert Lower([0x61, 0x2E, 0x62]) == [0x61, 0x2E, 0x62];
  }

  // ----- The loops -----

  /** `validProxyHostname` */
  method ValidProxyHostname(host: seq<byte>) returns (valid: bool)
    ensures valid == ValidHostname(host)
  {
    var trimmed := TrimDot(host);
    if |trimmed| == 0 || |trimmed| > 253 || IsIPv4(trimmed) {
      return false;
    }
    var labels := Labels(trimmed);
    for i := 0 to |labels|
      invariant forall j :: 0 <= j < i ==> ValidLabel(labels[j])
    {
      var l := labels[i];
      if |l| == 0 || |l| > 63 || l[0] == DASH || l[|l| - 1] == DASH {
        return false;
      }
      for k := 0 to |l|
        invariant forall j :: 0 <= j < k ==> IsLetterDigitDash(l[j])
      {
        if !IsLetterDigitDash(l[k]) {
          return false;
        }
      }
    }
    valid := true;
  }

  /** `serverNameFromExtension` */
  method ServerNameFromExtension(extension: seq<byte>) returns (name: Option<seq<byte>>)
    ensures name == NameInExtension(extension)
  {
    if |extension| < 2 {
      return None;
    }
    var listLength := U16(extension[0], extension[1]);
    if listLength > |extension| - 2 {
      return None;
    }
    name := FirstHostName(extension, 2, 2 + listLength);
  }

  /** One turn of the loop over the name list. */
  lemma NameInAt(s: seq<byte>, a: nat, b: nat)
    requires a <= b <= |s|
    ensures NameIn(s[a..b]) ==
            if b - a < 3 then None
            else
              var n := U16(s[a + 1], s[a + 2]);
              if n > b - a - 3 then None
              else if s[a] == 0 then Usable(s[a + 3..a + 3 + n])
              else NameIn(s[a + 3 + n..b])
  {
    hide U16, ValidHostname, Lower;
    if b - a >= 3 {
      var n := U16(s[a + 1], s[a + 2]);
      if n <= b - a - 3 {
        SliceOfSlice(s, a, b, 3, 3 + n);
        SliceOfSlice(s, a, b, 3 + n, b - a);
      }
    }
  }

  /** The loop over the name list. */
  method FirstHostName(extension: seq<byte>, start: nat, end: nat) returns (name: Option<seq<byte>>)
    requires start <= end <= |extension|
    ensures name == NameIn(extension[start..end])
  {
    hide NameIn, U16, ValidHostname, Lower;
    var offset := start;
    while offset + 3 <= end
      invariant start <= offset <= end
      invariant NameIn(extension[start..end]) == NameIn(extension[offset..end])
    {
      NameInAt(extension, offset, end);
      var nameType := extension[offset];
      var nameLength := U16(extension[offset + 1], extension[offset + 2]);
      offset := offset + 3;
      if nameLength > end - offset {
        return None;
      }
      if nameType == 0 {
        var host := extension[offset..offset + nameLength];
        var valid := ValidProxyHostname(host);
        return if valid then Some(Lower(host)) else None;
      }
      offset := offset + nameLength;
    }
    NameInAt(extension, offset, end);
    name := None;
  }

  /** `clientHelloServerName` */
  method ClientHelloServerName(hello: seq<byte>) returns (name: Option<seq<byte>>)
    ensures name == NameInHello(hello)
  {
    hide NameInExtension;
    if |hello| < 35 {
      return None;
    }
    var offset: int := 34;
    var sessionLength: int := hello[offset];
    offset := offset + 1;
    if offset + sessionLength + 2 > |hello| {
      return None;
    }
    offset := offset + sessionLength;
    var cipherLength := U16(hello[offset], hello[offset + 1]);
    offset := offset + 2;
    if cipherLength == 0 || offset + cipherLength + 1 > |hello| {
      return None;
    }
    offset := offset + cipherLength;
    var compressionLength: int := hello[offset];
    offset := offset + 1;
    if offset + compressionLength + 2 > |hello| {
      return None;
    }
    offset := offset + compressionLength;
    var extensionsLength := U16(hello[offset], hello[offset + 1]);
    offset := offset + 2;
    if extensionsLength > |hello| - offset {
      return None;
    }
    var end := offset + extensionsLength;
    assert ExtensionSpan(hello) == Some(Span(offset, end));
    name := FirstServerName(hello, offset, end);
  }

  /** One turn of the loop over the extension block. */
  lemma NameInExtensionsAt(s: seq<byte>, a: nat, b: nat)
    requires a <= b <= |s|
    ensures NameInExtensions(s[a..b]) ==
            if b - a < 4 then None
            else
              var n := U16(s[a + 2], s[a + 3]);
              if n > b - a - 4 then None
              else if U16(s[a], s[a + 1]) == 0 then NameInExtension(s[a + 4..a + 4 + n])
              else NameInExtensions(s[a + 4 + n..b])
  {
    hide U16, NameInExtension;
    if b - a >= 4 {
      var n := U16(s[a + 2], s[a + 3]);
      if n <= b - a - 4 {
        SliceOfSlice(s, a, b, 4, 4 + n);
        SliceOfSlice(s, a, b, 4 + n, b - a);
      }
    }
  }

  /** The loop over the extension block. */
  method FirstServerName(hello: seq<byte>, start: nat, end: nat) returns (name: Option<seq<byte>>)
    requires start <= end <= |hello|
    ensures name == NameInExtensions(hello[start..end])
  {
    hide NameInExtension, NameInExtensions, U16;
    var offset := start;
    while offset + 4 <= end
      invariant start <= offset <= end
      invariant NameInExtensions(hello[start..end]) == NameInExtensions(hello[offset..end])
    {
      NameInExtensionsAt(hello, offset, end);
      var extensionType := U16(hello[offset], hello[offset + 1]);
      var extensionLength := U16(hello[offset + 2], hello[offset + 3]);
      offset := offset + 4;
      if extensionLength > end - offset {
        return None;
      }
      if extensionType == 0 {
        name := ServerNameFromExtension(hello[offset..offset + extensionLength]);
        return;
      }
      offset := offset + extensionLength;
    }
    NameInExtensionsAt(hello, offset, end);
    name := None;
  }

  /** One turn of the loop over the records. */
  lemma SniffRecordsAt(s: seq<byte>, a: nat, handshake: seq<byte>)
    requires a <= |s|
    ensures SniffRecords(s[a..], handshake) ==
            if |s| - a < 5 then NeedMore
            else if s[a] != 0x16 then Unavailable
            else
              var n := U16(s[a + 3], s[a + 4]);
              if n == 0 || n > MAX_INITIAL || |handshake| + n > MAX_INITIAL then Unavailable
              else if |s| - a - 5 < n then NeedMore
              else
                var h := handshake + s[a + 5..a + 5 + n];
                match Judge(h)
                case Some(verdict) => verdict
                case None => SniffRecords(s[a + 5 + n..], h)
  {
    hide U16, Judge;
    if |s| - a >= 5 {
      var n := U16(s[a + 3], s[a + 4]);
      if n <= |s| - a - 5 {
        assert s[a..] == s[a..|s|] && s[a..][5 + n..] == s[a..][5 + n..|s| - a];
        SliceOfSlice(s, a, |s|, 5, 5 + n);
        SliceOfSlice(s, a, |s|, 5 + n, |s| - a);
      }
    }
  }

  /** `sniffTLSClientHello`: gathers records until the handshake message can be judged. */
  method SniffTLSClientHello(payload: seq<byte>) returns (r: Sniff)
    ensures r == SniffRecords(payload, [])
  {
    hide Judge, SniffRecords, U16;
    var handshake: seq<byte> := [];
    var offset := 0;
    assert payload[0..] == payload;
    while true
      invariant 0 <= offset <= |payload|
      invariant SniffRecords(payload, []) == SniffRecords(payload[offset..], handshake)
      decreases |payload| - offset
    {
      SniffRecordsAt(payload, offset, handshake);
      if |payload| - offset < 5 {
        return NeedMore;
      }
      if payload[offset] != 0x16 {
        return Unavailable;
      }
      var recordLength := U16(payload[offset + 3], payload[offset + 4]);
      if recordLength == 0 || recordLength > MAX_INITIAL || |handshake| + recordLength > MAX_INITIAL {
        return Unavailable;
      }
      if |payload| - offset - 5 < recordLength {
        return NeedMore;
      }
      handshake := handshake + payload[offset + 5..offset + 5 + recordLength];
      var verdict := JudgeHandshake(handshake);
      if verdict.Some? {
        return verdict.value;
      }
      offset := offset + 5 + recordLength;
      if offset == |payload| {
        SniffRecordsAt(payload, offset, handshake);
        return NeedMore;
      }
    }
  }

  /** The tests on the gathered handshake bytes. */
  method JudgeHandshake(handshake: seq<byte>) returns (verdict: Option<Sniff>)
    ensures verdict == Judge(handshake)
  {
    hide NameInHello;
    if |handshake| >= 4 {
      if handshake[0] != 0x01 {
        return Some(Unavailable);
      }
      var handshakeLength := U24(handshake[1], handshake[2], handshake[3]);
      if handshakeLength > MAX_INITIAL - 4 {
        return Some(Unavailable);
      }
      if |handshake| >= 4 + handshakeLength {
        var name := ClientHelloServerName(handshake[4..4 + handshakeLength]);
        return Some(ToSniff(name));
      }
    }
    verdict := None;
  }
}
