/**
 One pass over the nameservers of a resolver (`exchangeSelected` and `exchangeOne` in
 `internal/relay/dns.go`): one nameserver after the other until one answers, with a TCP retry for a
 truncated UDP answer. The network gives its k-th call any outcome.
 */
module DnsRound {
  import opened Wrappers
  import opened Bytes
  import opened Resolvers

  datatype Transport = Udp | Tcp

  /** One attempt to reach a nameserver. */
  datatype Attempt = Attempt(transport: Transport, server: Addr, port: uint16)

  type Network = nat -> Option<seq<byte>>

  predicate IsTruncated(response: seq<byte>) {
    |response| >= 4 && response[2] / 2 % 2 == 1
  }

  /** `validateDNSResponse`: long enough, the query's ID, and the response bit. */
  predicate IsAnswer(query: seq<byte>, response: seq<byte>)
    requires |query| >= 2
  {
    |response| >= 12 && query[..2] == response[..2] && response[2] >= 0x80
  }

  /** The third byte of a header, bit by bit (section 4.1.1 of RFC 1035). */
  lemma FlagsOfHeader(query: seq<byte>, m: seq<byte>, qr: int, opcode: int, aa: int, tc: int, rd: int)
    requires |query| >= 2 && |m| >= 12 && 0 <= qr <= 1 && 0 <= opcode <= 15 && 0 <= aa <= 1 && 0 <= tc <= 1 && 0 <= rd <= 1
    requires m[2] == 128 * qr + 8 * opcode + 4 * aa + 2 * tc + rd
    ensures IsTruncated(m) <==> tc == 1
    ensures IsAnswer(query, m) <==> qr == 1 && m[0] == query[0] && m[1] == query[1]
  {
    assert m[..2] == [m[0], m[1]] && query[..2] == [query[0], query[1]];
    assert m[2] / 2 == 64 * qr + 4 * opcode + 2 * aa + tc;
  }

  /** What one attempt makes of the outcome of its network call. */
  function Accepted(query: seq<byte>, received: Option<seq<byte>>): Option<seq<byte>>
    requires |query| >= 2
  {
    if received.Some? && IsAnswer(query, received.value) then received else None
  }

  lemma AcceptedIff(query: seq<byte>, received: Option<seq<byte>>)
    requires |query| >= 2
    ensures Accepted(query, received).Some? <==> received.Some? && IsAnswer(query, received.value)
    ensures Accepted(query, received).Some? ==> Accepted(query, received) == received
  {
  }

  /** A valid answer that is asked for again over TCP. */
  predicate NeedsTcp(transport: Transport, answer: Option<seq<byte>>) {
    transport.Udp? && answer.Some? && IsTruncated(answer.value)
  }

  datatype Asked = Asked(response: Option<seq<byte>>, attempts: seq<Attempt>)

  /** One nameserver, from network call `k` on. */
  function AskOne(transport: Transport, server: Addr, port: uint16, query: seq<byte>, net: Network, k: nat): Asked
    requires |query| >= 2
  {
    var first := Accepted(query, net(k));
    if NeedsTcp(transport, first)
    then Asked(Accepted(query, net(k + 1)), [Attempt(transport, server, port), Attempt(Tcp, server, port)])
    else Asked(first, [Attempt(transport, server, port)])
  }

  function Then(made: seq<Attempt>, a: Asked): Asked {
    a.(attempts := made + a.attempts)
  }

  /** All nameservers in turn; those without an IPv4 address are passed over. */
  function AskAll(transport: Transport, servers: seq<Addr>, port: uint16, query: seq<byte>, net: Network, k: nat): Asked
    requires |query| >= 2
    decreases |servers|
  {
    if servers == [] then Asked(None, [])
    else if !servers[0].V4? then AskAll(transport, servers[1..], port, query, net, k)
    else
      var one := AskOne(transport, servers[0], port, query, net, k);
      if one.response.Some? then one
      else Then(one.attempts, AskAll(transport, servers[1..], port, query, net, k + |one.attempts|))
  }

  /** One turn of the loop over the nameservers. */
  lemma AskAllFrom(transport: Transport, servers: seq<Addr>, i: nat, port: uint16, query: seq<byte>, net: Network, k: nat)
    requires |query| >= 2 && i <= |servers|
    ensures AskAll(transport, servers[i..], port, query, net, k) ==
            if i == |servers| then Asked(None, [])
            else if !servers[i].V4? then AskAll(transport, servers[i + 1..], port, query, net, k)
            else
              var one := AskOne(transport, servers[i], port, query, net, k);
              if one.response.Some? then one
              else Then(one.attempts, AskAll(transport, servers[i + 1..], port, query, net, k + |one.attempts|))
  {
    hide AskOne;
    if i < |servers| {
      assert servers[i..][0] == servers[i] && servers[i..][1..] == servers[i + 1..];
    }
  }

  lemma ThenThen(a: seq<Attempt>, b: seq<Attempt>, c: Asked)
    ensures Then(a, Then(b, c)) == Then(a + b, c)
  {
    assert a + (b + c.attempts) == a + b + c.attempts;
  }

  // ----- What a pass guarantees -----

  /**
   Attempt `i` took network call `k + i`. It ends the pass if and only if its outcome is usable, and then
   that is the response; it is followed by a TCP attempt at the same nameserver if its valid answer
   was a truncated one over UDP; and such an attempt has no other cause.
   */
  ghost predicate SoundAt(a: Asked, transport: Transport, query: seq<byte>, net: Network, k: nat, i: nat)
    requires |query| >= 2 && i < |a.attempts|
  {
    var at := a.attempts[i];
    var got := Accepted(query, net(k + i));
    && (got.Some? && !NeedsTcp(at.transport, got) <==> i == |a.attempts| - 1 && a.response.Some?)
    && (i == |a.attempts| - 1 && a.response.Some? ==> a.response == got)
    && (NeedsTcp(at.transport, got) ==>
          i + 1 < |a.attempts| && a.attempts[i + 1] == Attempt(Tcp, at.server, at.port))
    && (at.transport != transport ==>
          && i > 0 && a.attempts[i - 1] == Attempt(Udp, at.server, at.port)
          && NeedsTcp(Udp, Accepted(query, net(k + i - 1))))
  }

  ghost predicate Sound(a: Asked, transport: Transport, query: seq<byte>, net: Network, k: nat)
    requires |query| >= 2
  {
    && (a.response.Some? ==> a.attempts != [])
    && forall i :: 0 <= i < |a.attempts| ==> SoundAt(a, transport, query, net, k, i)
  }

  lemma OneIsSound(transport: Transport, server: Addr, port: uint16, query: seq<byte>, net: Network, k: nat)
    requires |query| >= 2
    ensures Sound(AskOne(transport, server, port, query, net, k), transport, query, net, k)
  {
    hide IsAnswer, IsTruncated;
  }

  lemma SoundThen(a: Asked, b: Asked, transport: Transport, query: seq<byte>, net: Network, k: nat)
    requires |query| >= 2 && a.response.None? && Sound(a, transport, query, net, k)
    requires Sound(b, transport, query, net, k + |a.attempts|)
    ensures Sound(Then(a.attempts, b), transport, query, net, k)
  {
    hide Accepted, NeedsTcp;
    var n := |a.attempts|;
    var c := Then(a.attempts, b);
    forall i | 0 <= i < |c.attempts| ensures SoundAt(c, transport, query, net, k, i) {
      if i < n {
        assert SoundAt(a, transport, query, net, k, i);
      } else {
        assert SoundAt(b, transport, query, net, k + n, i - n) && k + n + (i - n) == k + i;
      }
    }
  }

  /** Every attempt of a pass is accounted for. */
  lemma {:induction false} PassIsSound(
    transport: Transport, servers: seq<Addr>, port: uint16, query: seq<byte>, net: Network, k: nat)
    requires |query| >= 2
    ensures Sound(AskAll(transport, servers, port, query, net, k), transport, query, net, k)
    decreases |servers|
  {
    hide AskOne, Sound;
    if servers == [] {
      NothingIsSound(transport, query, net, k);
    } else if !servers[0].V4? {
      PassIsSound(transport, servers[1..], port, query, net, k);
    } else {
      var one := AskOne(transport, servers[0], port, query, net, k);
      OneIsSound(transport, servers[0], port, query, net, k);
      if one.response.None? {
        PassIsSound(transport, servers[1..], port, query, net, k + |one.attempts|);
        SoundThen(one, AskAll(transport, servers[1..], port, query, net, k + |one.attempts|), transport, query, net, k);
      }
    }
  }

  lemma NothingIsSound(transport: Transport, query: seq<byte>, net: Network, k: nat)
    requires |query| >= 2
    ensures Sound(Asked(None, []), transport, query, net, k)
  {
  }

  /**
   The attempts go to IPv4 nameservers in the order of the list: no nameserver is tried twice on one
   transport, and a second try of one is the TCP attempt right after the UDP one.
   */
  ghost predicate Follows(attempts: seq<Attempt>, pos: seq<nat>, servers: seq<Addr>, port: uint16) {
    && |pos| == |attempts|
    && (forall i :: 0 <= i < |pos| ==>
          pos[i] < |servers| && servers[pos[i]].V4? && attempts[i].server == servers[pos[i]] && attempts[i].port == port)
    && (forall i, j :: 0 <= i < j < |pos| ==>
          || pos[i] < pos[j]
          || (pos[i] == pos[j] && j == i + 1 && attempts[i].transport.Udp? && attempts[j].transport.Tcp?))
  }

  ghost predicate Covers(pos: seq<nat>, servers: seq<Addr>) {
    forall s :: 0 <= s < |servers| && servers[s].V4? ==> s in pos
  }

  /** `n` attempts at the first nameserver, and then those at the others. */
  function Shifted(n: nat, pos: seq<nat>): (all: seq<nat>)
    ensures |all| == n + |pos|
    ensures forall i :: 0 <= i < |all| ==> all[i] == if i < n then 0 else pos[i - n] + 1
  {
    seq(n + |pos|, i requires 0 <= i < n + |pos| => if i < n then 0 else pos[i - n] + 1)
  }

  lemma ShiftFollows(made: seq<Attempt>, attempts: seq<Attempt>, pos: seq<nat>, servers: seq<Addr>, port: uint16)
    requires servers != [] && Follows(attempts, pos, servers[1..], port)
    requires made == [] || (servers[0].V4? && Follows(made, Shifted(|made|, []), servers, port))
    ensures Follows(made + attempts, Shifted(|made|, pos), servers, port)
  {
    hide Shifted;
    var n := |made|;
    var all, both, zeros := Shifted(n, pos), made + attempts, Shifted(n, []);
    forall i | 0 <= i < |all|
      ensures all[i] < |servers| && servers[all[i]].V4? && both[i].server == servers[all[i]] && both[i].port == port
    {
      if i < n {
        assert zeros[i] == 0;
      } else {
        assert both[i] == attempts[i - n] && servers[1..][pos[i - n]] == servers[all[i]];
      }
    }
    forall i, j | 0 <= i < j < |all|
      ensures || all[i] < all[j]
              || (all[i] == all[j] && j == i + 1 && both[i].transport.Udp? && both[j].transport.Tcp?)
    {
      if j < n {
        assert zeros[i] == zeros[j] == 0;
      } else if i >= n {
        assert pos[i - n] < pos[j - n] || (pos[i - n] == pos[j - n] && j - n == i - n + 1);
      }
    }
  }

  lemma ShiftCovers(n: nat, pos: seq<nat>, servers: seq<Addr>)
    requires servers != [] && Covers(pos, servers[1..]) && (servers[0].V4? ==> n > 0)
    ensures Covers(Shifted(n, pos), servers)
  {
    var all := Shifted(n, pos);
    forall s | 0 <= s < |servers| && servers[s].V4? ensures s in all {
      if s == 0 {
        assert all[0] == 0;
      } else {
        assert servers[1..][s - 1] == servers[s];
        var i :| 0 <= i < |pos| && pos[i] == s - 1;
        assert all[n + i] == s;
      }
    }
  }

  /** A pass goes through the list in order, and fails only after every IPv4 nameserver was tried. */
  lemma {:induction false} PassFollowsServers(
    transport: Transport, servers: seq<Addr>, port: uint16, query: seq<byte>, net: Network, k: nat)
    returns (pos: seq<nat>)
    requires |query| >= 2
    ensures var a := AskAll(transport, servers, port, query, net, k);
            Follows(a.attempts, pos, servers, port) && (a.response.None? ==> Covers(pos, servers))
    decreases |servers|
  {
    hide Accepted, NeedsTcp, Follows, Covers, Shifted;
    if servers == [] {
      pos := [];
      NothingFollows(servers, port);
    } else {
      var made, n := [], k;
      if servers[0].V4? {
        var one := AskOne(transport, servers[0], port, query, net, k);
        made, n := one.attempts, k + |one.attempts|;
        OneFollows(transport, servers, port, query, net, k);
        if one.response.Some? {
          pos := Shifted(|made|, []);
          return;
        }
      }
      pos := PassFollowsServers(transport, servers[1..], port, query, net, n);
      var a := AskAll(transport, servers[1..], port, query, net, n);
      assert made + a.attempts == AskAll(transport, servers, port, query, net, k).attempts;
      ShiftFollows(made, a.attempts, pos, servers, port);
      if a.response.None? {
        ShiftCovers(|made|, pos, servers);
      }
      pos := Shifted(|made|, pos);
    }
  }

  lemma NothingFollows(servers: seq<Addr>, port: uint16)
    requires servers == []
    ensures Follows([], [], servers, port) && Covers([], servers)
  {
  }

  lemma OneFollows(transport: Transport, servers: seq<Addr>, port: uint16, query: seq<byte>, net: Network, k: nat)
    requires |query| >= 2 && servers != [] && servers[0].V4?
    ensures var made := AskOne(transport, servers[0], port, query, net, k).attempts;
            made != [] && Follows(made, Shifted(|made|, []), servers, port)
  {
    hide Accepted, IsTruncated;
  }
}
