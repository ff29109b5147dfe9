/**
 Forwarding a DNS query to the current macOS resolvers (`SystemDNS` in `internal/relay/dns.go`): a
 cached resolver list, a round over the nameservers of the resolver that serves the name, and one
 second round after a forced refresh. The clock, the resolver source, the network and cancellation
 answer each call as scripted, in any way.
 */
module DnsExchange {
  import opened Wrappers
  import opened Bytes
  import opened DnsName
  import opened Resolvers
  import opened DnsRound

  datatype DnsError =
    | ShortQuery
    | BadName(name: NameError)
    | NoResolverSource
    | NoUsableResolver
    | NoMatchingResolver
    | AllFailed

  /** The text of a question name, as resolver domains are written. */
  function NameText(name: seq<byte>): (text: string)
    ensures |text| == |name| && forall i :: 0 <= i < |name| ==> text[i] as int == name[i]
  {
    seq(|name|, i requires 0 <= i < |name| => name[i] as char)
  }

  // ----- The cache -----

  /** `loadedAt` is none when the cache was invalidated. */
  datatype Cache = Cache(resolvers: seq<Resolver>, loadedAt: Option<int>)

  predicate Young(c: Cache, now: int, interval: int) {
    c.resolvers != [] && c.loadedAt.Some? && now - c.loadedAt.value < interval
  }

  /** What `currentResolvers` returns; `loaded` is what the source gives if it is asked. */
  function Listed(c: Cache, young: bool, hasSource: bool, loaded: Option<seq<Resolver>>): Result<seq<Resolver>, DnsError> {
    if young then Ok(c.resolvers)
    else if !hasSource then Err(NoResolverSource)
    else if loaded.None? && c.resolvers != [] then Ok(c.resolvers)
    else if loaded.None? || loaded.value == [] then Err(NoUsableResolver)
    else Ok(loaded.value)
  }

  function Reloaded(c: Cache, young: bool, hasSource: bool, loaded: Option<seq<Resolver>>, now: int): Cache {
    if !young && hasSource && loaded.Some? && loaded.value != [] then Cache(loaded.value, Some(now)) else c
  }

  /** A list that one of the first `n` loads returned. */
  ghost predicate WasLoaded(load: nat -> Option<seq<Resolver>>, n: nat, rs: seq<Resolver>) {
    exists k :: 0 <= k < n && load(k) == Some(rs)
  }

  lemma LoadedStays(load: nat -> Option<seq<Resolver>>, n: nat, more: nat, rs: seq<Resolver>)
    requires n <= more && WasLoaded(load, n, rs)
    ensures WasLoaded(load, more, rs)
  {
    var k :| 0 <= k < n && load(k) == Some(rs);
    assert k < more;
  }

  // ----- Rounds -----

  /** A selection from a list, and the pass over the nameservers that network call `start` begins. */
  datatype Round = Round(from: seq<Resolver>, chosen: Option<Resolver>, start: nat, asked: Asked)

  ghost predicate IsRound(fold: string -> string, name: string, transport: Transport, query: seq<byte>, net: Network, round: Round)
    requires |query| >= 2
  {
    match round.chosen
    case None =>
      && (forall i :: 0 <= i < |round.from| ==> Score(fold, NormalizeDomain(fold, name), round.from[i]) == -1)
      && round.asked == Asked(None, [])
    case Some(resolver) =>
      && (exists i :: 0 <= i < |round.from| && IsChoice(fold, NormalizeDomain(fold, name), round.from, i)
                      && round.from[i] == resolver)
      && round.asked == AskAll(transport, resolver.nameservers, resolver.port, query, net, round.start)
  }

  function Outcome(round: Round): Result<seq<byte>, DnsError> {
    if round.chosen.None? then Err(NoMatchingResolver)
    else if round.asked.response.Some? then Ok(round.asked.response.value)
    else Err(AllFailed)
  }

  function AllAttempts(rounds: seq<Round>): seq<Attempt> {
    if rounds == [] then [] else AllAttempts(rounds[..|rounds| - 1]) + rounds[|rounds| - 1].asked.attempts
  }

  /** Rounds for one name, each over a list that was loaded, each starting where the last one ended. */
  ghost predicate AreRounds(d: SystemDNS, name: string, transport: Transport, query: seq<byte>, start: nat, rounds: seq<Round>)
    requires |query| >= 2
    reads d
  {
    forall i :: 0 <= i < |rounds| ==>
      && IsRound(d.fold, name, transport, query, d.network, rounds[i])
      && WasLoaded(d.load, d.loads, rounds[i].from)
      && rounds[i].start == start + if i == 0 then 0 else rounds[i - 1].start - start + |rounds[i - 1].asked.attempts|
  }

  /**
   The rounds that `Exchange` makes and what it returns: none without a list; one over the first list; and
   after a failure, unless the caller has gone, a second one over the list that the source gives when
   asked again. `again` is what it gave then.
   */
  ghost predicate TwoRoundsOf(
    first: Result<seq<Resolver>, DnsError>, cancelled: bool, hasSource: bool, again: Option<seq<Resolver>>,
    rounds: seq<Round>, r: Result<seq<byte>, DnsError>)
  {
    if first.Err? then rounds == [] && r == Err(first.error)
    else
      && rounds != [] && rounds[0].from == first.value
      && r == Outcome(rounds[|rounds| - 1])
      && if Outcome(rounds[0]).Ok? || cancelled then |rounds| == 1
         else
           var second := Listed(Cache(first.value, None), false, hasSource, again);
           if second.Err? then |rounds| == 1 else |rounds| == 2 && rounds[1].from == second.value
  }

  /** How often the source is asked: for a first list that is not young, and for the retry. */
  function LoadsOf(young: bool, cancelled: bool, hasSource: bool, rounds: seq<Round>): nat {
    if !hasSource then 0
    else (if young then 0 else 1) + (if rounds == [] || Outcome(rounds[0]).Ok? || cancelled then 0 else 1)
  }

  class SystemDNS {
    const fold: string -> string
    const hasSource: bool
    const reloadInterval: int
    // The k-th answer of the source, the network, the clock and the caller's context.
    const load: nat -> Option<seq<Resolver>>
    const network: Network
    const clock: nat -> int
    const cancelled: nat -> bool
    var ticks: nat
    var calls: nat
    var checks: nat

    var resolvers: seq<Resolver>
    var loadedAt: Option<int>

    // History: how often the source was asked, and every attempt on the network.
    var loads: nat
    var attempts: seq<Attempt>

    /** The cache is empty or holds a list that was loaded. */
    ghost predicate Valid()
      reads this
    {
      resolvers != [] ==> WasLoaded(load, loads, resolvers)
    }

    ghost function State(): (c: Cache)
      reads this
    {
      Cache(resolvers, loadedAt)
    }

    constructor (fold: string -> string, hasSource: bool, reloadInterval: int, load: nat -> Option<seq<Resolver>>,
                 network: Network, clock: nat -> int, cancelled: nat -> bool)
      ensures Valid() && attempts == [] && State() == Cache([], None)
    {
      this.fold, this.hasSource, this.reloadInterval := fold, hasSource, reloadInterval;
      this.load, this.network, this.clock, this.cancelled := load, network, clock, cancelled;
      ticks, calls, checks, loads := 0, 0, 0, 0;
      resolvers, loadedAt, attempts := [], None, [];
    }

    method Now() returns (t: int)
      modifies this`ticks
      ensures t == clock(old(ticks)) && ticks == old(ticks) + 1
    {
      t := clock(ticks);
      ticks := ticks + 1;
    }

    method ContextDone() returns (done: bool)
      modifies this`checks
      ensures done == cancelled(old(checks)) && checks == old(checks) + 1
    {
      done := cancelled(checks);
      checks := checks + 1;
    }

    /**
     The cached list while it is young, else a fresh one, or the last good one when the load fails. The
     source is asked exactly when there is one and the cached list is not young.
     */
    method CurrentResolvers() returns (r: Result<seq<Resolver>, DnsError>)
      requires Valid()
      modifies this`ticks, this`loads, this`resolvers, this`loadedAt
      ensures Valid()
      ensures var young := Young(old(State()), clock(old(ticks)), reloadInterval);
              && r == Listed(old(State()), young, hasSource, load(old(loads)))
              && State() == Reloaded(old(State()), young, hasSource, load(old(loads)), clock(old(ticks) + 1))
              && (loads == old(loads) <==> young || !hasSource)
              && old(loads) <= loads <= old(loads) + 1
      ensures r.Ok? ==> r.value != [] && r.value == resolvers && WasLoaded(load, loads, r.value)
      ensures old(resolvers) != [] && old(loadedAt).Some? && clock(old(ticks)) - old(loadedAt).value < reloadInterval ==>
                r == Ok(old(resolvers)) && loads == old(loads)
      ensures hasSource && (old(loadedAt).None? || clock(old(ticks)) - old(loadedAt).value >= reloadInterval) ==>
                && loads == old(loads) + 1
                && match load(old(loads))
                   case None => if old(resolvers) != [] then r == Ok(old(resolvers)) else r.Err?
                   case Some(rs) => if rs == [] then r.Err? else r == Ok(rs) && loadedAt == Some(clock(old(ticks) + 1))
    {
      var now := Now();
      if |resolvers| > 0 && loadedAt.Some? && now - loadedAt.value < reloadInterval {
        return Ok(resolvers);
      }
      if !hasSource {
        return Err(NoResolverSource);
      }
      var loaded := load(loads);
      loads := loads + 1;
      if |resolvers| > 0 {
        LoadedStays(load, loads - 1, loads, resolvers);
      }
      if loaded.None? {
        if |resolvers| > 0 {
          return Ok(resolvers);
        }
        return Err(NoUsableResolver);
      }
      if |loaded.value| == 0 {
        return Err(NoUsableResolver);
      }
      assert load(loads - 1) == Some(loaded.value);
      resolvers := loaded.value;
      now := Now();
      loadedAt := Some(now);
      r := Ok(resolvers);
    }

    method InvalidateResolvers()
      modifies this`loadedAt
      ensures State() == old(State()).(loadedAt := None)
    {
      loadedAt := None;
    }

    /** One attempt: whatever goes wrong on the way, only a valid answer to this query gets through. */
    method ExchangeOne(transport: Transport, server: Addr, port: uint16, query: seq<byte>)
      returns (response: Option<seq<byte>>)
      requires |query| >= 2
      modifies this`calls, this`attempts
      ensures attempts == old(attempts) + [Attempt(transport, server, port)] && calls == old(calls) + 1
      ensures response == Accepted(query, network(old(calls)))
    {
      attempts := attempts + [Attempt(transport, server, port)];
      var received := network(calls);
      calls := calls + 1;
      if received.None? {
        return None;
      }
      if |received.value| < 12 || query[..2] != received.value[..2] || received.value[2] < 0x80 {
        return None;
      }
      response := received;
    }

    /** One nameserver: a truncated UDP answer is asked for again over TCP. */
    method AskServer(transport: Transport, server: Addr, port: uint16, query: seq<byte>)
      returns (response: Option<seq<byte>>, ghost made: seq<Attempt>)
      requires |query| >= 2
      modifies this`calls, this`attempts
      ensures Asked(response, made) == AskOne(transport, server, port, query, network, old(calls))
      ensures attempts == old(attempts) + made && calls == old(calls) + |made|
    {
      hide IsTruncated, Accepted;
      response := ExchangeOne(transport, server, port, query);
      made := [Attempt(transport, server, port)];
      if response.Some? && transport.Udp? && IsTruncated(response.value) {
        response := ExchangeOne(Tcp, server, port, query);
        made := made + [Attempt(Tcp, server, port)];
      }
    }

    /** The loop over the nameservers of one resolver. */
    method AskServers(transport: Transport, resolver: Resolver, query: seq<byte>)
      returns (response: Option<seq<byte>>, ghost made: seq<Attempt>)
      requires |query| >= 2
      modifies this`calls, this`attempts
      ensures Asked(response, made) ==
              AskAll(transport, resolver.nameservers, resolver.port, query, network, old(calls))
      ensures attempts == old(attempts) + made && calls == old(calls) + |made|
    {
      hide AskOne, AskAll;
      var servers := resolver.nameservers;
      made := [];
      ghost var whole := AskAll(transport, servers, resolver.port, query, network, calls);
      assert servers[0..] == servers;
      for i := 0 to |servers|
        invariant attempts == old(attempts) + made && calls == old(calls) + |made|
        invariant whole == Then(made, AskAll(transport, servers[i..], resolver.port, query, network, calls))
      {
        AskAllFrom(transport, servers, i, resolver.port, query, network, calls);
        if servers[i].V4? {
          ghost var more;
          response, more := AskServer(transport, servers[i], resolver.port, query);
          Joined(old(attempts), made, more);
          if response.None? {
            ThenThen(made, more, AskAll(transport, servers[i + 1..], resolver.port, query, network, calls));
          }
          made := made + more;
          if response.Some? {
            return;
          }
        }
      }
      AskAllFrom(transport, servers, |servers|, resolver.port, query, network, calls);
      response := None;
    }

    /** One round over the nameservers of the resolver that serves the name. */
    method ExchangeSelected(transport: Transport, name: string, query: seq<byte>, from: seq<Resolver>)
      returns (r: Result<seq<byte>, DnsError>, ghost round: Round)
      requires |query| >= 2
      modifies this`calls, this`attempts
      ensures IsRound(fold, name, transport, query, network, round) && round.from == from && round.start == old(calls)
      ensures r == Outcome(round)
      ensures attempts == old(attempts) + round.asked.attempts && calls == old(calls) + |round.asked.attempts|
    {
      hide IsChoice, AskAll, Score, NormalizeDomain;
      var index := SelectResolver(fold, from, name);
      if index.None? {
        round := Round(from, None, calls, Asked(None, []));
        return Err(NoMatchingResolver), round;
      }
      var resolver := from[index.value];
      ghost var start := calls;
      var response;
      ghost var made;
      response, made := AskServers(transport, resolver, query);
      round := Round(from, Some(resolver), start, Asked(response, made));
      r := if response.Some? then Ok(response.value) else Err(AllFailed);
    }

    /** The retry: the list is refreshed by force, and if that gives one there is another round over it. */
    method SecondRound(transport: Transport, name: string, query: seq<byte>)
      returns (refreshed: bool, r: Result<seq<byte>, DnsError>, ghost round: Round)
      requires Valid() && |query| >= 2
      modifies this`ticks, this`calls, this`loads, this`resolvers, this`loadedAt, this`attempts
      ensures Valid() && loads == old(loads) + if hasSource then 1 else 0
      ensures var second := Listed(Cache(old(resolvers), None), false, hasSource, load(old(loads)));
              && refreshed == second.Ok?
              && (refreshed ==> round.from == second.value)
      ensures refreshed ==>
                && IsRound(fold, name, transport, query, network, round) && round.start == old(calls)
                && WasLoaded(load, loads, round.from)
                && r == Outcome(round) && attempts == old(attempts) + round.asked.attempts
      ensures !refreshed ==> attempts == old(attempts)
    {
      hide IsRound, WasLoaded, Outcome, Young;
      InvalidateResolvers();
      NoLongerYoung(State(), clock(ticks), reloadInterval);
      var current := CurrentResolvers();
      refreshed := current.Ok?;
      if refreshed {
        r, round := ExchangeSelected(transport, name, query, current.value);
      } else {
        r, round := Err(current.error), Round([], None, calls, Asked(None, []));
      }
    }

    /** A first round and, unless the caller has gone, a second one after a forced refresh. */
    method TwoRounds(transport: Transport, name: string, query: seq<byte>)
      returns (r: Result<seq<byte>, DnsError>, ghost rounds: seq<Round>)
      requires Valid() && |query| >= 2
      modifies this`ticks, this`calls, this`checks, this`loads, this`resolvers, this`loadedAt, this`attempts
      ensures Valid() && old(loads) <= loads
      ensures AreRounds(this, name, transport, query, old(calls), rounds)
      ensures attempts == old(attempts) + AllAttempts(rounds)
      ensures var young := Young(old(State()), clock(old(ticks)), reloadInterval);
              && TwoRoundsOf(Listed(old(State()), young, hasSource, load(old(loads))), cancelled(old(checks)), hasSource,
                             if loads == 0 then None else load(loads - 1), rounds, r)
              && loads == old(loads) + LoadsOf(young, cancelled(old(checks)), hasSource, rounds)
    {
      hide IsRound, WasLoaded, Outcome, Young, AllAttempts;
      rounds := [];
      AttemptsOfNone();
      var current := CurrentResolvers();
      if current.Err? {
        assert attempts + [] == attempts;
        return Err(current.error), [];
      }
      ghost var one, two;
      r, one := ExchangeSelected(transport, name, query, current.value);
      rounds := [one];
      AttemptsOf(one, one);
      var done := ContextDone();
      if r.Ok? || done {
        return;
      }
      ghost var before := loads;
      var refreshed, again;
      refreshed, again, two := SecondRound(transport, name, query);
      LoadedStays(load, before, loads, one.from);
      if !refreshed {
        return;
      }
      AttemptsOf(one, two);
      Joined(old(attempts), one.asked.attempts, two.asked.attempts);
      r, rounds := again, [one, two];
    }

    /**
     `Exchange`: the rounds of `TwoRounds` for the name that the query itself asks about; without such a
     name nothing is sent and the cache is not touched.
     */
    method Exchange(transport: Transport, query: seq<byte>)
      returns (r: Result<seq<byte>, DnsError>, ghost name: seq<byte>, ghost rounds: seq<Round>)
      requires Valid()
      modifies this`ticks, this`calls, this`checks, this`loads, this`resolvers, this`loadedAt, this`attempts
      ensures Valid() && old(loads) <= loads
      ensures HasName(query) ==>
                && (forall q :: IsExpansion(query, q) ==> name == Render(LabelsOn(query, q)))
                && AreRounds(this, NameText(name), transport, query, old(calls), rounds)
                && var young := Young(old(State()), clock(old(ticks)), reloadInterval);
                   && TwoRoundsOf(Listed(old(State()), young, hasSource, load(old(loads))), cancelled(old(checks)), hasSource,
                                  if loads == 0 then None else load(loads - 1), rounds, r)
                   && loads == old(loads) + LoadsOf(young, cancelled(old(checks)), hasSource, rounds)
      ensures HasName(query) ==> |query| >= 2 && forall i :: 0 <= i < |rounds| ==> Accounted(rounds[i], transport, query, network)
      ensures r.Ok? ==> |query| >= 12 && Answered(query, r.value, AllAttempts(rounds))
      ensures !HasName(query) ==> r.Err? && rounds == [] && State() == old(State()) && loads == old(loads)
      ensures attempts == old(attempts) + AllAttempts(rounds)
    {
      hide AreRounds, TwoRoundsOf, LoadsOf, Accounted, Answered, IsExpansion, FailsFor, Render, LabelsOn, NameText, Young, WasLoaded;
      name, rounds := [], [];
      assert attempts + [] == attempts;
      if |query| < 12 {
        return Err(ShortQuery), [], [];
      }
      var parsed := DNSQuestionName(query);
      if parsed.Err? {
        return Err(BadName(parsed.error)), [], [];
      }
      name := parsed.value;
      ghost var first := Listed(State(), Young(State(), clock(ticks), reloadInterval), hasSource, load(loads));
      ghost var start, gone := calls, cancelled(checks);
      r, rounds := TwoRounds(transport, NameText(parsed.value), query);
      RoundsAreAccounted(this, NameText(name), transport, query, start, rounds);
      AnswerOfRounds(first, gone, hasSource, if loads == 0 then None else load(loads - 1), rounds, r, transport, query, network);
    }
  }

  lemma Joined(a: seq<Attempt>, b: seq<Attempt>, c: seq<Attempt>)
    ensures (a + b) + c == a + (b + c)
  {
  }

  lemma AttemptsOfNone()
    ensures AllAttempts([]) == []
  {
  }

  lemma AttemptsOf(one: Round, two: Round)
    ensures AllAttempts([one]) == one.asked.attempts
    ensures AllAttempts([one, two]) == one.asked.attempts + two.asked.attempts
  {
    assert [one][..0] == [] && [one, two][..1] == [one];
    assert AllAttempts([one]) == [] + one.asked.attempts;
  }

  lemma NoLongerYoung(c: Cache, now: int, interval: int)
    requires c.loadedAt.None?
    ensures !Young(c, now, interval)
  {
  }

  // ----- What a caller can rely on -----

  /** When there is a second round, and over which list. */
  lemma RetryIsMade(first: Result<seq<Resolver>, DnsError>, cancelled: bool, hasSource: bool, again: Option<seq<Resolver>>,
                    rounds: seq<Round>, r: Result<seq<byte>, DnsError>)
    requires TwoRoundsOf(first, cancelled, hasSource, again, rounds, r) && first.Ok?
    ensures rounds != [] && rounds[0].from == first.value
    ensures rounds[0].chosen.Some? && rounds[0].asked.response.Some? ==>
              |rounds| == 1 && r == Ok(rounds[0].asked.response.value)
    ensures rounds[0].chosen.None? || rounds[0].asked.response.None? ==>
              if cancelled || !hasSource then |rounds| == 1 && r.Err?
              else if again.Some? && again.value == [] then |rounds| == 1 && r.Err?
              else if again.Some? then |rounds| == 2 && rounds[1].from == again.value
              else |rounds| == if first.value == [] then 1 else 2
    ensures |rounds| == 2 && again.None? ==> rounds[1].from == first.value
    ensures |rounds| == 2 ==>
              r.Ok? == (rounds[1].chosen.Some? && rounds[1].asked.response.Some?)
  {
  }

  /** Nothing is lost in a round: see `DnsRound.Sound` and `DnsRound.Follows`. */
  ghost predicate Accounted(round: Round, transport: Transport, query: seq<byte>, net: Network)
    requires |query| >= 2
  {
    && Sound(round.asked, transport, query, net, round.start)
    && (round.chosen.None? ==> round.asked.attempts == [])
    && (round.chosen.Some? ==>
          exists pos ::
            && Follows(round.asked.attempts, pos, round.chosen.value.nameservers, round.chosen.value.port)
            && (round.asked.response.None? ==> Covers(pos, round.chosen.value.nameservers)))
  }

  lemma RoundIsAccounted(fold: string -> string, name: string, transport: Transport, query: seq<byte>, net: Network, round: Round)
    requires |query| >= 2 && IsRound(fold, name, transport, query, net, round)
    ensures Accounted(round, transport, query, net)
  {
    hide Sound, Follows, Covers, IsChoice, AskAll, Score, NormalizeDomain;
    match round.chosen
    case None =>
      NothingIsSound(transport, query, net, round.start);
    case Some(resolver) =>
      PassIsSound(transport, resolver.nameservers, resolver.port, query, net, round.start);
      var pos := PassFollowsServers(transport, resolver.nameservers, resolver.port, query, net, round.start);
  }

  /** An answer is that of the round's last attempt, is valid, and is no truncated one over UDP. */
  lemma AnswerIsOfLastAttempt(round: Round, transport: Transport, query: seq<byte>, net: Network)
    requires |query| >= 2 && Accounted(round, transport, query, net) && Outcome(round).Ok?
    ensures var n := |round.asked.attempts|;
            && n > 0
            && net(round.start + n - 1) == Some(Outcome(round).value)
            && IsAnswer(query, Outcome(round).value)
            && (round.asked.attempts[n - 1].transport.Udp? ==> !IsTruncated(Outcome(round).value))
  {
    hide Follows, Covers, IsAnswer, IsTruncated;
    assert SoundAt(round.asked, transport, query, net, round.start, |round.asked.attempts| - 1);
  }

  lemma RoundsAreAccounted(d: SystemDNS, name: string, transport: Transport, query: seq<byte>, start: nat, rounds: seq<Round>)
    requires |query| >= 2 && AreRounds(d, name, transport, query, start, rounds)
    ensures forall i :: 0 <= i < |rounds| ==> Accounted(rounds[i], transport, query, d.network)
  {
    hide IsRound, Accounted, WasLoaded;
    forall i | 0 <= i < |rounds| ensures Accounted(rounds[i], transport, query, d.network) {
      RoundIsAccounted(d.fold, name, transport, query, d.network, rounds[i]);
    }
  }

  /** A valid answer to the query, and no truncated one of the last attempt if that was over UDP. */
  ghost predicate Answered(query: seq<byte>, answer: seq<byte>, made: seq<Attempt>) {
    && made != []
    && |query| >= 2 && IsAnswer(query, answer)
    && (made[|made| - 1].transport.Udp? ==> !IsTruncated(answer))
  }

  lemma LastAttempt(rounds: seq<Round>)
    requires rounds != [] && rounds[|rounds| - 1].asked.attempts != []
    ensures var all, made := AllAttempts(rounds), rounds[|rounds| - 1].asked.attempts;
            all != [] && all[|all| - 1] == made[|made| - 1]
  {
  }

  lemma AnswerOfRounds(first: Result<seq<Resolver>, DnsError>, cancelled: bool, hasSource: bool, again: Option<seq<Resolver>>,
                       rounds: seq<Round>, r: Result<seq<byte>, DnsError>,
                       transport: Transport, query: seq<byte>, net: Network)
    requires |query| >= 2 && TwoRoundsOf(first, cancelled, hasSource, again, rounds, r)
    requires forall i :: 0 <= i < |rounds| ==> Accounted(rounds[i], transport, query, net)
    ensures r.Ok? ==> Answered(query, r.value, AllAttempts(rounds))
  {
    hide Accounted, Outcome, IsAnswer, IsTruncated, Listed, AllAttempts;
    if r.Ok? {
      AnswerIsOfLastAttempt(rounds[|rounds| - 1], transport, query, net);
      LastAttempt(rounds);
    }
  }
}
