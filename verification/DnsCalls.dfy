/**
 Overlapping queries on one `SystemDNS` (`internal/relay/dns.go`). `currentResolvers` holds the mutex from
 its test to the end of its load, and `invalidateResolvers` holds it too, so each is one step; rounds
 touch nothing that is shared. The clock may show any time at any step.
 */
module DnsCalls {
  import opened Wrappers
  import opened Resolvers
  import opened DnsExchange

  type Id = nat

  /** A list and the load it came from: the `used`-th, counted from 1. */
  datatype Used = Used(list: seq<Resolver>, used: nat)

  /** Where one `Exchange` stands. `since` is how many loads there had been when it invalidated the cache. */
  datatype Call =
    | Parsed
    | InFirst(first: Used)
    | Failed(first: Used)
    | Invalidated(first: Used, since: nat)
    | InSecond(first: Used, since: nat, second: Used, upTo: nat)
    | Returned

  /** `stamp` is the load that filled the cache, counted from 1; none is 0. */
  datatype State = State(
    hasSource: bool,
    interval: int,
    load: nat -> Option<seq<Resolver>>,
    cache: Cache,
    loads: nat,
    stamp: nat,
    calls: map<Id, Call>)

  datatype Action =
    | Open(c: Id)
    | GetFirst(c: Id, now: int, later: int)
    | FirstEnds(c: Id, failed: bool)
    | Invalidate(c: Id)
    | GetSecond(c: Id, now: int, later: int)
    | SecondEnds(c: Id)

  ghost predicate Init(s: State) {
    s.cache == Cache([], None) && s.loads == 0 && s.stamp == 0 && s.calls == map[]
  }

  predicate Enabled(s: State, a: Action) {
    if a.Open? then a.c !in s.calls
    else
      && a.c in s.calls
      && match a
         case Open(_) => false
         case GetFirst(_, _, _) => s.calls[a.c].Parsed?
         case FirstEnds(_, _) => s.calls[a.c].InFirst?
         case Invalidate(_) => s.calls[a.c].Failed?
         case GetSecond(_, _, _) => s.calls[a.c].Invalidated?
         case SecondEnds(_) => s.calls[a.c].InSecond?
  }

  /** A load that gives a list. */
  predicate Gives(loaded: Option<seq<Resolver>>) {
    loaded.Some? && loaded.value != []
  }

  /** The state after `currentResolvers`, before its caller goes on. */
  function AfterCurrent(s: State, now: int, later: int): State {
    var young := Young(s.cache, now, s.interval);
    var asks := !young && s.hasSource;
    s.(cache := Reloaded(s.cache, young, s.hasSource, s.load(s.loads), later),
       loads := if asks then s.loads + 1 else s.loads,
       stamp := if asks && Gives(s.load(s.loads)) then s.loads + 1 else s.stamp)
  }

  function Current(s: State, now: int): Result<seq<Resolver>, DnsError> {
    Listed(s.cache, Young(s.cache, now, s.interval), s.hasSource, s.load(s.loads))
  }

  function Step(s: State, a: Action): State
    requires Enabled(s, a)
  {
    match a
    case Open(c) => s.(calls := s.calls[c := Parsed])
    case GetFirst(c, now, later) =>
      var r, t := Current(s, now), AfterCurrent(s, now, later);
      t.(calls := s.calls[c := if r.Err? then Returned else InFirst(Used(r.value, t.stamp))])
    case FirstEnds(c, failed) =>
      s.(calls := s.calls[c := if failed then Failed(s.calls[c].first) else Returned])
    case Invalidate(c) =>
      s.(cache := s.cache.(loadedAt := None), calls := s.calls[c := Invalidated(s.calls[c].first, s.loads)])
    case GetSecond(c, now, later) =>
      var Invalidated(first, since) := s.calls[c];
      var r, t := Current(s, now), AfterCurrent(s, now, later);
      t.(calls := s.calls[c := if r.Err? then Returned else InSecond(first, since, Used(r.value, t.stamp), t.loads)])
    case SecondEnds(c) => s.(calls := s.calls[c := Returned])
  }

  ghost predicate IsRun(run: seq<State>, actions: seq<Action>) {
    && |run| == |actions| + 1
    && Init(run[0])
    && forall i :: 0 <= i < |actions| ==> Enabled(run[i], actions[i]) && run[i + 1] == Step(run[i], actions[i])
  }

  // ----- Invariants -----

  /** The list is what its load gave. */
  ghost predicate Genuine(s: State, u: Used) {
    0 < u.used <= s.loads && u.list != [] && s.load(u.used - 1) == Some(u.list)
  }

  ghost predicate CacheInv(s: State) {
    && (s.cache.resolvers == [] ==> s.stamp == 0)
    && (s.cache.resolvers != [] ==> Genuine(s, Used(s.cache.resolvers, s.stamp)))
  }

  /** No load from the `since`-th on, counted from 0, and before the `upTo`-th gave a list. */
  ghost predicate NothingLoaded(s: State, since: nat, upTo: nat) {
    forall k :: since <= k < upTo ==> !Gives(s.load(k))
  }

  /** What holds of the cache since an invalidation: it was refilled, or nothing was to be had. */
  ghost predicate Since(s: State, since: nat) {
    && since <= s.loads
    && (s.cache.resolvers != [] && s.cache.loadedAt.Some? ==> s.stamp > since)
    && (s.stamp <= since ==> NothingLoaded(s, since, s.loads))
  }

  /** The second list was loaded after the invalidation, or every load since then gave none. */
  ghost predicate Renewed(s: State, since: nat, second: Used, upTo: nat) {
    second.used > since || (since < upTo <= s.loads && NothingLoaded(s, since, upTo))
  }

  ghost predicate CallInv(s: State, call: Call) {
    match call
    case InFirst(first) => Genuine(s, first)
    case Failed(first) => Genuine(s, first)
    case Invalidated(first, since) => Genuine(s, first) && Since(s, since)
    case InSecond(first, since, second, upTo) => Genuine(s, first) && Genuine(s, second) && Renewed(s, since, second, upTo)
    case _ => true
  }

  ghost predicate Inv(s: State) {
    && CacheInv(s)
    && forall c :: c in s.calls ==> CallInv(s, s.calls[c])
  }

  lemma AfterCurrentKeeps(s: State, now: int, later: int, call: Call)
    requires CacheInv(s) && CallInv(s, call)
    ensures CacheInv(AfterCurrent(s, now, later)) && CallInv(AfterCurrent(s, now, later), call)
  {
  }

  /** What `currentResolvers` returns is in the cache when it is done. */
  lemma CurrentIsCached(s: State, now: int, later: int)
    requires CacheInv(s) && Current(s, now).Ok?
    ensures var t := AfterCurrent(s, now, later);
            t.cache.resolvers == Current(s, now).value && Genuine(t, Used(t.cache.resolvers, t.stamp))
  {
  }

  lemma SecondIsRenewed(s: State, now: int, later: int, since: nat)
    requires CacheInv(s) && Since(s, since) && Current(s, now).Ok?
    ensures var t := AfterCurrent(s, now, later); Renewed(t, since, Used(t.cache.resolvers, t.stamp), t.loads)
  {
  }

  lemma InvalidateKeeps(s: State, call: Call)
    requires CacheInv(s) && CallInv(s, call)
    ensures var t := s.(cache := s.cache.(loadedAt := None));
            CacheInv(t) && CallInv(t, call) && Since(t, s.loads)
  {
  }

  /** The invariant of a call does not look at the other calls. */
  lemma CallsApart(s: State, t: State, call: Call)
    requires t == s.(calls := t.calls)
    ensures CacheInv(s) == CacheInv(t) && CallInv(s, call) == CallInv(t, call)
  {
  }

  /** The shared part of a step. */
  function Shared(s: State, a: Action): State {
    match a
    case GetFirst(_, now, later) => AfterCurrent(s, now, later)
    case GetSecond(_, now, later) => AfterCurrent(s, now, later)
    case Invalidate(_) => s.(cache := s.cache.(loadedAt := None))
    case _ => s
  }

  lemma SharedKeeps(s: State, a: Action, call: Call)
    requires CacheInv(s) && CallInv(s, call)
    ensures CacheInv(Shared(s, a)) && CallInv(Shared(s, a), call)
  {
    hide CacheInv, CallInv, AfterCurrent;
    match a
    case GetFirst(_, now, later) => AfterCurrentKeeps(s, now, later, call);
    case GetSecond(_, now, later) => AfterCurrentKeeps(s, now, later, call);
    case Invalidate(_) => InvalidateKeeps(s, call);
    case _ =>
  }

  lemma OwnStep(s: State, a: Action)
    requires Inv(s) && Enabled(s, a)
    ensures a.c in Step(s, a).calls && CallInv(Shared(s, a), Step(s, a).calls[a.c])
  {
    hide CacheInv, AfterCurrent, Current, Since, Renewed, Genuine;
    if a.c in s.calls {
      SharedKeeps(s, a, s.calls[a.c]);
    }
    match a
    case GetFirst(_, now, later) =>
      if Current(s, now).Ok? {
        CurrentIsCached(s, now, later);
      }
    case GetSecond(c, now, later) =>
      if Current(s, now).Ok? {
        CurrentIsCached(s, now, later);
        SecondIsRenewed(s, now, later, s.calls[c].since);
      }
    case Invalidate(c) =>
      InvalidateKeeps(s, s.calls[c]);
    case _ =>
  }

  lemma InvStep(s: State, a: Action)
    requires Inv(s) && Enabled(s, a)
    ensures Inv(Step(s, a))
  {
    hide CacheInv, CallInv, AfterCurrent, Current;
    var t := Step(s, a);
    assert t == Shared(s, a).(calls := t.calls);
    SharedKeeps(s, a, Parsed) by { ParsedIsFine(s); }
    OwnStep(s, a);
    CallsApart(Shared(s, a), t, t.calls[a.c]);
    forall c | c in t.calls ensures CallInv(t, t.calls[c]) {
      if c != a.c {
        assert t.calls[c] == s.calls[c];
        SharedKeeps(s, a, s.calls[c]);
        CallsApart(Shared(s, a), t, s.calls[c]);
      }
    }
  }

  lemma ParsedIsFine(s: State)
    ensures CallInv(s, Parsed)
  {
  }

  lemma {:induction false} Invariance(run: seq<State>, actions: seq<Action>, i: nat)
    requires IsRun(run, actions) && i < |run|
    ensures Inv(run[i])
    decreases i
  {
    hide Step;
    if i > 0 {
      Invariance(run, actions, i - 1);
      InvStep(run[i - 1], actions[i - 1]);
    }
  }

  // ----- Theorems -----

  /** However queries overlap, every round is over a list that a load gave. */
  lemma ListsAreGenuine(run: seq<State>, actions: seq<Action>, i: nat, c: Id)
    requires IsRun(run, actions) && i < |run| && c in run[i].calls
    ensures run[i].calls[c].InFirst? || run[i].calls[c].InSecond? ==>
              WasLoaded(run[i].load, run[i].loads, run[i].calls[c].first.list)
    ensures run[i].calls[c].InSecond? ==> WasLoaded(run[i].load, run[i].loads, run[i].calls[c].second.list)
  {
    Invariance(run, actions, i);
    assert CallInv(run[i], run[i].calls[c]);
  }

  /**
   However queries overlap, a second round is over a list loaded after its own first round failed, even if
   another query did the loading, unless no load since then gave a list, and then there was one.
   */
  lemma SecondRoundIsRefreshed(run: seq<State>, actions: seq<Action>, i: nat, c: Id)
    requires IsRun(run, actions) && i < |run| && c in run[i].calls && run[i].calls[c].InSecond?
    ensures var InSecond(_, since, second, upTo) := run[i].calls[c];
            && second.used > 0 && run[i].load(second.used - 1) == Some(second.list)
            && (second.used - 1 >= since || (since < upTo && forall k :: since <= k < upTo ==> !Gives(run[i].load(k))))
  {
    Invariance(run, actions, i);
    assert CallInv(run[i], run[i].calls[c]);
  }
}
