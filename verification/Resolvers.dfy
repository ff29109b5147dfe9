/**
 The choice of a macOS resolver for a name (`selectResolver` in `internal/relay/dns.go`): longest
 matching suffix, then lowest order, then earliest position.
 */
module Resolvers {
  import opened Wrappers
  import opened Bytes

  datatype Addr = V4(bits: uint32) | V6(high: nat, low: nat)

  datatype Resolver = Resolver(domains: seq<string>, nameservers: seq<Addr>, port: uint16, order: int)

  /** `normalizeDomain`; `fold` stands for the library's white-space trimming and lower-casing. */
  function NormalizeDomain(fold: string -> string, domain: string): string {
    var d := fold(domain);
    if d != "" && d[|d| - 1] == '.' then d[..|d| - 1] else d
  }

  predicate HasSuffix(s: string, suffix: string) {
    |suffix| <= |s| && s[|s| - |suffix|..] == suffix
  }

  predicate DomainMatches(name: string, suffix: string) {
    name == suffix || HasSuffix(name, "." + suffix)
  }

  /** A domain of the resolver that matches the name. */
  predicate Matches(fold: string -> string, name: string, domain: string) {
    NormalizeDomain(fold, domain) != "" && DomainMatches(name, NormalizeDomain(fold, domain))
  }

  /** The longest matching suffix among domains, or -1. */
  function LongestMatch(fold: string -> string, name: string, domains: seq<string>): (n: int)
    ensures n >= -1
  {
    if domains == [] then -1
    else
      var d := domains[|domains| - 1];
      var before := LongestMatch(fold, name, domains[..|domains| - 1]);
      if Matches(fold, name, d) && |NormalizeDomain(fold, d)| > before then |NormalizeDomain(fold, d)| else before
  }

  /** How well a resolver serves a name: -1 not at all, 0 by default, else by the longest suffix. */
  function Score(fold: string -> string, name: string, r: Resolver): (n: int)
    ensures n >= -1
  {
    if r.nameservers == [] then -1
    else if r.domains == [] then 0
    else LongestMatch(fold, name, r.domains)
  }

  /** What the score means, without the recursion. */
  lemma {:induction false} LongestMatchIsMaximum(fold: string -> string, name: string, domains: seq<string>)
    ensures forall i :: 0 <= i < |domains| && Matches(fold, name, domains[i]) ==>
              0 < |NormalizeDomain(fold, domains[i])| <= LongestMatch(fold, name, domains)
    ensures LongestMatch(fold, name, domains) >= 0 ==>
              exists i :: 0 <= i < |domains| && Matches(fold, name, domains[i])
                          && |NormalizeDomain(fold, domains[i])| == LongestMatch(fold, name, domains)
  {
    hide NormalizeDomain, DomainMatches;
    if domains != [] {
      var init := domains[..|domains| - 1];
      LongestMatchIsMaximum(fold, name, init);
      forall i | 0 <= i < |domains| && Matches(fold, name, domains[i])
        ensures 0 < |NormalizeDomain(fold, domains[i])| <= LongestMatch(fold, name, domains)
      {
        assert i < |init| ==> domains[i] == init[i];
      }
      if LongestMatch(fold, name, domains) >= 0 {
        if LongestMatch(fold, name, domains) == LongestMatch(fold, name, init) {
          var i :| 0 <= i < |init| && Matches(fold, name, init[i])
                   && |NormalizeDomain(fold, init[i])| == LongestMatch(fold, name, init);
          assert domains[i] == init[i];
        } else {
          assert Matches(fold, name, domains[|domains| - 1]);
        }
      }
    }
  }

  /** Strictly better: a longer suffix, or the same length and a lower order. */
  predicate Beats(score: int, order: int, otherScore: int, otherOrder: int) {
    score > otherScore || (score == otherScore && order < otherOrder)
  }

  /** Resolver `i` serves the name, nothing beats it, and nothing earlier equals it. */
  ghost predicate IsChoice(fold: string -> string, name: string, rs: seq<Resolver>, i: nat)
    requires i < |rs|
  {
    && Score(fold, name, rs[i]) >= 0
    && (forall j :: 0 <= j < |rs| ==>
          !Beats(Score(fold, name, rs[j]), rs[j].order, Score(fold, name, rs[i]), rs[i].order))
    && (forall j :: 0 <= j < i ==>
          Beats(Score(fold, name, rs[i]), rs[i].order, Score(fold, name, rs[j]), rs[j].order))
  }

  /** A domain matches itself and what ends with a dot and the domain: never a part of a label. */
  lemma MatchesIff(name: string, suffix: string)
    ensures DomainMatches(name, suffix) <==> name == suffix || exists front :: name == front + "." + suffix
  {
    if HasSuffix(name, "." + suffix) {
      var front := name[..|name| - |"." + suffix|];
      assert name == front + ("." + suffix) == front + "." + suffix;
    }
    forall front | name == front + "." + suffix ensures HasSuffix(name, "." + suffix) {
      assert name == front + ("." + suffix);
    }
  }

  /** A domain is taken without one dot at its end. */
  lemma NormalizedIff(fold: string -> string, domain: string, d: string)
    ensures NormalizeDomain(fold, domain) == d <==>
              (fold(domain) == d && (d == "" || d[|d| - 1] != '.')) || fold(domain) == d + "."
  {
    var f := fold(domain);
    if f != "" && f[|f| - 1] == '.' {
      assert f == f[..|f| - 1] + ".";
    }
  }

  /** No nameserver serves nothing; no domain serves everything, at the lowest score. */
  lemma ScoreRules(fold: string -> string, name: string, r: Resolver)
    ensures r.nameservers == [] ==> Score(fold, name, r) == -1
    ensures r.nameservers != [] && r.domains == [] ==> Score(fold, name, r) == 0
    ensures r.nameservers != [] && r.domains != [] ==>
              (Score(fold, name, r) == -1 <==> forall i :: 0 <= i < |r.domains| ==> !Matches(fold, name, r.domains[i]))
    ensures Score(fold, name, r) > 0 ==>
              exists i :: 0 <= i < |r.domains| && Matches(fold, name, r.domains[i])
                          && |NormalizeDomain(fold, r.domains[i])| == Score(fold, name, r)
  {
    hide NormalizeDomain, DomainMatches;
    LongestMatchIsMaximum(fold, name, r.domains);
  }

  /** The choice: the highest score, then the lowest order, then the first place. */
  lemma ChoiceIff(fold: string -> string, name: string, rs: seq<Resolver>, i: nat)
    requires i < |rs|
    ensures IsChoice(fold, name, rs, i) <==>
              && Score(fold, name, rs[i]) >= 0
              && forall j :: 0 <= j < |rs| ==>
                  || Score(fold, name, rs[i]) > Score(fold, name, rs[j])
                  || (&& Score(fold, name, rs[i]) == Score(fold, name, rs[j])
                      && (rs[i].order < rs[j].order || (rs[i].order == rs[j].order && i <= j)))
  {
    hide Score;
  }

  /** The best of the resolvers before `n`, or none: what the outer loop has found. */
  ghost predicate BestOf(fold: string -> string, name: string, rs: seq<Resolver>, n: nat, best: int, score: int, order: int)
    requires n <= |rs|
  {
    if best == -1 then score == -1 && forall j :: 0 <= j < n ==> Score(fold, name, rs[j]) == -1
    else
      && 0 <= best < n && score == Score(fold, name, rs[best]) && order == rs[best].order
      && IsChoice(fold, name, rs[..n], best)
  }

  method SelectResolver(fold: string -> string, resolvers: seq<Resolver>, questionName: string)
    returns (r: Option<nat>)
    ensures r.None? <==>
              forall i :: 0 <= i < |resolvers| ==> Score(fold, NormalizeDomain(fold, questionName), resolvers[i]) == -1
    ensures r.Some? ==>
              r.value < |resolvers| && IsChoice(fold, NormalizeDomain(fold, questionName), resolvers, r.value)
  {
    var name := NormalizeDomain(fold, questionName);
    hide NormalizeDomain, Score;
    var bestIndex, bestSuffixLength, bestOrder := -1, -1, 0x7FFF_FFFF_FFFF_FFFF;
    for index := 0 to |resolvers|
      invariant BestOf(fold, name, resolvers, index, bestIndex, bestSuffixLength, bestOrder)
    {
      var better;
      better, bestSuffixLength, bestOrder := Consider(fold, name, resolvers[index], bestSuffixLength, bestOrder);
      if better {
        bestIndex := index;
      }
      assert resolvers[..index + 1] == resolvers[..index] + [resolvers[index]];
    }
    assert resolvers[..|resolvers|] == resolvers;
    if bestIndex == -1 {
      return None;
    }
    r := Some(bestIndex);
  }

  lemma LongestOfNone(fold: string -> string, name: string)
    ensures LongestMatch(fold, name, []) == -1
  {
  }

  lemma LongestOfMore(fold: string -> string, name: string, domains: seq<string>, i: nat)
    requires i < |domains|
    ensures var n, before := |NormalizeDomain(fold, domains[i])|, LongestMatch(fold, name, domains[..i]);
            LongestMatch(fold, name, domains[..i + 1]) ==
            if Matches(fold, name, domains[i]) && n > before then n else before
  {
    hide NormalizeDomain, Matches;
    assert domains[..i + 1][..i] == domains[..i];
  }

  /** One turn of the outer loop, with its inner loop over the domains. */
  method Consider(fold: string -> string, name: string, resolver: Resolver, bestLength: int, bestOrder: int)
    returns (better: bool, length: int, order: int)
    requires bestLength >= -1
    ensures better == (Score(fold, name, resolver) >= 0
                       && Beats(Score(fold, name, resolver), resolver.order, bestLength, bestOrder))
    ensures length == if better then Score(fold, name, resolver) else bestLength
    ensures order == if better then resolver.order else bestOrder
  {
    hide LongestMatch, NormalizeDomain, DomainMatches;
    LongestOfNone(fold, name);
    better, length, order := false, bestLength, bestOrder;
    if |resolver.nameservers| == 0 {
      return;
    }
    if |resolver.domains| == 0 {
      if length == -1 || (length == 0 && resolver.order < order) {
        better, length, order := true, 0, resolver.order;
      }
      return;
    }
    var i := 0;
    assert resolver.domains[..0] == [];
    while i < |resolver.domains|
      invariant i <= |resolver.domains|
      invariant var n := LongestMatch(fold, name, resolver.domains[..i]);
                && better == (n >= 0 && Beats(n, resolver.order, bestLength, bestOrder))
                && length == (if better then n else bestLength)
                && order == (if better then resolver.order else bestOrder)
                && n != 0
    {
      var candidate := NormalizeDomain(fold, resolver.domains[i]);
      LongestOfMore(fold, name, resolver.domains, i);
      if candidate != "" && DomainMatches(name, candidate) {
        if |candidate| > length || (|candidate| == length && resolver.order < order) {
          better, length, order := true, |candidate|, resolver.order;
        }
      }
      i := i + 1;
    }
    assert resolver.domains[..i] == resolver.domains;
  }

  /** The choice is unique. */
  lemma OneChoice(fold: string -> string, name: string, rs: seq<Resolver>, i: nat, j: nat)
    requires i < |rs| && j < |rs| && IsChoice(fold, name, rs, i) && IsChoice(fold, name, rs, j)
    ensures i == j
  {
  }

  ghost predicate DistinctOrders(rs: seq<Resolver>) {
    forall i, j :: 0 <= i < j < |rs| ==> rs[i].order != rs[j].order
  }

  /** With distinct orders, reordering the list does not change which resolver is chosen. */
  lemma ChoiceSurvivesReordering(fold: string -> string, name: string, a: seq<Resolver>, b: seq<Resolver>, i: nat, j: nat)
    requires multiset(a) == multiset(b) && DistinctOrders(a)
    requires i < |a| && j < |b| && IsChoice(fold, name, a, i) && IsChoice(fold, name, b, j)
    ensures a[i] == b[j]
  {
    hide Score;
    assert a[i] in multiset(b) && b[j] in multiset(a);
    var i' :| 0 <= i' < |b| && b[i'] == a[i];
    var j' :| 0 <= j' < |a| && a[j'] == b[j];
    assert Score(fold, name, a[i]) == Score(fold, name, b[j]) && a[i].order == b[j].order;
    assert a[j'].order == a[i].order;
  }
}
