/** tests/route_oracle.py: the rules for which target serves a request. */
module RouteOracle {
  import opened Common

  datatype Health = Healthy | Degraded | Open | HalfOpen | Disabled

  datatype Candidate = Candidate(
    providerId: string,
    index: int,
    priority: int,
    weight: int,
    state: Health,
    active: int,
    maxConcurrency: int,
    latencyUs: Option<int>,
    families: set<string>,
    capabilities: set<string>,
    alreadyTried: bool,
    enabled: bool)

  const RETRYABLE_ERRORS: set<string> :=
    {"connect_failed", "dns_failed", "connect_timeout", "http_502", "http_503", "http_504"}

  // --- filtering ------------------------------------------------------------------

  predicate IsEligible(c: Candidate, family: string, required: set<string>) {
    && c.enabled && !c.alreadyTried
    && c.state in {Healthy, Degraded, HalfOpen}
    && c.active < c.maxConcurrency
    && family in c.families
    && required <= c.capabilities
  }

  function Eligible(cs: seq<Candidate>, family: string, required: set<string>): (r: seq<Candidate>)
    ensures forall c :: c in r <==> c in cs && IsEligible(c, family, required)
  {
    if cs == [] then []
    else
      var front, c := Eligible(cs[..|cs| - 1], family, required), cs[|cs| - 1];
      if IsEligible(c, family, required) then front + [c] else front
  }

  /** `eligible_candidates`. */
  method EligibleCandidates(cs: seq<Candidate>, family: string, required: set<string>) returns (result: seq<Candidate>)
    ensures result == Eligible(cs, family, required)
  {
    result := [];
    for i := 0 to |cs|
      invariant result == Eligible(cs[..i], family, required)
    {
      var c := cs[i];
      assert cs[..i + 1][..i] == cs[..i];
      if !c.enabled || c.alreadyTried {
        continue;
      }
      if c.state !in {Healthy, Degraded, HalfOpen} {
        continue;
      }
      if c.active >= c.maxConcurrency {
        continue;
      }
      if family !in c.families {
        continue;
      }
      if !(required <= c.capabilities) {
        continue;
      }
      result := result + [c];
    }
    assert cs[..|cs|] == cs;
  }

  // --- tuple keys, compared lexicographically -------------------------------------

  /** Tuples of equally many integers followed by one string, flattened: comparing
      the sequences is comparing the tuples. */
  type Key = seq<int>

  predicate Le(a: Key, b: Key) {
    a == [] || (b != [] && (a[0] < b[0] || (a[0] == b[0] && Le(a[1..], b[1..]))))
  }

  predicate Lt(a: Key, b: Key) {
    !Le(b, a)
  }

  lemma LeReflexive(a: Key)
    ensures Le(a, a)
  {
  }

  lemma {:induction false} LeTotal(a: Key, b: Key)
    ensures Le(a, b) || Le(b, a)
    ensures Le(a, b) && Le(b, a) ==> a == b
  {
    if a != [] && b != [] {
      LeTotal(a[1..], b[1..]);
      assert a == [a[0]] + a[1..] && b == [b[0]] + b[1..];
    }
  }

  lemma {:induction false} LeTransitive(a: Key, b: Key, c: Key)
    requires Le(a, b) && Le(b, c)
    ensures Le(a, c)
  {
    if a != [] && a[0] == b[0] == c[0] {
      LeTransitive(a[1..], b[1..], c[1..]);
    }
  }

  function Codes(s: string): Key {
    seq(|s|, i requires 0 <= i < |s| => s[i] as int)
  }

  const UNKNOWN_LATENCY: int := 0x7FFF_FFFF_FFFF_FFFF

  function PriorityKey(c: Candidate): Key {
    [c.priority, c.index] + Codes(c.providerId)
  }

  function RoundRobinKey(c: Candidate): Key {
    [c.index] + Codes(c.providerId)
  }

  function LatencyKeyWith(c: Candidate, unknown: int): Key {
    [if c.state == HalfOpen then 1 else 0,
     if c.latencyUs.None? then 1 else 0,
     if c.latencyUs.None? then unknown else c.latencyUs.value,
     c.index] + Codes(c.providerId)
  }

  function LatencyKey(c: Candidate): Key {
    LatencyKeyWith(c, UNKNOWN_LATENCY)
  }

  /** The two policies that select by minimising a key. */
  datatype Ranking = ByPriority | ByLatency | ByConfiguration

  function Rank(ranking: Ranking, c: Candidate): Key {
    match ranking
    case ByPriority => PriorityKey(c)
    case ByLatency => LatencyKey(c)
    case ByConfiguration => RoundRobinKey(c)
  }

  lemma RankFixesIndex(ranking: Ranking, a: Candidate, b: Candidate)
    requires Rank(ranking, a) == Rank(ranking, b)
    ensures a.index == b.index
  {
    assert Rank(ranking, a)[if ranking.ByPriority? then 1 else if ranking.ByLatency? then 3 else 0] == a.index;
    assert Rank(ranking, b)[if ranking.ByPriority? then 1 else if ranking.ByLatency? then 3 else 0] == b.index;
  }

  // --- selection --------------------------------------------------------------------

  /** `min(candidates, key=...)`: the earliest of the smallest. */
  function MinBy(cs: seq<Candidate>, ranking: Ranking): (m: Candidate)
    requires cs != []
    ensures m in cs
  {
    if |cs| == 1 then cs[0]
    else
      var m, c := MinBy(cs[..|cs| - 1], ranking), cs[|cs| - 1];
      if Lt(Rank(ranking, c), Rank(ranking, m)) then c else m
  }

  /** `sorted(candidates, key=...)`, which is stable. */
  function SortBy(cs: seq<Candidate>, ranking: Ranking): (s: seq<Candidate>)
    ensures multiset(s) == multiset(cs)
  {
    if cs == [] then []
    else
      assert cs == [cs[0]] + cs[1..];
      Insert(cs[0], SortBy(cs[1..], ranking), ranking)
  }

  function Insert(c: Candidate, s: seq<Candidate>, ranking: Ranking): (r: seq<Candidate>)
    ensures multiset(r) == multiset([c]) + multiset(s)
  {
    if s == [] || Le(Rank(ranking, c), Rank(ranking, s[0])) then [c] + s
    else
      assert s == [s[0]] + s[1..];
      [s[0]] + Insert(c, s[1..], ranking)
  }

  datatype Selection = Chosen(candidate: Candidate) | NoCandidate | UnknownPolicy

  /** Python's `cursor % len(ordered)`; cursors are not negative. */
  function SelectRoundRobin(cs: seq<Candidate>, cursor: nat): Selection {
    if cs == [] then NoCandidate
    else
      var ordered := SortBy(cs, ByConfiguration);
      SortLength(cs, ByConfiguration);
      Chosen(ordered[cursor % |ordered|])
  }

  lemma SortLength(cs: seq<Candidate>, ranking: Ranking)
    ensures |SortBy(cs, ranking)| == |cs|
  {
    assert |multiset(SortBy(cs, ranking))| == |multiset(cs)|;
  }

  function SelectMin(cs: seq<Candidate>, ranking: Ranking): Selection {
    if cs == [] then NoCandidate else Chosen(MinBy(cs, ranking))
  }

  /** `select`. */
  function Select(policy: string, cs: seq<Candidate>, cursor: nat): Selection {
    if policy == "priority" then SelectMin(cs, ByPriority)
    else if policy == "round_robin" then SelectRoundRobin(cs, cursor)
    else if policy == "least_latency" then SelectMin(cs, ByLatency)
    else UnknownPolicy
  }

  predicate FallbackAllowed(committed: bool, cancelled: bool, enabled: bool, attemptNo: int, maxAttempts: int,
                            error: string, nextExists: bool) {
    !committed && !cancelled && enabled && attemptNo < maxAttempts && error in RETRYABLE_ERRORS && nextExists
  }

  // --- what the selected candidate is ------------------------------------------------

  ghost predicate IsLeast(c: Candidate, cs: seq<Candidate>, ranking: Ranking) {
    c in cs && forall x :: x in cs ==> Le(Rank(ranking, c), Rank(ranking, x))
  }

  /** Configured indexes identify candidates. */
  ghost predicate Identified(cs: seq<Candidate>) {
    forall a, b :: a in cs && b in cs && a.index == b.index ==> a == b
  }

  lemma {:induction false} MinIsLeast(cs: seq<Candidate>, ranking: Ranking)
    requires cs != []
    ensures IsLeast(MinBy(cs, ranking), cs, ranking)
  {
    var m := MinBy(cs, ranking);
    LeReflexive(Rank(ranking, m));
    if |cs| > 1 {
      var front, last := cs[..|cs| - 1], cs[|cs| - 1];
      MinIsLeast(front, ranking);
      var f := MinBy(front, ranking);
      LeTotal(Rank(ranking, last), Rank(ranking, f));
      forall x | x in cs
        ensures Le(Rank(ranking, m), Rank(ranking, x))
      {
        if x in front {
          LeTransitive(Rank(ranking, m), Rank(ranking, f), Rank(ranking, x));
        }
      }
    }
  }

  lemma LeastIsUnique(a: Candidate, b: Candidate, cs: seq<Candidate>, ranking: Ranking)
    requires Identified(cs) && IsLeast(a, cs, ranking) && IsLeast(b, cs, ranking)
    ensures a == b
  {
    LeTotal(Rank(ranking, a), Rank(ranking, b));
    RankFixesIndex(ranking, a, b);
  }

  /** With distinct configured indexes the choice depends neither on the order of the
      list nor on any candidate that was not chosen. */
  lemma SelectionIsStable(cs: seq<Candidate>, fewer: seq<Candidate>, ranking: Ranking)
    requires Identified(cs) && cs != []
    requires MinBy(cs, ranking) in fewer && forall c :: c in fewer ==> c in cs
    ensures MinBy(fewer, ranking) == MinBy(cs, ranking)
  {
    MinIsLeast(cs, ranking);
    MinIsLeast(fewer, ranking);
    LeastIsUnique(MinBy(cs, ranking), MinBy(fewer, ranking), fewer, ranking);
  }

  /** A half-open target is a probe: least latency sends a request to one only when
      nothing else is eligible, and to an unmeasured one only when no target of the
      same standing has been measured. */
  lemma LeastLatencyRanks(cs: seq<Candidate>)
    requires cs != []
    ensures var m := MinBy(cs, ByLatency);
            && (m.state == HalfOpen ==> forall c :: c in cs ==> c.state == HalfOpen)
            && (m.latencyUs.None? ==> forall c :: c in cs && (c.state == HalfOpen <==> m.state == HalfOpen) ==> c.latencyUs.None?)
            && (forall c :: (c in cs && (c.state == HalfOpen <==> m.state == HalfOpen) && c.latencyUs.Some? && m.latencyUs.Some?) ==>
                  m.latencyUs.value <= c.latencyUs.value)
  {
    MinIsLeast(cs, ByLatency);
    var m := MinBy(cs, ByLatency);
    forall c | c in cs
      ensures m.state == HalfOpen ==> c.state == HalfOpen
      ensures (c.state == HalfOpen <==> m.state == HalfOpen) ==> m.latencyUs.None? ==> c.latencyUs.None?
      ensures ((c.state == HalfOpen <==> m.state == HalfOpen) && c.latencyUs.Some? && m.latencyUs.Some?) ==>
                m.latencyUs.value <= c.latencyUs.value
    {
      LatencyKeyOrder(m, c, UNKNOWN_LATENCY);
    }
  }

  /** The key comparison, with the string and list encoding taken apart. */
  lemma LatencyKeyOrder(a: Candidate, b: Candidate, unknown: int)
    ensures Le(LatencyKeyWith(a, unknown), LatencyKeyWith(b, unknown)) <==>
            var ha, hb := a.state == HalfOpen, b.state == HalfOpen;
            if ha != hb then hb
            else if a.latencyUs.Some? != b.latencyUs.Some? then a.latencyUs.Some?
            else if a.latencyUs.Some? && a.latencyUs.value != b.latencyUs.value then a.latencyUs.value < b.latencyUs.value
            else Le(RoundRobinKey(a), RoundRobinKey(b))
  {
    var ka, kb := LatencyKeyWith(a, unknown), LatencyKeyWith(b, unknown);
    assert ka[1..][1..][1..] == RoundRobinKey(a);
    assert kb[1..][1..][1..] == RoundRobinKey(b);
    LeUnfold(ka, kb);
    LeUnfold(ka[1..], kb[1..]);
    LeUnfold(ka[1..][1..], kb[1..][1..]);
  }

  lemma LeUnfold(a: Key, b: Key)
    requires a != [] && b != []
    ensures Le(a, b) <==> a[0] < b[0] || (a[0] == b[0] && Le(a[1..], b[1..]))
  {
  }

  function MinWith(cs: seq<Candidate>, unknown: int): Candidate
    requires cs != []
  {
    if |cs| == 1 then cs[0]
    else
      var m, c := MinWith(cs[..|cs| - 1], unknown), cs[|cs| - 1];
      if Lt(LatencyKeyWith(c, unknown), LatencyKeyWith(m, unknown)) then c else m
  }

  /** The 2^63-1 placeholder for an unmeasured latency never decides a comparison. */
  lemma {:induction false} SentinelIrrelevant(cs: seq<Candidate>, unknown: int)
    requires cs != []
    ensures MinWith(cs, unknown) == MinBy(cs, ByLatency)
  {
    if |cs| > 1 {
      var front, c := cs[..|cs| - 1], cs[|cs| - 1];
      SentinelIrrelevant(front, unknown);
      LatencyKeyOrder(MinBy(front, ByLatency), c, unknown);
      LatencyKeyOrder(MinBy(front, ByLatency), c, UNKNOWN_LATENCY);
    }
  }

  // --- sorting -----------------------------------------------------------------------

  ghost predicate Sorted(s: seq<Candidate>, ranking: Ranking) {
    forall i, j :: 0 <= i < j < |s| ==> Le(Rank(ranking, s[i]), Rank(ranking, s[j]))
  }

  lemma {:induction false} InsertSorted(c: Candidate, s: seq<Candidate>, ranking: Ranking)
    requires Sorted(s, ranking)
    ensures Sorted(Insert(c, s, ranking), ranking)
  {
    if s == [] {
    } else if Le(Rank(ranking, c), Rank(ranking, s[0])) {
      forall j | 0 < j < |s|
        ensures Le(Rank(ranking, c), Rank(ranking, s[j]))
      {
        LeTransitive(Rank(ranking, c), Rank(ranking, s[0]), Rank(ranking, s[j]));
      }
    } else {
      var rest := Insert(c, s[1..], ranking);
      LeTotal(Rank(ranking, c), Rank(ranking, s[0]));
      InsertSorted(c, s[1..], ranking);
      forall j | 0 <= j < |rest|
        ensures Le(Rank(ranking, s[0]), Rank(ranking, rest[j]))
      {
        assert rest[j] in multiset(rest);
        assert rest[j] == c || rest[j] in s[1..];
      }
    }
  }

  lemma {:induction false} SortSorts(cs: seq<Candidate>, ranking: Ranking)
    ensures Sorted(SortBy(cs, ranking), ranking)
  {
    if cs != [] {
      SortSorts(cs[1..], ranking);
      InsertSorted(cs[0], SortBy(cs[1..], ranking), ranking);
    }
  }

  /** Among identified candidates, a sorted arrangement is unique. */
  lemma {:induction false} SortedIsUnique(a: seq<Candidate>, b: seq<Candidate>, ranking: Ranking)
    requires multiset(a) == multiset(b) && Identified(a)
    requires Sorted(a, ranking) && Sorted(b, ranking)
    ensures a == b
  {
    assert |a| == |multiset(a)| == |multiset(b)| == |b|;
    if a != [] {
      SameElements(a, b);
      SortedHeadIsLeast(a, ranking);
      SortedHeadIsLeast(b, ranking);
      LeastIsUnique(a[0], b[0], a, ranking);
      TailElements(a, b);
      SortedIsUnique(a[1..], b[1..], ranking);
      assert a == [a[0]] + a[1..] && b == [b[0]] + b[1..];
    }
  }

  lemma TailElements(a: seq<Candidate>, b: seq<Candidate>)
    requires a != [] && b != [] && a[0] == b[0] && multiset(a) == multiset(b)
    ensures multiset(a[1..]) == multiset(b[1..])
  {
    assert a == [a[0]] + a[1..] && b == [b[0]] + b[1..];
    assert multiset(a[1..]) == multiset(a) - multiset{a[0]};
    assert multiset(b[1..]) == multiset(b) - multiset{b[0]};
  }

  lemma SameElements(a: seq<Candidate>, b: seq<Candidate>)
    requires multiset(a) == multiset(b)
    ensures forall c :: c in a <==> c in b
  {
    forall c
      ensures c in a <==> c in b
    {
      assert c in a <==> c in multiset(a);
      assert c in b <==> c in multiset(b);
    }
  }

  lemma SortedHeadIsLeast(s: seq<Candidate>, ranking: Ranking)
    requires Sorted(s, ranking) && s != []
    ensures IsLeast(s[0], s, ranking)
  {
    LeReflexive(Rank(ranking, s[0]));
  }

  /** Round robin sees only the set of candidates, never the order of the list. */
  lemma RoundRobinIgnoresOrder(a: seq<Candidate>, b: seq<Candidate>, cursor: nat)
    requires multiset(a) == multiset(b) && Identified(a)
    ensures SelectRoundRobin(a, cursor) == SelectRoundRobin(b, cursor)
  {
    SameElements(a, b);
    SortSorts(a, ByConfiguration);
    SortSorts(b, ByConfiguration);
    SameElements(a, SortBy(a, ByConfiguration));
    SortedIsUnique(SortBy(a, ByConfiguration), SortBy(b, ByConfiguration), ByConfiguration);
    if a == [] { assert |multiset(b)| == 0; }
    if b == [] { assert |multiset(a)| == 0; }
  }
}
