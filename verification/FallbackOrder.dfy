/** A request whose every attempt fails: filter, select, mark as tried, consult
    `fallback_allowed`, repeat (tests/test_fallback_invariant.py), with the candidate
    data otherwise fixed. */
module FallbackOrder {
  import opened RouteOracle

  function MarkTried(pool: seq<Candidate>, index: int): seq<Candidate> {
    if pool == [] then []
    else
      var c := pool[|pool| - 1];
      MarkTried(pool[..|pool| - 1], index) + [if c.index == index then c.(alreadyTried := true) else c]
  }

  function Without(cs: seq<Candidate>, index: int): (r: seq<Candidate>)
    ensures |r| <= |cs|
  {
    if cs == [] then []
    else
      var front, c := Without(cs[..|cs| - 1], index), cs[|cs| - 1];
      if c.index == index then front else front + [c]
  }

  lemma {:induction false} WithoutShrinks(cs: seq<Candidate>, c: Candidate)
    requires c in cs
    ensures |Without(cs, c.index)| < |cs|
  {
    if cs[|cs| - 1].index != c.index {
      WithoutShrinks(cs[..|cs| - 1], c);
    }
  }

  /** Marking a target as tried removes it from the eligible list and nothing else. */
  lemma {:induction false} MarkingRemoves(pool: seq<Candidate>, index: int, family: string, required: set<string>)
    ensures Eligible(MarkTried(pool, index), family, required) == Without(Eligible(pool, family, required), index)
  {
    if pool != [] {
      var front, c := pool[..|pool| - 1], pool[|pool| - 1];
      MarkingRemoves(front, index, family, required);
      var marked := MarkTried(pool, index);
      assert marked[..|marked| - 1] == MarkTried(front, index);
      var e := Eligible(front, family, required);
      if IsEligible(c, family, required) {
        assert (e + [c])[..|e|] == e;
      }
    }
  }

  datatype Request = Request(
    family: string,
    required: set<string>,
    ranking: Ranking,
    enabled: bool,
    maxAttempts: int,
    errors: nat -> string)  // how the n-th attempt fails, counting from 1
  {
    /** The conditions under which the attempt after attempt `n` is permitted, other
        than there being a candidate for it. */
    predicate Continues(n: nat) {
      enabled && n < maxAttempts && errors(n) in RETRYABLE_ERRORS
    }
  }

  /** The targets tried, in order, after `made` earlier attempts. */
  function FailingRun(rq: Request, pool: seq<Candidate>, made: nat): seq<Candidate>
    decreases |Eligible(pool, rq.family, rq.required)|
  {
    var eligible := Eligible(pool, rq.family, rq.required);
    if eligible == [] then []
    else
      var c := MinBy(eligible, rq.ranking);
      var next := MarkTried(pool, c.index);
      MarkingRemoves(pool, c.index, rq.family, rq.required);
      WithoutShrinks(eligible, c);
      var nextExists := Eligible(next, rq.family, rq.required) != [];
      if FallbackAllowed(false, false, rq.enabled, made + 1, rq.maxAttempts, rq.errors(made + 1), nextExists)
      then [c] + FailingRun(rq, next, made + 1)
      else [c]
  }

  ghost predicate DistinctIndexes(cs: seq<Candidate>) {
    forall i, j :: 0 <= i < j < |cs| ==> cs[i].index != cs[j].index
  }

  lemma {:induction false} EligibleDistinct(pool: seq<Candidate>, family: string, required: set<string>)
    requires DistinctIndexes(pool)
    ensures DistinctIndexes(Eligible(pool, family, required))
  {
    if pool != [] {
      var front, c := pool[..|pool| - 1], pool[|pool| - 1];
      EligibleDistinct(front, family, required);
      var e := Eligible(front, family, required);
      forall i | 0 <= i < |e|
        ensures e[i].index != c.index
      {
        assert e[i] in front;
      }
    }
  }

  lemma {:induction false} WithoutElements(cs: seq<Candidate>, index: int)
    ensures forall c :: c in Without(cs, index) ==> c in cs
    ensures DistinctIndexes(cs) ==> DistinctIndexes(Without(cs, index))
  {
    if cs != [] {
      var front, last := cs[..|cs| - 1], cs[|cs| - 1];
      WithoutElements(front, index);
      var w := Without(front, index);
      forall i | DistinctIndexes(cs) && 0 <= i < |w|
        ensures w[i].index != last.index
      {
        assert w[i] in front;
      }
    }
  }

  lemma {:induction false} WithoutNone(cs: seq<Candidate>, index: int)
    requires forall i :: 0 <= i < |cs| ==> cs[i].index != index
    ensures Without(cs, index) == cs
  {
    if cs != [] {
      WithoutNone(cs[..|cs| - 1], index);
    }
  }

  lemma SnocElements(front: seq<Candidate>, last: Candidate)
    ensures multiset(front + [last]) == multiset(front) + multiset{last}
  {
  }

  lemma RemoveThenAdd(m: multiset<Candidate>, last: Candidate, c: Candidate)
    ensures (m + multiset{c}) - multiset{c} == m
    ensures c in m && c != last ==> (m + multiset{last}) - multiset{c} == (m - multiset{c}) + multiset{last}
  {
  }

  lemma LaterElement(cs: seq<Candidate>, c: Candidate)
    requires DistinctIndexes(cs) && c in cs && cs[|cs| - 1] != c
    ensures c in cs[..|cs| - 1] && cs[|cs| - 1].index != c.index
  {
    var k :| 0 <= k < |cs| && cs[k] == c;
    assert cs[..|cs| - 1][k] == c;
  }

  lemma {:induction false} WithoutRemovesOne(cs: seq<Candidate>, c: Candidate)
    requires DistinctIndexes(cs) && c in cs
    ensures multiset(Without(cs, c.index)) == multiset(cs) - multiset{c}
  {
    var front, last := cs[..|cs| - 1], cs[|cs| - 1];
    assert cs == front + [last];
    SnocElements(front, last);
    RemoveThenAdd(multiset(front), last, c);
    if last == c {
      WithoutNone(front, c.index);
    } else {
      LaterElement(cs, c);
      WithoutRemovesOne(front, c);
      SnocElements(Without(front, c.index), last);
    }
  }

  lemma {:induction false} MarkKeepsDistinct(pool: seq<Candidate>, index: int)
    ensures |MarkTried(pool, index)| == |pool|
    ensures forall i :: 0 <= i < |pool| ==> MarkTried(pool, index)[i].index == pool[i].index
  {
    if pool != [] {
      MarkKeepsDistinct(pool[..|pool| - 1], index);
    }
  }

  /** The selected candidate heads the sorted list... */
  lemma SelectedIsFirst(e: seq<Candidate>, ranking: Ranking)
    requires DistinctIndexes(e) && e != []
    ensures var s := SortBy(e, ranking); s != [] && s[0] == MinBy(e, ranking)
  {
    var c, s := MinBy(e, ranking), SortBy(e, ranking);
    SortLength(e, ranking);
    SortSorts(e, ranking);
    SameElements(e, s);
    SortedHeadIsLeast(s, ranking);
    MinIsLeast(e, ranking);
    LeastIsUnique(c, s[0], e, ranking);
  }

  /** ... and sorting what remains once it has been tried gives the tail. */
  lemma SelectedThenRest(e: seq<Candidate>, ranking: Ranking)
    requires DistinctIndexes(e) && e != []
    ensures var c := MinBy(e, ranking);
            SortBy(e, ranking) == [c] + SortBy(Without(e, c.index), ranking)
  {
    SelectedIsFirst(e, ranking);
    var c, s := MinBy(e, ranking), SortBy(e, ranking);
    var rest := SortBy(Without(e, c.index), ranking);
    WithoutRemovesOne(e, c);
    TailOf(s, c);
    SortedRest(e, c.index, ranking);
    SortedTail(e, ranking);
    SortedIsUnique(rest, s[1..], ranking);
  }

  lemma SortedRest(e: seq<Candidate>, index: int, ranking: Ranking)
    requires DistinctIndexes(e)
    ensures var rest := SortBy(Without(e, index), ranking); Sorted(rest, ranking) && Identified(rest)
  {
    WithoutElements(e, index);
    SortSorts(Without(e, index), ranking);
    SameElements(Without(e, index), SortBy(Without(e, index), ranking));
  }

  lemma SortedTail(e: seq<Candidate>, ranking: Ranking)
    requires SortBy(e, ranking) != []
    ensures Sorted(SortBy(e, ranking)[1..], ranking)
  {
    SortSorts(e, ranking);
  }

  lemma TailOf(s: seq<Candidate>, c: Candidate)
    requires s != [] && s[0] == c
    ensures s == [c] + s[1..] && multiset(s[1..]) == multiset(s) - multiset{c}
  {
    assert s == [c] + s[1..];
  }

  /** `run` is a prefix of `order` that ends where fallback first stops. */
  ghost predicate Follows(rq: Request, order: seq<Candidate>, run: seq<Candidate>, made: nat) {
    && run <= order
    && (order != [] ==> run != [])
    && (forall n: nat :: made < n < made + |run| ==> rq.Continues(n))
    && (0 < |run| < |order| ==> !rq.Continues(made + |run|))
  }

  lemma FollowsOnce(rq: Request, c: Candidate, order: seq<Candidate>, made: nat)
    requires !rq.Continues(made + 1) || order == []
    ensures Follows(rq, [c] + order, [c], made)
  {
  }

  lemma FollowsOn(rq: Request, c: Candidate, order: seq<Candidate>, run: seq<Candidate>, made: nat)
    requires rq.Continues(made + 1) && order != [] && Follows(rq, order, run, made + 1)
    ensures Follows(rq, [c] + order, [c] + run, made)
  {
  }

  /** The next attempt: what is eligible, and in which order, once the first has failed. */
  lemma AfterFirst(rq: Request, pool: seq<Candidate>)
    requires DistinctIndexes(pool) && Eligible(pool, rq.family, rq.required) != []
    ensures var e := Eligible(pool, rq.family, rq.required);
            var c := MinBy(e, rq.ranking);
            var next, rest := MarkTried(pool, c.index), Without(e, c.index);
            && DistinctIndexes(next) && Eligible(next, rq.family, rq.required) == rest
            && |rest| < |e| && |SortBy(rest, rq.ranking)| == |rest|
            && SortBy(e, rq.ranking) == [c] + SortBy(rest, rq.ranking)
  {
    var e := Eligible(pool, rq.family, rq.required);
    var c := MinBy(e, rq.ranking);
    EligibleDistinct(pool, rq.family, rq.required);
    MarkingRemoves(pool, c.index, rq.family, rq.required);
    MarkKeepsDistinct(pool, c.index);
    SelectedThenRest(e, rq.ranking);
    SortLength(Without(e, c.index), rq.ranking);
    WithoutShrinks(e, c);
  }

  lemma {:induction false} RunFollowsOrder(rq: Request, pool: seq<Candidate>, made: nat)
    requires DistinctIndexes(pool)
    ensures Follows(rq, SortBy(Eligible(pool, rq.family, rq.required), rq.ranking), FailingRun(rq, pool, made), made)
    decreases |Eligible(pool, rq.family, rq.required)|
  {
    var e := Eligible(pool, rq.family, rq.required);
    if e != [] {
      var c := MinBy(e, rq.ranking);
      var next, rest := MarkTried(pool, c.index), Without(e, c.index);
      AfterFirst(rq, pool);
      if rq.Continues(made + 1) && rest != [] {
        RunFollowsOrder(rq, next, made + 1);
        FollowsOn(rq, c, SortBy(rest, rq.ranking), FailingRun(rq, next, made + 1), made);
      } else {
        FollowsOnce(rq, c, SortBy(rest, rq.ranking), made);
      }
    }
  }

  /** The targets a failing priority or least-latency request tries are a prefix of
      the initially eligible candidates in that policy's order; the prefix ends at the
      first attempt after which fallback is refused, so it never exceeds the budget
      and fills it when every failure is retryable. */
  lemma FailingRunIsAPrefixOfTheOrder(rq: Request, pool: seq<Candidate>)
    requires DistinctIndexes(pool)
    ensures var order := SortBy(Eligible(pool, rq.family, rq.required), rq.ranking);
            var run := FailingRun(rq, pool, 0);
            && Follows(rq, order, run, 0)
            && (rq.maxAttempts >= 1 ==> |run| <= rq.maxAttempts)
            && ((rq.enabled && rq.maxAttempts >= 1 && forall n :: rq.errors(n) in RETRYABLE_ERRORS) ==>
                  |run| == if |order| < rq.maxAttempts then |order| else rq.maxAttempts)
  {
    RunFollowsOrder(rq, pool, 0);
    if rq.maxAttempts >= 1 {
      BudgetBinds(rq, SortBy(Eligible(pool, rq.family, rq.required), rq.ranking), FailingRun(rq, pool, 0));
    }
  }

  lemma BudgetBinds(rq: Request, order: seq<Candidate>, run: seq<Candidate>)
    requires Follows(rq, order, run, 0) && rq.maxAttempts >= 1
    ensures |run| <= rq.maxAttempts
    ensures (rq.enabled && forall n :: rq.errors(n) in RETRYABLE_ERRORS) ==>
              |run| == if |order| < rq.maxAttempts then |order| else rq.maxAttempts
  {
    if |run| > 1 {
      assert rq.Continues(|run| - 1);
    }
  }
}
