/** One request, alone on fixed providers, whose every attempt fails: the shared gateway
    makes exactly the attempts of the sequential run. */
module SingleRequest {
  import opened RouteOracle
  import opened Gateway
  import Order = FallbackOrder

  /** The request as the sequential run sees it; a failure the route does not retry
      becomes one nobody retries. */
  function Sequential(route: Route, ranking: Ranking, errors: nat -> string): Order.Request {
    Order.Request(route.family, route.required, ranking, route.fallbackEnabled, route.maxAttempts,
                  (n: nat) => if errors(n) in route.retryable then errors(n) else "")
  }

  /** `n` times: choose, and fail. */
  function Rounds(r: nat, errors: nat -> string, made: nat, n: nat): seq<Event> {
    if n == 0 then [] else Rounds(r, errors, made, n - 1) + [Attempt(r, 0), Fail(r, errors(made + n))]
  }

  function Indexes(cs: seq<Candidate>): seq<int> {
    if cs == [] then [] else [cs[0].index] + Indexes(cs[1..])
  }

  /** A policy that ranks, and its ranking. */
  predicate Ranks(policy: string, ranking: Ranking) {
    (policy == "priority" && ranking == ByPriority) || (policy == "least_latency" && ranking == ByLatency)
  }

  lemma RankedSelect(policy: string, ranking: Ranking, cs: seq<Candidate>, cursor: nat)
    requires Ranks(policy, ranking)
    ensures Select(policy, cs, cursor) == if cs == [] then NoCandidate else Chosen(MinBy(cs, ranking))
  {
    assert "priority"[0] == 'p' && "round_robin"[0] == 'r' && "least_latency"[0] == 'l';
  }

  lemma {:induction false} MarkTriedAt(pool: seq<Candidate>, index: int)
    ensures |Order.MarkTried(pool, index)| == |pool|
    ensures forall i :: 0 <= i < |pool| ==>
              Order.MarkTried(pool, index)[i] == if pool[i].index == index then pool[i].(alreadyTried := true) else pool[i]
  {
    if pool != [] {
      MarkTriedAt(pool[..|pool| - 1], index);
    }
  }

  /** Trying one more target is marking it in the oracle's list. */
  lemma TriedIsMarked(w: World, rq: Gateway.Request, next: Gateway.Request, t: nat)
    requires rq.WellFormed(|w.providers|) && next.WellFormed(|w.providers|)
    requires next.route == rq.route && next.tried == rq.tried + [t]
    ensures Candidates(w, next) == Order.MarkTried(Candidates(w, rq), t)
  {
    MarkTriedAt(Candidates(w, rq), t);
  }

  /** Claiming a slot and giving it back leaves the providers as they were. */
  lemma ReleaseUndoesClaim(w: World, r: nat, t: nat)
    requires w.WellFormed() && r < |w.requests| && t < |w.requests[r].route.targets|
    ensures var v := Release(Claim(w, r, t), r);
            && v.providers == w.providers
            && v.requests == w.requests[r := w.requests[r].(tried := w.requests[r].tried + [t], phase := Ended)]
  {
  }

  /** A failed first attempt of the sequential run. */
  lemma RunUnfolds(rq: Order.Request, pool: seq<Candidate>, made: nat)
    requires Eligible(pool, rq.family, rq.required) != []
    ensures var c := MinBy(Eligible(pool, rq.family, rq.required), rq.ranking);
            var next := Order.MarkTried(pool, c.index);
            var goesOn := FallbackAllowed(false, false, rq.enabled, made + 1, rq.maxAttempts, rq.errors(made + 1),
                                          Eligible(next, rq.family, rq.required) != []);
            Indexes(Order.FailingRun(rq, pool, made)) ==
            [c.index] + if goesOn then Indexes(Order.FailingRun(rq, next, made + 1)) else []
  {
    var run := Order.FailingRun(rq, pool, made);
    assert run[1..] == [] || run == [run[0]] + run[1..];
  }

  /** The request's standing between attempts. */
  ghost predicate Ready(w: World, r: nat) {
    Inv(w) && r < |w.requests| && w.requests[r].phase.Choosing?
  }

  /** The world after one choice of target `t` and its failure. */
  function AfterRound(w: World, r: nat, t: nat, error: string): World
    requires w.WellFormed() && r < |w.requests| && t < |w.requests[r].route.targets|
  {
    var rq := w.requests[r].(tried := w.requests[r].tried + [t], phase := Ended);
    var goesOn := error in rq.route.retryable &&
                  FallbackAllowed(rq.committed, rq.cancelled, rq.route.fallbackEnabled, |rq.tried|, rq.route.maxAttempts, error,
                                  EligibleFor(w, rq) != []);
    w.(requests := w.requests[r := if goesOn then rq.(phase := Choosing) else rq])
  }

  lemma AttemptClaims(w: World, r: nat, ranking: Ranking)
    requires Ready(w, r) && Ranks(w.requests[r].route.policy, ranking) && EligibleFor(w, w.requests[r]) != []
    ensures var t := MinBy(EligibleFor(w, w.requests[r]), ranking).index;
            0 <= t < |w.requests[r].route.targets| && Step(w, Attempt(r, 0)) == Claim(w, r, t)
  {
    RankedSelect(w.requests[r].route.policy, ranking, EligibleFor(w, w.requests[r]), 0);
    ChosenIsFresh(w, w.requests[r], 0);
  }

  lemma FailReleases(w: World, r: nat, t: nat, error: string)
    requires w.WellFormed() && r < |w.requests| && t < |w.requests[r].route.targets|
    ensures Step(Claim(w, r, t), Fail(r, error)) == AfterRound(w, r, t, error)
  {
    ReleaseUndoesClaim(w, r, t);
    var v := Release(Claim(w, r, t), r);
    assert Candidates(v, v.requests[r]) == Candidates(w, v.requests[r]);
    var rq := v.requests[r];
    assert v.requests[r := rq.(phase := Choosing)] == w.requests[r := rq.(phase := Choosing)];
  }

  lemma OneRound(w: World, r: nat, ranking: Ranking, error: string)
    requires Ready(w, r) && Ranks(w.requests[r].route.policy, ranking) && EligibleFor(w, w.requests[r]) != []
    ensures var t := MinBy(EligibleFor(w, w.requests[r]), ranking).index;
            && 0 <= t < |w.requests[r].route.targets|
            && Round(w, r, error) == AfterRound(w, r, t, error)
  {
    AttemptClaims(w, r, ranking);
    FailReleases(w, r, MinBy(EligibleFor(w, w.requests[r]), ranking).index, error);
  }

  lemma NoRound(w: World, r: nat, ranking: Ranking, error: string)
    requires Ready(w, r) && Ranks(w.requests[r].route.policy, ranking) && EligibleFor(w, w.requests[r]) == []
    ensures var v := Round(w, r, error);
            v.requests[r].phase.Ended? && v.requests[r].tried == w.requests[r].tried
  {
    RankedSelect(w.requests[r].route.policy, ranking, [], 0);
  }

  lemma {:induction false} RunConcat(w: World, a: seq<Event>, b: seq<Event>)
    requires w.WellFormed()
    ensures Run(w, a + b) == Run(Run(w, a), b)
    decreases |a|
  {
    if a == [] {
      assert a + b == b;
    } else {
      assert (a + b)[1..] == a[1..] + b;
      RunConcat(Step(w, a[0]), a[1..], b);
    }
  }

  function Round(w: World, r: nat, error: string): (v: World)
    requires w.WellFormed()
    ensures v.WellFormed() && |v.requests| >= |w.requests|
  {
    Step(Step(w, Attempt(r, 0)), Fail(r, error))
  }

  lemma RunOne(w: World, a: Event)
    requires w.WellFormed()
    ensures Run(w, [a]) == Step(w, a)
  {
    assert [a][1..] == [];
    assert Run(Step(w, a), []) == Step(w, a);
  }

  lemma RunPair(w: World, a: Event, b: Event)
    requires w.WellFormed()
    ensures Run(w, [a, b]) == Step(Step(w, a), b)
  {
    assert [a, b][1..] == [b];
    RunOne(Step(w, a), b);
  }

  lemma RunRound(w: World, r: nat, errors: nat -> string, made: nat, n: nat, i: nat)
    requires w.WellFormed() && n > 0 && i == made + n
    ensures Run(w, Rounds(r, errors, made, n)) == Round(Run(w, Rounds(r, errors, made, n - 1)), r, errors(i))
  {
    var earlier := Rounds(r, errors, made, n - 1);
    RunConcat(w, earlier, [Attempt(r, 0), Fail(r, errors(i))]);
    RunPair(Run(w, earlier), Attempt(r, 0), Fail(r, errors(i)));
  }

  lemma RoundKeeps(w: World, r: nat, error: string)
    requires Inv(w)
    ensures Inv(Round(w, r, error))
  {
    StepKeeps(w, Attempt(r, 0));
    StepKeeps(Step(w, Attempt(r, 0)), Fail(r, error));
  }

  /** The sequential run's continuation is the gateway's. */
  lemma SameDecision(w: World, r: nat, ranking: Ranking, errors: nat -> string)
    requires Ready(w, r) && Ranks(w.requests[r].route.policy, ranking) && EligibleFor(w, w.requests[r]) != []
    ensures var rq := w.requests[r];
            var s, t, made := Sequential(rq.route, ranking, errors), MinBy(EligibleFor(w, rq), ranking).index, |rq.tried|;
            && 0 <= t < |rq.route.targets|
            && var v := AfterRound(w, r, t, errors(made + 1));
            && v.WellFormed()
            && v.requests[r].tried == rq.tried + [t] && v.requests[r].route == rq.route
            && Candidates(v, v.requests[r]) == Order.MarkTried(Candidates(w, rq), t)
            && Indexes(Order.FailingRun(s, Candidates(w, rq), made)) ==
               [t] + if v.requests[r].phase.Choosing? then Indexes(Order.FailingRun(s, Candidates(v, v.requests[r]), made + 1)) else []
  {
    var rq := w.requests[r];
    var s, t, made := Sequential(rq.route, ranking, errors), MinBy(EligibleFor(w, rq), ranking).index, |rq.tried|;
    OneRound(w, r, ranking, errors(made + 1));
    var v := AfterRound(w, r, t, errors(made + 1));
    TriedIsMarked(w, rq, v.requests[r], t);
    assert Candidates(v, v.requests[r]) == Candidates(w, v.requests[r]);
    TriedIsMarked(w, rq, rq.(tried := rq.tried + [t], phase := Ended), t);
    RunUnfolds(s, Candidates(w, rq), made);
    NoneRetryNothing();
  }

  lemma NoneRetryNothing()
    ensures "" !in RETRYABLE_ERRORS
  {
  }

  /** What the sequential run still has to try. */
  function Ahead(w: World, r: nat, ranking: Ranking, errors: nat -> string): seq<int>
    requires w.WellFormed() && r < |w.requests|
  {
    var rq := w.requests[r];
    Indexes(Order.FailingRun(Sequential(rq.route, ranking, errors), Candidates(w, rq), |rq.tried|))
  }

  /** `v` is `w` after an attempt at `t` for request `r`, with one target fewer ahead. */
  ghost predicate Tried(w: World, r: nat, v: World, t: int, ranking: Ranking, errors: nat -> string)
    requires w.WellFormed() && r < |w.requests|
  {
    && v.WellFormed() && r < |v.requests|
    && v.requests[r].tried == w.requests[r].tried + [t] && v.requests[r].route == w.requests[r].route
    && |EligibleFor(v, v.requests[r])| < |EligibleFor(w, w.requests[r])|
    && Ahead(w, r, ranking, errors) == [t] + (if v.requests[r].phase.Choosing? then Ahead(v, r, ranking, errors) else [])
  }

  /** One round of the gateway is one attempt of the sequential run. */
  lemma RoundTries(w: World, r: nat, ranking: Ranking, errors: nat -> string, i: nat) returns (v: World, t: nat)
    requires Ready(w, r) && Ranks(w.requests[r].route.policy, ranking) && EligibleFor(w, w.requests[r]) != []
    requires i == |w.requests[r].tried| + 1
    ensures t < |w.requests[r].route.targets| && v == AfterRound(w, r, t, errors(i))
    ensures t == MinBy(EligibleFor(w, w.requests[r]), ranking).index
    ensures Tried(w, r, v, t, ranking, errors)
  {
    SameDecision(w, r, ranking, errors);
    t := MinBy(EligibleFor(w, w.requests[r]), ranking).index;
    v := AfterRound(w, r, t, errors(i));
    FewerEligible(w, r, ranking, v);
  }

  lemma NothingAhead(w: World, r: nat, ranking: Ranking, errors: nat -> string)
    requires w.WellFormed() && r < |w.requests| && EligibleFor(w, w.requests[r]) == []
    ensures Ahead(w, r, ranking, errors) == []
  {
  }

  /** After `k` attempts the request stands between attempts with the rest of the plan
      ahead of it, or the plan has been carried out and nothing more will be tried. */
  ghost predicate OnPlan(v: World, r: nat, ranking: Ranking, errors: nat -> string, start: seq<int>, plan: seq<int>, k: nat, budget: nat) {
    && Inv(v) && r < |v.requests|
    && (Underway(v, r, ranking, errors, start, plan, k, budget) || (Settled(v.requests[r]) && v.requests[r].tried == start + plan))
  }

  ghost predicate Underway(v: World, r: nat, ranking: Ranking, errors: nat -> string, start: seq<int>, plan: seq<int>, k: nat, budget: nat)
    requires v.WellFormed() && r < |v.requests|
  {
    && v.requests[r].phase.Choosing? && Ranks(v.requests[r].route.policy, ranking)
    && k <= |plan| && v.requests[r].tried == start + plan[..k] && plan[k..] == Ahead(v, r, ranking, errors)
    && |EligibleFor(v, v.requests[r])| + k <= budget
  }

  lemma SettledRound(v: World, r: nat, error: string)
    requires Inv(v) && r < |v.requests| && Settled(v.requests[r])
    ensures Settled(Round(v, r, error).requests[r]) && Round(v, r, error).requests[r].tried == v.requests[r].tried
  {
    StepSettled(v, Attempt(r, 0), r);
    StepKeeps(v, Attempt(r, 0));
    StepSettled(Step(v, Attempt(r, 0)), Fail(r, error), r);
  }

  lemma PlanStep(start: seq<int>, plan: seq<int>, k: nat, t: int, rest: seq<int>)
    requires k <= |plan| && plan[k..] == [t] + rest
    ensures k + 1 <= |plan| && (start + plan[..k]) + [t] == start + plan[..k + 1] && plan[k + 1..] == rest
    ensures rest == [] ==> plan[..k + 1] == plan
  {
    assert plan[k] == plan[k..][0] == t;
    assert plan[k + 1..] == plan[k..][1..];
  }

  /** A round in which a target is tried. */
  lemma TryingRound(v: World, r: nat, ranking: Ranking, errors: nat -> string, start: seq<int>, plan: seq<int>, k: nat, budget: nat, i: nat)
    requires Inv(v) && r < |v.requests| && Underway(v, r, ranking, errors, start, plan, k, budget)
    requires i == |v.requests[r].tried| + 1
    requires EligibleFor(v, v.requests[r]) != []
    ensures OnPlan(Round(v, r, errors(i)), r, ranking, errors, start, plan, k + 1, budget)
  {
    var error := errors(i);
    RoundKeeps(v, r, error);
    OneRound(v, r, ranking, error);
    var after, t := RoundTries(v, r, ranking, errors, i);
    PlanStep(start, plan, k, t, if after.requests[r].phase.Choosing? then Ahead(after, r, ranking, errors) else []);
  }

  /** A round in which nothing is eligible. */
  lemma IdleRound(v: World, r: nat, ranking: Ranking, errors: nat -> string, start: seq<int>, plan: seq<int>, k: nat, budget: nat, i: nat)
    requires Inv(v) && r < |v.requests| && Underway(v, r, ranking, errors, start, plan, k, budget)
    requires i == |v.requests[r].tried| + 1
    requires EligibleFor(v, v.requests[r]) == []
    ensures OnPlan(Round(v, r, errors(i)), r, ranking, errors, start, plan, k + 1, budget)
  {
    var error := errors(i);
    RoundKeeps(v, r, error);
    NoRound(v, r, ranking, error);
    NothingAhead(v, r, ranking, errors);
    assert plan[..k] == plan;
  }

  lemma OneMore(v: World, r: nat, ranking: Ranking, errors: nat -> string, start: seq<int>, plan: seq<int>, k: nat, budget: nat, i: nat)
    requires OnPlan(v, r, ranking, errors, start, plan, k, budget) && i == |start| + k + 1
    ensures OnPlan(Round(v, r, errors(i)), r, ranking, errors, start, plan, k + 1, budget)
  {
    if Underway(v, r, ranking, errors, start, plan, k, budget) {
      assert |v.requests[r].tried| == |start| + k;
      if EligibleFor(v, v.requests[r]) == [] {
        IdleRound(v, r, ranking, errors, start, plan, k, budget, i);
      } else {
        TryingRound(v, r, ranking, errors, start, plan, k, budget, i);
      }
    } else {
      RoundKeeps(v, r, errors(i));
      SettledRound(v, r, errors(i));
    }
  }

  /** Worlds one round apart, request `r` having been tried `made` times in the first. */
  ghost predicate RoundByRound(worlds: nat -> World, r: nat, errors: nat -> string, made: nat) {
    && (forall k: nat :: worlds(k).WellFormed())
    && forall k: nat, i: nat :: i == made + k + 1 ==> worlds(k + 1) == Round(worlds(k), r, errors(i))
  }

  lemma {:induction false} StaysOnPlan(worlds: nat -> World, r: nat, ranking: Ranking, errors: nat -> string, n: nat,
                                       start: seq<int>, plan: seq<int>, budget: nat)
    requires RoundByRound(worlds, r, errors, |start|)
    requires OnPlan(worlds(0), r, ranking, errors, start, plan, 0, budget)
    ensures OnPlan(worlds(n), r, ranking, errors, start, plan, n, budget)
  {
    if n > 0 {
      var k, i := n - 1, |start| + n;
      StaysOnPlan(worlds, r, ranking, errors, k, start, plan, budget);
      OneMore(worlds(k), r, ranking, errors, start, plan, k, budget, i);
      assert worlds(k + 1) == Round(worlds(k), r, errors(i));
    }
  }

  function After(w: World, r: nat, errors: nat -> string, made: nat): nat -> World
    requires w.WellFormed()
  {
    (k: nat) => Run(w, Rounds(r, errors, made, k))
  }

  lemma AfterOneMore(w: World, r: nat, errors: nat -> string, made: nat, k: nat, i: nat)
    requires w.WellFormed() && i == made + k + 1
    ensures After(w, r, errors, made)(k).WellFormed()
    ensures After(w, r, errors, made)(k + 1) == Round(After(w, r, errors, made)(k), r, errors(i))
  {
    RunRound(w, r, errors, made, k + 1, i);
  }

  lemma AfterIsRoundByRound(w: World, r: nat, errors: nat -> string, made: nat)
    requires w.WellFormed()
    ensures RoundByRound(After(w, r, errors, made), r, errors, made)
  {
    forall k: nat
      ensures After(w, r, errors, made)(k).WellFormed()
    {
      AfterOneMore(w, r, errors, made, k, made + k + 1);
    }
    forall k: nat, i: nat | i == made + k + 1
      ensures After(w, r, errors, made)(k + 1) == Round(After(w, r, errors, made)(k), r, errors(i))
    {
      AfterOneMore(w, r, errors, made, k, i);
    }
  }

  lemma StartsOnPlan(w: World, r: nat, ranking: Ranking, errors: nat -> string)
    requires Ready(w, r) && Ranks(w.requests[r].route.policy, ranking)
    ensures OnPlan(w, r, ranking, errors, w.requests[r].tried, Ahead(w, r, ranking, errors), 0, |EligibleFor(w, w.requests[r])|)
  {
    var start, plan := w.requests[r].tried, Ahead(w, r, ranking, errors);
    assert start + plan[..0] == start;
    assert plan[0..] == plan;
  }

  /** Rounds enough and the plan has been carried out. */
  lemma PlanIsDone(v: World, r: nat, ranking: Ranking, errors: nat -> string, start: seq<int>, plan: seq<int>, n: nat, budget: nat)
    requires OnPlan(v, r, ranking, errors, start, plan, n, budget) && n > budget
    ensures v.requests[r].tried == start + plan
  {
  }

  /** Given rounds enough, the targets the gateway tries for the request are the targets of
      the sequential run, in order. */
  lemma GatewayIsSequential(w: World, r: nat, ranking: Ranking, errors: nat -> string, n: nat)
    requires Ready(w, r) && Ranks(w.requests[r].route.policy, ranking) && n > |EligibleFor(w, w.requests[r])|
    ensures var rq := w.requests[r];
            Run(w, Rounds(r, errors, |rq.tried|, n)).requests[r].tried
            == rq.tried + Indexes(Order.FailingRun(Sequential(rq.route, ranking, errors), Candidates(w, rq), |rq.tried|))
  {
    var start, plan, budget := w.requests[r].tried, Ahead(w, r, ranking, errors), |EligibleFor(w, w.requests[r])|;
    var worlds := After(w, r, errors, |start|);
    AfterIsRoundByRound(w, r, errors, |start|);
    StartsOnPlan(w, r, ranking, errors);
    assert worlds(0) == w;
    StaysOnPlan(worlds, r, ranking, errors, n, start, plan, budget);
    PlanIsDone(worlds(n), r, ranking, errors, start, plan, n, budget);
  }

  lemma FewerEligible(w: World, r: nat, ranking: Ranking, v: World)
    requires Ready(w, r) && EligibleFor(w, w.requests[r]) != []
    requires v.WellFormed() && r < |v.requests| && v.requests[r].route == w.requests[r].route
    requires Candidates(v, v.requests[r])
             == Order.MarkTried(Candidates(w, w.requests[r]), MinBy(EligibleFor(w, w.requests[r]), ranking).index)
    ensures |EligibleFor(v, v.requests[r])| < |EligibleFor(w, w.requests[r])|
  {
    var rq := w.requests[r];
    var e := EligibleFor(w, rq);
    Order.MarkingRemoves(Candidates(w, rq), MinBy(e, ranking).index, rq.route.family, rq.route.required);
    Order.WithoutShrinks(e, MinBy(e, ranking));
  }
}
