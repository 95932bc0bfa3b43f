/** What each event does to the gateway, and what it settles for good. */
module GatewayEvents {
  import opened Common
  import opened RouteOracle
  import opened Gateway

  /** Request `r` aside, `v` is `w`. */
  ghost predicate OthersKept(w: World, v: World, r: nat) {
    |v.requests| == |w.requests| && forall k :: 0 <= k < |w.requests| && k != r ==> v.requests[k] == w.requests[k]
  }

  /** Only the number of attempts at provider `p` differs, by `delta`. */
  ghost predicate ActiveMoves(w: World, v: World, p: nat, delta: int) {
    && |v.providers| == |w.providers| && p < |w.providers|
    && v.providers[p].active == w.providers[p].active + delta
    && v.providers[p] == w.providers[p].(active := v.providers[p].active)
    && forall k :: 0 <= k < |w.providers| && k != p ==> v.providers[k] == w.providers[k]
  }

  /** The provider an attempt in flight is made against. */
  function Against(rq: Request): nat
    requires rq.phase.InFlight? && rq.phase.target < |rq.route.targets|
  {
    rq.route.targets[rq.phase.target].provider
  }

  lemma {:induction false} HoldersCount(rs: seq<Request>, r: nat, p: nat)
    requires r < |rs| && rs[r].Holds(p)
    ensures Holders(rs, p) >= 1
  {
    if r < |rs| - 1 {
      HoldersCount(rs[..|rs| - 1], r, p);
    }
  }

  /** An attempt in flight is counted. */
  lemma InFlightIsCounted(w: World, r: nat)
    requires Inv(w) && r < |w.requests| && w.requests[r].phase.InFlight?
    ensures w.providers[Against(w.requests[r])].active >= 1
  {
    HoldersCount(w.requests, r, Against(w.requests[r]));
  }

  /** A target may be tried next. */
  ghost predicate Open(w: World, rq: Request, t: nat)
    requires rq.WellFormed(|w.providers|) && t < |rq.route.targets|
  {
    var p := w.providers[rq.route.targets[t].provider];
    && t !in rq.tried && p.enabled && p.active < p.maxConcurrency
    && (p.state == Healthy || p.state == Degraded || p.state == HalfOpen)
    && rq.route.family in p.families && rq.route.required <= p.capabilities
  }

  /** `c` is what the oracle is told of target `t`. */
  ghost predicate Describes(w: World, rq: Request, t: nat, c: Candidate)
    requires rq.WellFormed(|w.providers|) && t < |rq.route.targets|
  {
    var target := rq.route.targets[t];
    var p := w.providers[target.provider];
    && c.index == t && c.priority == target.priority && c.weight == target.weight
    && c.providerId == p.id && c.latencyUs == p.latencyUs && c.state == p.state
    && c.active == p.active && c.maxConcurrency == p.maxConcurrency
  }

  /** The oracle chooses among exactly the open targets, told about each what the world says
      of it at this moment. */
  lemma EligibleIff(w: World, rq: Request, t: nat)
    requires rq.WellFormed(|w.providers|) && t < |rq.route.targets|
    ensures Open(w, rq, t) <==> exists c :: c in EligibleFor(w, rq) && c.index == t
    ensures forall c :: c in EligibleFor(w, rq) && c.index == t ==> Describes(w, rq, t, c)
  {
    var cs := Candidates(w, rq);
    if Open(w, rq, t) {
      assert cs[t] in cs && IsEligible(cs[t], rq.route.family, rq.route.required);
    }
    forall c | c in EligibleFor(w, rq) && c.index == t
      ensures c == cs[t]
    {
      var i :| 0 <= i < |cs| && cs[i] == c;
    }
  }

  /** Events about requests or providers that are not there, or not in the right phase,
      change nothing. */
  lemma StrayEventsDoNothing(w: World, e: Event)
    requires w.WellFormed()
    requires match e
      case Arrive(route) => exists i :: 0 <= i < |route.targets| && route.targets[i].provider >= |w.providers|
      case Attempt(r, _) => r >= |w.requests| || !w.requests[r].phase.Choosing?
      case Cancel(r) => r >= |w.requests| || w.requests[r].phase.Ended?
      case Commit(r) => r >= |w.requests| || !w.requests[r].phase.InFlight?
      case Succeed(r) => r >= |w.requests| || !w.requests[r].phase.InFlight?
      case Fail(r, _) => r >= |w.requests| || !w.requests[r].phase.InFlight?
      case Observe(p, _, _, _, _, _) => p >= |w.providers|
    ensures Step(w, e) == w
  {
  }

  // --- one event ------------------------------------------------------------------------------

  /** A request arrives with nothing tried, and changes nothing else. */
  lemma ArriveDoes(w: World, route: Route)
    requires w.WellFormed() && forall i :: 0 <= i < |route.targets| ==> route.targets[i].provider < |w.providers|
    ensures var v := Step(w, Arrive(route));
            && v.providers == w.providers && |v.requests| == |w.requests| + 1
            && v.requests[..|w.requests|] == w.requests
            && v.requests[|w.requests|] == Request(route, [], Choosing, false, false)
  {
  }

  /** An attempt goes to the target the oracle selects, claims one slot of its provider, and
      remembers the target; with none to select the request is over. */
  lemma AttemptDoes(w: World, r: nat, cursor: nat)
    requires Inv(w) && r < |w.requests| && w.requests[r].phase.Choosing?
    ensures var v, rq := Step(w, Attempt(r, cursor)), w.requests[r];
            var choice := Select(rq.route.policy, EligibleFor(w, rq), cursor);
            && OthersKept(w, v, r) && v.requests[r].route == rq.route
            && !v.requests[r].committed && !v.requests[r].cancelled
            && if choice.Chosen? then
                 var t := choice.candidate.index;
                 && 0 <= t < |rq.route.targets| && v.requests[r].phase == InFlight(t) && v.requests[r].tried == rq.tried + [t]
                 && ActiveMoves(w, v, rq.route.targets[t].provider, 1)
               else v.requests[r].phase == Ended && v.requests[r].tried == rq.tried && v.providers == w.providers
  {
    ChosenIsFresh(w, w.requests[r], cursor);
  }

  /** A commit is remembered, and changes nothing else. */
  lemma CommitDoes(w: World, r: nat)
    requires w.WellFormed() && r < |w.requests| && w.requests[r].phase.InFlight?
    ensures var v := Step(w, Commit(r));
            v.providers == w.providers && OthersKept(w, v, r) && v.requests[r] == w.requests[r].(committed := true)
  {
  }

  /** However an attempt ends, its slot is given back once. */
  ghost predicate Released(w: World, v: World, r: nat)
    requires r < |w.requests| && w.requests[r].phase.InFlight? && w.requests[r].phase.target < |w.requests[r].route.targets|
  {
    ActiveMoves(w, v, Against(w.requests[r]), -1) && OthersKept(w, v, r) && v.requests[r].tried == w.requests[r].tried
    && v.requests[r].route == w.requests[r].route && !v.requests[r].phase.InFlight?
  }

  lemma SucceedDoes(w: World, r: nat)
    requires Inv(w) && r < |w.requests| && w.requests[r].phase.InFlight?
    ensures var v := Step(w, Succeed(r)); Released(w, v, r) && v.requests[r].phase == Ended
  {
    InFlightIsCounted(w, r);
  }

  lemma CancelDoes(w: World, r: nat)
    requires Inv(w) && r < |w.requests| && !w.requests[r].phase.Ended?
    ensures var v := Step(w, Cancel(r));
            && v.requests[r].phase == Ended && v.requests[r].cancelled && v.requests[r].tried == w.requests[r].tried
            && if w.requests[r].phase.InFlight? then Released(w, v, r) else v.providers == w.providers && OthersKept(w, v, r)
  {
    if w.requests[r].phase.InFlight? {
      InFlightIsCounted(w, r);
    }
  }

  /** After a failure the slot is given back, and the request may try another target if and
      only if it has not committed, falls back at all, has attempts left, retries this
      failure, and has a target left to try. */
  lemma FailDoes(w: World, r: nat, error: string)
    requires Inv(w) && r < |w.requests| && w.requests[r].phase.InFlight?
    ensures var v, rq := Step(w, Fail(r, error)), w.requests[r];
            && Released(w, v, r)
            && v.requests[r].committed == rq.committed && v.requests[r].cancelled == rq.cancelled
            && (v.requests[r].phase == Choosing <==>
                  && !rq.committed && !rq.cancelled && rq.route.fallbackEnabled && |rq.tried| < rq.route.maxAttempts
                  && error in rq.route.retryable
                  && error in {"connect_failed", "dns_failed", "connect_timeout", "http_502", "http_503", "http_504"}
                  && EligibleFor(v, v.requests[r]) != [])
  {
    InFlightIsCounted(w, r);
    var v, rq := Step(w, Fail(r, error)), w.requests[r];
    var freed := Release(w, r);
    assert Candidates(v, v.requests[r]) == Candidates(freed, freed.requests[r]);
  }

  /** An observation replaces what is known of one provider, except its load. */
  lemma ObserveDoes(w: World, p: nat, enabled: bool, state: Health, latencyUs: Option<int>, families: set<string>, capabilities: set<string>)
    requires w.WellFormed() && p < |w.providers|
    ensures var v, was := Step(w, Observe(p, enabled, state, latencyUs, families, capabilities)), w.providers[p];
            && v.requests == w.requests && |v.providers| == |w.providers|
            && v.providers[p] == Provider(was.id, enabled, state, was.active, was.maxConcurrency, latencyUs, families, capabilities)
            && forall k :: 0 <= k < |w.providers| && k != p ==> v.providers[k] == w.providers[k]
  {
  }

  // --- and ever after ---------------------------------------------------------------------------

  /** After an event that settles a request, no interleaving of later events makes another
      attempt for it. */
  lemma SettlingIsFinal(w: World, e: Event, r: nat, later: seq<Event>)
    requires Inv(w) && r < |w.requests| && Settled(Step(w, e).requests[r])
    ensures Run(w, [e] + later).requests[r].tried == Step(w, e).requests[r].tried
  {
    assert ([e] + later)[1..] == later;
    StepKeeps(w, e);
    SettledForGood(Step(w, e), later, r);
  }

  /** Nothing is tried after a commit... */
  lemma NothingAfterCommit(w: World, r: nat, later: seq<Event>)
    requires Inv(w) && r < |w.requests| && w.requests[r].phase.InFlight?
    ensures Run(w, [Commit(r)] + later).requests[r].tried == w.requests[r].tried
  {
    CommitDoes(w, r);
    SettlingIsFinal(w, Commit(r), r, later);
  }

  /** ... a cancel ... */
  lemma NothingAfterCancel(w: World, r: nat, later: seq<Event>)
    requires Inv(w) && r < |w.requests| && !w.requests[r].phase.Ended?
    ensures Run(w, [Cancel(r)] + later).requests[r].tried == w.requests[r].tried
  {
    CancelDoes(w, r);
    SettlingIsFinal(w, Cancel(r), r, later);
  }

  /** ... or a success. */
  lemma NothingAfterSuccess(w: World, r: nat, later: seq<Event>)
    requires Inv(w) && r < |w.requests| && w.requests[r].phase.InFlight?
    ensures Run(w, [Succeed(r)] + later).requests[r].tried == w.requests[r].tried
  {
    SucceedDoes(w, r);
    SettlingIsFinal(w, Succeed(r), r, later);
  }
}
