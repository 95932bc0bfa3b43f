/** Many requests over shared providers. Every guard is a function of the routing
    oracle; the step order is the daemon's (src/providers/provider_exchange.asm):
    select, record the target as tried, claim a slot, and on any ending release the
    slot before deciding whether another target may be tried. Runs are arbitrary
    interleavings, with provider health, latency and capabilities changing at will. A
    route may retry fewer kinds of failure than the oracle's set, as its configuration
    says. */
module Gateway {
  import opened Common
  import opened RouteOracle

  datatype Provider = Provider(
    id: string, enabled: bool, state: Health, active: nat, maxConcurrency: int,
    latencyUs: Option<int>, families: set<string>, capabilities: set<string>)

  datatype Target = Target(provider: nat, priority: int, weight: int)

  datatype Route = Route(
    targets: seq<Target>, policy: string, fallbackEnabled: bool, maxAttempts: int, retryable: set<string>,
    family: string, required: set<string>)

  datatype Phase = Choosing | InFlight(target: nat) | Ended

  datatype Request = Request(route: Route, tried: seq<nat>, phase: Phase, committed: bool, cancelled: bool) {
    predicate WellFormed(providers: nat) {
      && (forall i :: 0 <= i < |route.targets| ==> route.targets[i].provider < providers)
      && (phase.InFlight? ==> phase.target < |route.targets|)
    }
    predicate Holds(p: nat) {
      phase.InFlight? && phase.target < |route.targets| && route.targets[phase.target].provider == p
    }
  }

  datatype World = World(providers: seq<Provider>, requests: seq<Request>) {
    predicate WellFormed() {
      forall r :: 0 <= r < |requests| ==> requests[r].WellFormed(|providers|)
    }
  }

  datatype Event =
    | Arrive(route: Route)
    | Attempt(r: nat, cursor: nat)
    | Commit(r: nat)
    | Cancel(r: nat)
    | Succeed(r: nat)
    | Fail(r: nat, error: string)
    | Observe(p: nat, enabled: bool, state: Health, latencyUs: Option<int>, families: set<string>, capabilities: set<string>)

  /** The route's targets as the oracle sees them at this moment. */
  function Candidates(w: World, rq: Request): (cs: seq<Candidate>)
    requires rq.WellFormed(|w.providers|)
    ensures |cs| == |rq.route.targets|
  {
    seq(|rq.route.targets|, i requires 0 <= i < |rq.route.targets| =>
      var t := rq.route.targets[i];
      var p := w.providers[t.provider];
      Candidate(p.id, i, t.priority, t.weight, p.state, p.active, p.maxConcurrency, p.latencyUs,
                p.families, p.capabilities, i in rq.tried, p.enabled))
  }

  function EligibleFor(w: World, rq: Request): seq<Candidate>
    requires rq.WellFormed(|w.providers|)
  {
    Eligible(Candidates(w, rq), rq.route.family, rq.route.required)
  }

  /** `w` with request `r` replaced. */
  function With(w: World, r: nat, rq: Request): (v: World)
    requires w.WellFormed() && r < |w.requests| && rq.WellFormed(|w.providers|)
    ensures v.WellFormed()
  {
    w.(requests := w.requests[r := rq])
  }

  function Claim(w: World, r: nat, t: nat): (v: World)
    requires w.WellFormed() && r < |w.requests| && t < |w.requests[r].route.targets|
    ensures v.WellFormed()
  {
    var rq := w.requests[r];
    var p := rq.route.targets[t].provider;
    World(w.providers[p := w.providers[p].(active := w.providers[p].active + 1)],
          w.requests[r := rq.(tried := rq.tried + [t], phase := InFlight(t))])
  }

  /** The one place a slot is given back; the counter saturates at zero. */
  function Release(w: World, r: nat): (v: World)
    requires w.WellFormed() && r < |w.requests| && w.requests[r].phase.InFlight?
    ensures v.WellFormed()
  {
    var rq := w.requests[r];
    var p := rq.route.targets[rq.phase.target].provider;
    var q := w.providers[p];
    World(w.providers[p := q.(active := if q.active == 0 then 0 else q.active - 1)],
          w.requests[r := rq.(phase := Ended)])
  }

  function Step(w: World, e: Event): (v: World)
    requires w.WellFormed()
    ensures v.WellFormed() && |v.providers| == |w.providers| && |v.requests| >= |w.requests|
  {
    match e
    case Arrive(route) =>
      var rq := Request(route, [], Choosing, false, false);
      if rq.WellFormed(|w.providers|) then w.(requests := w.requests + [rq]) else w
    case Attempt(r, cursor) =>
      if r < |w.requests| && w.requests[r].phase.Choosing? then
        var rq := w.requests[r];
        var choice := Select(rq.route.policy, EligibleFor(w, rq), cursor);
        if choice.Chosen? && 0 <= choice.candidate.index < |rq.route.targets|
        then Claim(w, r, choice.candidate.index)
        else With(w, r, rq.(phase := Ended))
      else w
    case Commit(r) =>
      if r < |w.requests| && w.requests[r].phase.InFlight?
      then With(w, r, w.requests[r].(committed := true))
      else w
    case Cancel(r) =>
      if r < |w.requests| && !w.requests[r].phase.Ended? then
        var v := if w.requests[r].phase.InFlight? then Release(w, r) else w;
        With(v, r, v.requests[r].(phase := Ended, cancelled := true))
      else w
    case Succeed(r) =>
      if r < |w.requests| && w.requests[r].phase.InFlight? then Release(w, r) else w
    case Fail(r, error) =>
      if r < |w.requests| && w.requests[r].phase.InFlight? then
        var v := Release(w, r);
        var rq := v.requests[r];
        if error in rq.route.retryable &&
           FallbackAllowed(rq.committed, rq.cancelled, rq.route.fallbackEnabled, |rq.tried|, rq.route.maxAttempts,
                           error, EligibleFor(v, rq) != [])
        then With(v, r, rq.(phase := Choosing))
        else v
      else w
    case Observe(p, enabled, state, latencyUs, families, capabilities) =>
      if p < |w.providers| then
        w.(providers := w.providers[p := w.providers[p].(enabled := enabled, state := state, latencyUs := latencyUs,
                                                         families := families, capabilities := capabilities)])
      else w
  }

  function Run(w: World, events: seq<Event>): (v: World)
    requires w.WellFormed()
    ensures v.WellFormed() && |v.providers| == |w.providers| && |v.requests| >= |w.requests|
    decreases |events|
  {
    if events == [] then w else Run(Step(w, events[0]), events[1..])
  }

  // --- the invariant ------------------------------------------------------------------

  function Holders(requests: seq<Request>, p: nat): nat {
    if requests == [] then 0
    else Holders(requests[..|requests| - 1], p) + (if requests[|requests| - 1].Holds(p) then 1 else 0)
  }

  ghost predicate NoRepeats(s: seq<nat>) {
    forall i, j :: 0 <= i < j < |s| ==> s[i] != s[j]
  }

  ghost predicate RequestOk(rq: Request) {
    && NoRepeats(rq.tried)
    && (forall i :: 0 <= i < |rq.tried| ==> rq.tried[i] < |rq.route.targets|)
    && (|rq.tried| <= 1 || |rq.tried| <= rq.route.maxAttempts)
    && (rq.phase.Choosing? ==> !rq.committed && !rq.cancelled && (rq.tried == [] || |rq.tried| < rq.route.maxAttempts))
    && (rq.phase.InFlight? ==> rq.tried != [] && rq.phase.target == rq.tried[|rq.tried| - 1])
  }

  ghost predicate SlotsOk(w: World) {
    forall p :: 0 <= p < |w.providers| ==>
      w.providers[p].active == Holders(w.requests, p) <= w.providers[p].maxConcurrency
  }

  ghost predicate Inv(w: World) {
    && w.WellFormed()
    && (forall r :: 0 <= r < |w.requests| ==> RequestOk(w.requests[r]))
    && SlotsOk(w)
  }

  /** Nothing in flight, nothing requested, no ceiling below zero. */
  ghost predicate Idle(w: World) {
    w.requests == [] && forall p :: 0 <= p < |w.providers| ==> w.providers[p].active == 0 <= w.providers[p].maxConcurrency
  }

  lemma {:induction false} HoldersUpdate(rs: seq<Request>, r: nat, rq: Request, p: nat)
    requires r < |rs|
    ensures Holders(rs[r := rq], p) == Holders(rs, p) - (if rs[r].Holds(p) then 1 else 0) + (if rq.Holds(p) then 1 else 0)
  {
    var n := |rs| - 1;
    var front := rs[..n];
    if r == n {
      assert rs[r := rq][..n] == front;
    } else {
      HoldersUpdate(front, r, rq, p);
      assert rs[r := rq][..n] == front[r := rq];
    }
  }

  lemma SelectMember(policy: string, cs: seq<Candidate>, cursor: nat)
    ensures var s := Select(policy, cs, cursor); s.Chosen? ==> s.candidate in cs
  {
    var s := Select(policy, cs, cursor);
    if s.Chosen? && policy == "round_robin" {
      SortLength(cs, ByConfiguration);
      SameElements(cs, SortBy(cs, ByConfiguration));
    }
  }

  /** A chosen target is untried, in range, and below its provider's ceiling. */
  lemma ChosenIsFresh(w: World, rq: Request, cursor: nat)
    requires rq.WellFormed(|w.providers|)
    ensures var s := Select(rq.route.policy, EligibleFor(w, rq), cursor);
            s.Chosen? ==>
              && 0 <= s.candidate.index < |rq.route.targets|
              && s.candidate.index !in rq.tried
              && var p := w.providers[rq.route.targets[s.candidate.index].provider];
                 p.active < p.maxConcurrency
  {
    SelectMember(rq.route.policy, EligibleFor(w, rq), cursor);
  }

  lemma ClaimKeeps(w: World, r: nat, t: nat)
    requires Inv(w) && r < |w.requests| && w.requests[r].phase.Choosing?
    requires t < |w.requests[r].route.targets| && t !in w.requests[r].tried
    requires var p := w.providers[w.requests[r].route.targets[t].provider]; p.active < p.maxConcurrency
    ensures Inv(Claim(w, r, t))
  {
    var v := Claim(w, r, t);
    assert RequestOk(v.requests[r]);
    forall p | 0 <= p < |v.providers|
      ensures v.providers[p].active == Holders(v.requests, p) <= v.providers[p].maxConcurrency
    {
      HoldersUpdate(w.requests, r, v.requests[r], p);
    }
  }

  lemma ReleaseKeeps(w: World, r: nat)
    requires Inv(w) && r < |w.requests| && w.requests[r].phase.InFlight?
    ensures Inv(Release(w, r))
  {
    var v := Release(w, r);
    assert RequestOk(v.requests[r]);
    forall p | 0 <= p < |v.providers|
      ensures v.providers[p].active == Holders(v.requests, p) <= v.providers[p].maxConcurrency
    {
      HoldersUpdate(w.requests, r, v.requests[r], p);
    }
  }

  /** Replacing a request by one that holds the same slot leaves the counters right. */
  lemma ReplaceKeeps(w: World, r: nat, rq: Request)
    requires Inv(w) && r < |w.requests| && RequestOk(rq) && rq.WellFormed(|w.providers|)
    requires forall p: nat :: rq.Holds(p) == w.requests[r].Holds(p)
    ensures Inv(w.(requests := w.requests[r := rq]))
  {
    forall p | 0 <= p < |w.providers|
      ensures Holders(w.requests[r := rq], p) == Holders(w.requests, p)
    {
      HoldersUpdate(w.requests, r, rq, p);
    }
  }

  lemma StepKeeps(w: World, e: Event)
    requires Inv(w)
    ensures Inv(Step(w, e))
  {
    match e
    case Arrive(route) =>
      var rq := Request(route, [], Choosing, false, false);
      assert (w.requests + [rq])[..|w.requests|] == w.requests;
      assert RequestOk(rq);
    case Attempt(r, cursor) =>
      if r < |w.requests| && w.requests[r].phase.Choosing? {
        var rq := w.requests[r];
        ChosenIsFresh(w, rq, cursor);
        var choice := Select(rq.route.policy, EligibleFor(w, rq), cursor);
        if choice.Chosen? {
          ClaimKeeps(w, r, choice.candidate.index);
        } else {
          ReplaceKeeps(w, r, rq.(phase := Ended));
        }
      }
    case Commit(r) =>
      if r < |w.requests| && w.requests[r].phase.InFlight? {
        ReplaceKeeps(w, r, w.requests[r].(committed := true));
      }
    case Cancel(r) =>
      if r < |w.requests| && !w.requests[r].phase.Ended? {
        var v := w;
        if w.requests[r].phase.InFlight? {
          ReleaseKeeps(w, r);
          v := Release(w, r);
        }
        ReplaceKeeps(v, r, v.requests[r].(phase := Ended, cancelled := true));
      }
    case Succeed(r) =>
      if r < |w.requests| && w.requests[r].phase.InFlight? {
        ReleaseKeeps(w, r);
      }
    case Fail(r, error) =>
      if r < |w.requests| && w.requests[r].phase.InFlight? {
        ReleaseKeeps(w, r);
        var v := Release(w, r);
        var rq := v.requests[r];
        if error in rq.route.retryable &&
           FallbackAllowed(rq.committed, rq.cancelled, rq.route.fallbackEnabled, |rq.tried|, rq.route.maxAttempts,
                           error, EligibleFor(v, rq) != []) {
          ReplaceKeeps(v, r, rq.(phase := Choosing));
        }
      }
    case Observe(p, _, _, _, _, _) =>
  }

  lemma {:induction false} RunKeeps(w: World, events: seq<Event>)
    requires Inv(w)
    ensures Inv(Run(w, events))
    decreases |events|
  {
    if events != [] {
      StepKeeps(w, events[0]);
      RunKeeps(Step(w, events[0]), events[1..]);
    }
  }

  lemma {:induction false} NoneHeld(requests: seq<Request>, p: nat)
    requires forall r :: 0 <= r < |requests| ==> !requests[r].phase.InFlight?
    ensures Holders(requests, p) == 0
  {
    if requests != [] {
      NoneHeld(requests[..|requests| - 1], p);
    }
  }

  /** Every run from an idle gateway: no request tries a target twice or exceeds its
      budget; each provider's counter is the number of attempts holding it and stays
      within the ceiling; and when nothing is in flight every counter is back at zero. */
  lemma RunsAreSafe(w: World, events: seq<Event>)
    requires Idle(w)
    ensures var v := Run(w, events);
            && (forall r :: 0 <= r < |v.requests| ==> NoRepeats(v.requests[r].tried))
            && (forall r :: 0 <= r < |v.requests| ==>
                  |v.requests[r].tried| <= |v.requests[r].route.targets|
                  && (v.requests[r].route.maxAttempts >= 1 ==> |v.requests[r].tried| <= v.requests[r].route.maxAttempts))
            && SlotsOk(v)
            && ((forall r :: 0 <= r < |v.requests| ==> !v.requests[r].phase.InFlight?) ==>
                  forall p :: 0 <= p < |v.providers| ==> v.providers[p].active == 0)
  {
    RunKeeps(w, events);
    var v := Run(w, events);
    forall r | 0 <= r < |v.requests|
      ensures |v.requests[r].tried| <= |v.requests[r].route.targets|
    {
      assert RequestOk(v.requests[r]);
      DistinctBelow(v.requests[r].tried, |v.requests[r].route.targets|);
    }
    if forall r :: 0 <= r < |v.requests| ==> !v.requests[r].phase.InFlight? {
      forall p | 0 <= p < |v.providers|
        ensures v.providers[p].active == 0
      {
        NoneHeld(v.requests, p);
      }
    }
  }

  function Below(n: nat): (s: set<nat>)
    ensures |s| == n && forall i: nat :: i in s <==> i < n
  {
    if n == 0 then {} else Below(n - 1) + {n - 1}
  }

  lemma DistinctBelow(s: seq<nat>, n: nat)
    requires NoRepeats(s) && forall i :: 0 <= i < |s| ==> s[i] < n
    ensures |s| <= n
  {
    var image := set i | 0 <= i < |s| :: s[i];
    ImageSize(s, image);
    SubsetSize(image, Below(n));
  }

  lemma {:induction false} ImageSize(s: seq<nat>, image: set<nat>)
    requires NoRepeats(s) && image == set i | 0 <= i < |s| :: s[i]
    ensures |image| == |s|
  {
    if s != [] {
      var n := |s| - 1;
      var front := set i | 0 <= i < n :: s[..n][i];
      assert image == front + {s[n]};
      ImageSize(s[..n], front);
    }
  }

  lemma {:induction false} SubsetSize(a: set<nat>, b: set<nat>)
    requires a <= b
    ensures |a| <= |b|
  {
    if a != {} {
      var x :| x in a;
      SubsetSize(a - {x}, b - {x});
    }
  }

  // --- nothing is attempted after it is too late ------------------------------------------

  /** No further attempt may be made for this request. */
  predicate Settled(rq: Request) {
    rq.committed || rq.cancelled || rq.phase.Ended?
  }

  lemma StepSettled(w: World, e: Event, r: nat)
    requires Inv(w) && r < |w.requests| && Settled(w.requests[r])
    ensures Settled(Step(w, e).requests[r])
    ensures Step(w, e).requests[r].tried == w.requests[r].tried
  {
  }

  /** Once a request has committed, been cancelled or ended, no interleaving of later
      events makes another attempt for it. */
  lemma {:induction false} SettledForGood(w: World, events: seq<Event>, r: nat)
    requires Inv(w) && r < |w.requests| && Settled(w.requests[r])
    ensures Run(w, events).requests[r].tried == w.requests[r].tried
    decreases |events|
  {
    if events != [] {
      StepSettled(w, events[0], r);
      StepKeeps(w, events[0]);
      SettledForGood(Step(w, events[0]), events[1..], r);
    }
  }

  /** A failure ends the request unless every clause of the fallback rule holds, so a
      failure that is not retryable, or that follows a commit, is the last event that
      matters. */
  lemma FailureSettles(w: World, r: nat, error: string, later: seq<Event>)
    requires Inv(w) && r < |w.requests| && w.requests[r].phase.InFlight?
    requires w.requests[r].committed || error !in w.requests[r].route.retryable || error !in RETRYABLE_ERRORS
             || !w.requests[r].route.fallbackEnabled || |w.requests[r].tried| >= w.requests[r].route.maxAttempts
    ensures Run(w, [Fail(r, error)] + later).requests[r].tried == w.requests[r].tried
  {
    var events := [Fail(r, error)] + later;
    assert events[1..] == later;
    StepKeeps(w, Fail(r, error));
    SettledForGood(Step(w, Fail(r, error)), later, r);
  }

  // --- termination --------------------------------------------------------------------------

  /** Counts down with every event that changes the request: untried targets first. */
  function Remaining(rq: Request): int {
    var untried := |rq.route.targets| - |rq.tried|;
    match rq.phase
    case Ended => 0
    case Choosing => 3 * untried + 1
    case InFlight(_) => 3 * untried + (if rq.committed then 2 else 3)
  }

  lemma RemainingBounds(rq: Request)
    requires RequestOk(rq)
    ensures 0 <= Remaining(rq) <= 3 * |rq.route.targets| + 1
    ensures Remaining(rq) == 0 <==> rq.phase.Ended?
  {
    DistinctBelow(rq.tried, |rq.route.targets|);
  }

  /** The attempt loop terminates: whatever the other requests and the providers do,
      each event that touches a live request strictly lowers its remaining count. */
  lemma LiveEventsCountDown(w: World, e: Event, r: nat)
    requires Inv(w) && r < |w.requests|
    ensures var before, after := w.requests[r], Step(w, e).requests[r];
            before == after || Remaining(after) < Remaining(before)
  {
    var rq := w.requests[r];
    DistinctBelow(rq.tried, |rq.route.targets|);
    if e.Attempt? && e.r == r && rq.phase.Choosing? {
      ChosenIsFresh(w, rq, e.cursor);
      StepKeeps(w, e);
      RemainingBounds(Step(w, e).requests[r]);
    }
  }

  /** How many events of a run change request `r`. */
  function Touches(w: World, events: seq<Event>, r: nat): nat
    requires w.WellFormed() && r < |w.requests|
    decreases |events|
  {
    if events == [] then 0
    else
      var v := Step(w, events[0]);
      (if v.requests[r] == w.requests[r] then 0 else 1) + Touches(v, events[1..], r)
  }

  /** In every run, however long, a request over `n` targets changes at most `3n + 1`
      times. */
  lemma {:induction false} RequestsTerminate(w: World, events: seq<Event>, r: nat)
    requires Inv(w) && r < |w.requests|
    ensures Touches(w, events, r) <= Remaining(w.requests[r]) <= 3 * |w.requests[r].route.targets| + 1
    decreases |events|
  {
    RemainingBounds(w.requests[r]);
    if events != [] {
      LiveEventsCountDown(w, events[0], r);
      StepKeeps(w, events[0]);
      RequestsTerminate(Step(w, events[0]), events[1..], r);
    }
  }
}
