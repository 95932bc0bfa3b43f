/** The daemon's circuit breaker (src/routing/routing_health.asm), one provider at a
    time, driven by the attempts of src/providers/provider_exchange.asm. Counters and
    times are unbounded here; the configuration keeps them far below 2^64. */
module CircuitBreaker {
  import opened RouteOracle

  const MAX_BACKOFF: nat := 16         // AF_HEALTH_MAX_BACKOFF
  const NS_PER_MS: nat := 1_000_000

  datatype Limits = Limits(failures: nat, successes: nat, cooldownMs: nat) {
    /** All that the theorems need. */
    predicate Valid() { failures >= 1 && successes >= 1 && cooldownMs >= 1 }
    /** What the validator accepts (tests/config_corpus.py). */
    predicate Configurable() {
      1 <= failures <= 100 && 1 <= successes <= 100 && 1000 <= cooldownMs <= 3_600_000
    }
  }

  datatype Circuit = Circuit(
    health: Health, failures: nat, successes: nat, openUntilNs: nat,
    active: nat, ewmaUs: nat, backoffMs: nat, probes: nat)

  /** Healthy, never measured, nothing in flight. */
  const FRESH: Circuit := Circuit(Healthy, 0, 0, 0, 0, 0, 0, 0)

  // --- transitions ---------------------------------------------------------------------------

  function Refresh(c: Circuit, nowNs: nat): Circuit {
    if c.health == Open && nowNs >= c.openUntilNs then c.(health := HalfOpen, probes := 0, successes := 0) else c
  }

  predicate Admits(c: Circuit) {
    c.health == Healthy || c.health == Degraded || (c.health == HalfOpen && c.probes < 1)
  }

  function Begin(c: Circuit): Circuit {
    c.(active := c.active + 1, probes := if c.health == HalfOpen then c.probes + 1 else c.probes)
  }

  function Less(n: nat): nat { if n == 0 then 0 else n - 1 }

  function End(c: Circuit, wasProbe: bool): Circuit {
    c.(active := Less(c.active), probes := if wasProbe then Less(c.probes) else c.probes)
  }

  /** A quarter of the observation and three quarters of the average, never rounded
      down to "unknown": the result lies between the two. */
  function Ewma(previous: nat, observed: nat): (r: nat)
    ensures r >= 1
    ensures previous > 0 && observed > 0 ==> (if previous < observed then previous else observed) <= r <= (if previous < observed then observed else previous)
    ensures previous == 0 && observed > 0 ==> r == observed
  {
    var o := if observed == 0 then 1 else observed;
    if previous == 0 then o else (o + previous * 3) / 4
  }

  function Succeed(c: Circuit, l: Limits, latencyUs: nat): Circuit {
    var d := c.(failures := 0, successes := c.successes + 1, ewmaUs := Ewma(c.ewmaUs, latencyUs));
    if (d.health == Degraded || d.health == HalfOpen) && d.successes >= l.successes
    then d.(health := Healthy, backoffMs := 0, successes := 0)
    else d
  }

  /** The doubled cooldown, capped. */
  function Stretch(backoffMs: nat, cooldownMs: nat): nat {
    var doubled := 2 * if backoffMs == 0 then cooldownMs else backoffMs;
    if doubled <= cooldownMs * MAX_BACKOFF then doubled else cooldownMs * MAX_BACKOFF
  }

  function Fail(c: Circuit, l: Limits, nowNs: nat): Circuit {
    var d := c.(successes := 0, failures := c.failures + 1);
    if d.health == Disabled then d
    else if d.health != HalfOpen && d.failures < l.failures then d.(health := Degraded)
    else
      var backoff := if d.health == HalfOpen then Stretch(d.backoffMs, l.cooldownMs) else l.cooldownMs;
      d.(backoffMs := backoff, health := Open, probes := 0, openUntilNs := nowNs + backoff * NS_PER_MS)
  }

  /** The state, updated in place by the routines of routing_health.asm. */
  class ProviderState {
    var circuit: Circuit

    constructor ()
      ensures circuit == FRESH
    {
      circuit := FRESH;
    }

    /** `af_health_refresh`. */
    method RefreshAt(nowNs: nat)
      modifies this
      ensures circuit == Refresh(old(circuit), nowNs)
    {
      if circuit.health == Open {
        if nowNs >= circuit.openUntilNs {
          circuit := circuit.(health := HalfOpen);
          circuit := circuit.(probes := 0);
          circuit := circuit.(successes := 0);
        }
      }
    }

    /** `af_health_begin`: true when the attempt is a probe. */
    method BeginAttempt() returns (probe: bool)
      modifies this
      ensures circuit == Begin(old(circuit)) && probe == (old(circuit).health == HalfOpen)
    {
      circuit := circuit.(active := circuit.active + 1);
      if circuit.health != HalfOpen {
        return false;
      }
      circuit := circuit.(probes := circuit.probes + 1);
      return true;
    }

    /** `af_health_end`. */
    method EndAttempt(wasProbe: bool)
      modifies this
      ensures circuit == End(old(circuit), wasProbe)
    {
      if circuit.active != 0 {
        circuit := circuit.(active := circuit.active - 1);
      }
      if wasProbe && circuit.probes != 0 {
        circuit := circuit.(probes := circuit.probes - 1);
      }
    }

    /** `af_health_success`. */
    method SucceedWith(l: Limits, latencyUs: nat)
      modifies this
      ensures circuit == Succeed(old(circuit), l, latencyUs)
    {
      circuit := circuit.(failures := 0);
      circuit := circuit.(successes := circuit.successes + 1);
      circuit := circuit.(ewmaUs := Ewma(circuit.ewmaUs, latencyUs));
      if circuit.health == Healthy || circuit.health == Disabled || circuit.health == Open {
        return;
      }
      if circuit.successes >= l.successes {
        circuit := circuit.(health := Healthy);
        circuit := circuit.(backoffMs := 0);
        circuit := circuit.(successes := 0);
      }
    }

    /** `af_health_failure`. */
    method FailAt(l: Limits, nowNs: nat)
      modifies this
      ensures circuit == Fail(old(circuit), l, nowNs)
    {
      circuit := circuit.(successes := 0);
      circuit := circuit.(failures := circuit.failures + 1);
      if circuit.health == Disabled {
        return;
      }
      if circuit.health == HalfOpen {
        var backoff := if circuit.backoffMs != 0 then circuit.backoffMs else l.cooldownMs;
        backoff := backoff + backoff;
        if backoff > l.cooldownMs * MAX_BACKOFF {
          backoff := l.cooldownMs * MAX_BACKOFF;
        }
        circuit := circuit.(backoffMs := backoff);
      } else if circuit.failures >= l.failures {
        circuit := circuit.(backoffMs := l.cooldownMs);
      } else {
        circuit := circuit.(health := Degraded);
        return;
      }
      circuit := circuit.(health := Open);
      circuit := circuit.(probes := 0);
      circuit := circuit.(openUntilNs := nowNs + circuit.backoffMs * NS_PER_MS);
    }
  }

  // --- what the transitions mean ------------------------------------------------------------------

  /** Looking at a circuit on the way makes no difference to what a later look finds. */
  lemma RefreshComposes(c: Circuit, t: nat, u: nat)
    requires t <= u
    ensures Refresh(Refresh(c, t), u) == Refresh(c, u)
  {
  }

  /** Ending an attempt, with the answer its beginning gave, takes back all it did. */
  lemma EndUndoesBegin(c: Circuit)
    ensures End(Begin(c), c.health == HalfOpen) == c
  {
  }

  function FailAll(c: Circuit, l: Limits, times: seq<nat>): Circuit {
    if times == [] then c else Fail(FailAll(c, l, times[..|times| - 1]), l, times[|times| - 1])
  }

  /** Consecutive failures: below the threshold they degrade, and from the threshold on
      the circuit is open for one cooldown from the latest. Any success in between starts
      the count again. */
  lemma {:induction false} ConsecutiveFailures(c: Circuit, l: Limits, times: seq<nat>)
    requires l.Valid() && c.health in {Healthy, Degraded} && c.failures == 0
    ensures var d, n := FailAll(c, l, times), |times|;
            && d.failures == n && (n > 0 ==> d.successes == 0)
            && d.active == c.active && d.ewmaUs == c.ewmaUs
            && (n == 0 ==> d == c)
            && (0 < n < l.failures ==> d.health == Degraded && d.probes == c.probes && d.backoffMs == c.backoffMs)
            && (n >= l.failures ==> d.health == Open && d.openUntilNs == times[n - 1] + l.cooldownMs * NS_PER_MS
                                    && d.backoffMs == l.cooldownMs && d.probes == 0)
  {
    if times != [] {
      ConsecutiveFailures(c, l, times[..|times| - 1]);
    }
  }

  function SucceedAll(c: Circuit, l: Limits, latencies: seq<nat>): Circuit {
    if latencies == [] then c else Succeed(SucceedAll(c, l, latencies[..|latencies| - 1]), l, latencies[|latencies| - 1])
  }

  /** Consecutive successes close a degraded or half-open circuit exactly when, with those
      already counted, they reach the threshold. */
  lemma {:induction false} ConsecutiveSuccesses(c: Circuit, l: Limits, latencies: seq<nat>)
    requires l.Valid() && c.health in {Degraded, HalfOpen} && c.successes < l.successes
    ensures var d, n := SucceedAll(c, l, latencies), |latencies|;
            && (n > 0 ==> d.failures == 0)
            && d.active == c.active && d.probes == c.probes && d.openUntilNs == c.openUntilNs
            && if c.successes + n < l.successes
               then d.health == c.health && d.successes == c.successes + n && d.backoffMs == c.backoffMs
               else d.health == Healthy && d.successes == c.successes + n - l.successes && d.backoffMs == 0
  {
    if latencies != [] {
      ConsecutiveSuccesses(c, l, latencies[..|latencies| - 1]);
    }
  }

  /** `n` probes in a row, each sent when the cooldown ends and failing at once. */
  function FailedProbes(c: Circuit, l: Limits, n: nat): Circuit {
    if n == 0 then c
    else
      var d := FailedProbes(c, l, n - 1);
      Fail(Refresh(d, d.openUntilNs), l, d.openUntilNs)
  }

  function Power(n: nat): nat { if n == 0 then 1 else 2 * Power(n - 1) }

  function Capped(n: nat): nat { if Power(n) <= MAX_BACKOFF then Power(n) else MAX_BACKOFF }

  lemma {:induction false} CappedDoubles(n: nat)
    ensures Capped(n) in {1, 2, 4, 8, 16}
    ensures Capped(n + 1) == if Capped(n) < MAX_BACKOFF then 2 * Capped(n) else MAX_BACKOFF
  {
    if n > 0 {
      CappedDoubles(n - 1);
    }
  }

  lemma StretchCapped(cooldownMs: nat, k: nat)
    requires cooldownMs >= 1 && k in {1, 2, 4, 8, 16}
    ensures Stretch(cooldownMs * k, cooldownMs) == cooldownMs * if k < MAX_BACKOFF then 2 * k else MAX_BACKOFF
  {
    if k == 1 {
    } else if k == 2 {
    } else if k == 4 {
    } else if k == 8 {
    } else {
    }
  }

  /** A provider that stays down is probed less and less often: the n-th failed probe
      leaves 2^n cooldowns to wait, up to sixteen. */
  lemma {:induction false} FailedProbesBackOff(c: Circuit, l: Limits, n: nat)
    requires l.Valid() && c.health == Open && c.backoffMs == l.cooldownMs
    ensures var d := FailedProbes(c, l, n);
            d.health == Open && d.backoffMs == l.cooldownMs * Capped(n)
    ensures n > 0 ==> FailedProbes(c, l, n).openUntilNs
                      == FailedProbes(c, l, n - 1).openUntilNs + l.cooldownMs * Capped(n) * NS_PER_MS
  {
    if n > 0 {
      FailedProbesBackOff(c, l, n - 1);
      CappedDoubles(n - 1);
      StretchCapped(l.cooldownMs, Capped(n - 1));
    }
  }

  // --- runs --------------------------------------------------------------------------------------

  datatype Verdict = Success(latencyUs: nat) | Failure | Cancelled

  /** Each event says how long after the previous one it happens: the clock is monotonic. */
  datatype Event =
    | Look(afterNs: nat)                                       // refresh, by a request that goes elsewhere
    | Arrive(afterNs: nat)                                     // refresh, and an attempt if admitted
    | Finish(probe: bool, verdict: Verdict, afterNs: nat)      // release, then record the outcome

  /** The circuit, the attempts in flight against it, the clock, when it last opened, and
      the latest deadline it was ever given. */
  datatype World = World(circuit: Circuit, plain: nat, probing: nat, nowNs: nat, openedAtNs: nat, dueNs: nat)

  const START: World := World(FRESH, 0, 0, 0, 0, 0)

  function Later(a: nat, b: nat): nat { if a < b then b else a }

  function Recorded(c: Circuit, l: Limits, verdict: Verdict, nowNs: nat): Circuit {
    match verdict
    case Cancelled => c
    case Success(latencyUs) => Succeed(c, l, latencyUs)
    case Failure => Fail(c, l, nowNs)
  }

  /** A failure now would open the circuit. */
  predicate Trips(c: Circuit, l: Limits) {
    c.health != Disabled && (c.health == HalfOpen || c.failures + 1 >= l.failures)
  }

  /** The finish event is about an attempt that is in flight. */
  predicate Held(w: World, e: Event)
    requires e.Finish?
  {
    if e.probe then w.probing > 0 else w.plain > 0
  }

  function Step(w: World, l: Limits, e: Event): World {
    var now := w.nowNs + e.afterNs;
    match e
    case Look(_) => w.(circuit := Refresh(w.circuit, now), nowNs := now)
    case Arrive(_) =>
      var c := Refresh(w.circuit, now);
      if !Admits(c) then w.(circuit := c, nowNs := now)
      else if c.health == HalfOpen then w.(circuit := Begin(c), probing := w.probing + 1, nowNs := now)
      else w.(circuit := Begin(c), plain := w.plain + 1, nowNs := now)
    case Finish(probe, verdict, _) =>
      if !Held(w, e) then w.(nowNs := now)
      else
        var c := Recorded(End(w.circuit, probe), l, verdict, now);
        World(c,
              if probe then w.plain else w.plain - 1,
              if probe then w.probing - 1 else w.probing,
              now,
              if verdict == Failure && Trips(w.circuit, l) then now else w.openedAtNs,
              Later(w.dueNs, c.openUntilNs))
  }

  function Run(w: World, l: Limits, events: seq<Event>): World {
    if events == [] then w else Step(Run(w, l, events[..|events| - 1]), l, events[|events| - 1])
  }

  lemma RunSnoc(w: World, l: Limits, events: seq<Event>, e: Event)
    ensures Run(w, l, events + [e]) == Step(Run(w, l, events), l, e)
  {
    assert (events + [e])[..|events|] == events;
  }

  lemma RunStep(w: World, l: Limits, events: seq<Event>, n: nat)
    requires n < |events|
    ensures Run(w, l, events[..n + 1]) == Step(Run(w, l, events[..n]), l, events[n])
  {
    assert events[..n + 1] == events[..n] + [events[n]];
    RunSnoc(w, l, events[..n], events[n]);
  }

  /** What every run keeps. */
  ghost predicate Inv(w: World, l: Limits) {
    && w.circuit.active == w.plain + w.probing
    && w.circuit.probes <= w.probing
    && CircuitOk(w.circuit, l)
    && w.openedAtNs <= w.nowNs && w.circuit.openUntilNs <= w.dueNs
    && (w.circuit.health == Open ==> w.circuit.openUntilNs == w.openedAtNs + w.circuit.backoffMs * NS_PER_MS)
  }

  /** The part of the invariant that is about the circuit alone. */
  ghost predicate CircuitOk(c: Circuit, l: Limits) {
    && c.probes <= 1
    && (c.health == Open ==> l.cooldownMs <= c.backoffMs)
    && c.backoffMs <= l.cooldownMs * MAX_BACKOFF
    && (c.backoffMs == 0 || l.cooldownMs <= c.backoffMs)
    && (c.health in {Healthy, Degraded} ==> c.failures < l.failures)
    && c.health != Disabled
  }

  lemma StretchBounds(backoffMs: nat, cooldownMs: nat)
    requires cooldownMs >= 1 && (backoffMs == 0 || cooldownMs <= backoffMs) && backoffMs <= cooldownMs * MAX_BACKOFF
    ensures cooldownMs <= Stretch(backoffMs, cooldownMs) <= cooldownMs * MAX_BACKOFF
    ensures backoffMs > 0 ==> backoffMs <= Stretch(backoffMs, cooldownMs)
  {
  }

  lemma RecordedKeeps(c: Circuit, l: Limits, verdict: Verdict, nowNs: nat)
    requires CircuitOk(c, l) && l.Valid()
    ensures CircuitOk(Recorded(c, l, verdict, nowNs), l)
    ensures Recorded(c, l, verdict, nowNs).active == c.active && Recorded(c, l, verdict, nowNs).probes <= c.probes
  {
    if verdict == Failure {
      StretchBounds(c.backoffMs, l.cooldownMs);
    }
  }

  lemma StepKeeps(w: World, l: Limits, e: Event)
    requires Inv(w, l) && l.Valid()
    ensures Inv(Step(w, l, e), l)
  {
    if e.Finish? {
      assert CircuitOk(End(w.circuit, e.probe), l);
      RecordedKeeps(End(w.circuit, e.probe), l, e.verdict, w.nowNs + e.afterNs);
    }
  }

  lemma {:induction false} RunKeeps(w: World, l: Limits, events: seq<Event>)
    requires Inv(w, l) && l.Valid()
    ensures Inv(Run(w, l, events), l)
  {
    if events != [] {
      RunKeeps(w, l, events[..|events| - 1]);
      StepKeeps(Run(w, l, events[..|events| - 1]), l, events[|events| - 1]);
    }
  }

  /** Every run of one provider's circuit, from the start: the concurrency counter is
      exact, the probe counter never exceeds one, a closed circuit is below its failure
      threshold, and an open one waits at least the cooldown and at most sixteen times
      it from the moment it opened; no outcome disables a provider. */
  lemma EveryRun(l: Limits, events: seq<Event>)
    requires l.Valid()
    ensures var w := Run(START, l, events);
            && w.circuit.active == w.plain + w.probing
            && w.circuit.probes <= 1
            && (w.circuit.health in {Healthy, Degraded} ==> w.circuit.failures < l.failures)
            && (w.circuit.health == Open ==>
                  && w.openedAtNs <= w.nowNs
                  && l.cooldownMs * NS_PER_MS <= w.circuit.openUntilNs - w.openedAtNs <= MAX_BACKOFF * l.cooldownMs * NS_PER_MS)
            && w.circuit.health != Disabled
  {
    RunKeeps(START, l, events);
  }

  /** A property that one event at a time is kept or broken holds throughout exactly when
      no event breaks it. */
  lemma {:induction false} KeptThroughout<S, E>(states: seq<S>, events: seq<E>, good: S -> bool, breaks: (S, E) -> bool)
    requires |states| == |events| + 1 && good(states[0])
    requires forall n :: 0 <= n < |events| && good(states[n]) ==> (good(states[n + 1]) <==> !breaks(states[n], events[n]))
    ensures (forall n :: 0 <= n < |states| ==> good(states[n])) <==>
            (forall n :: 0 <= n < |events| ==> !breaks(states[n], events[n]))
  {
    var n := 0;
    while n < |events| && !breaks(states[n], events[n])
      invariant n <= |events| && forall k :: 0 <= k <= n ==> good(states[k])
      invariant forall k :: 0 <= k < n ==> !breaks(states[k], events[k])
    {
      n := n + 1;
    }
    if n < |events| {
      assert !good(states[n + 1]);
    }
  }

  /** The worlds a run passes through. */
  function History(w: World, l: Limits, events: seq<Event>): (ws: seq<World>)
    ensures |ws| == |events| + 1
    ensures forall n :: 0 <= n <= |events| ==> ws[n] == Run(w, l, events[..n])
  {
    seq(|events| + 1, n requires 0 <= n <= |events| => Run(w, l, events[..n]))
  }

  lemma HistoryStep(w: World, l: Limits, events: seq<Event>, n: nat)
    requires Inv(w, l) && l.Valid() && n < |events|
    ensures var ws := History(w, l, events);
            Inv(ws[n], l) && ws[n + 1] == Step(ws[n], l, events[n])
  {
    RunKeeps(w, l, events[..n]);
    RunStep(w, l, events, n);
  }

  // --- one probe at a time? ------------------------------------------------------------------------

  ghost predicate Exact(w: World) {
    w.circuit.probes == w.probing
    && (w.circuit.health == Open ==> w.probing == 0)
  }

  /** An attempt that is not a probe fails and opens the circuit while a probe is in flight. */
  predicate OpensOverProbe(w: World, l: Limits, e: Event) {
    e.Finish? && !e.probe && e.verdict == Failure && w.plain > 0 && w.probing > 0 && Trips(w.circuit, l)
  }

  /** The probe counter stays exact across a step precisely when the step does not open
      the circuit over a probe in flight. */
  lemma ExactUnlessOpenedOver(w: World, l: Limits, e: Event)
    requires Inv(w, l) && l.Valid() && Exact(w)
    ensures Exact(Step(w, l, e)) <==> !OpensOverProbe(w, l, e)
  {
  }

  /** In every run: the counter is exact throughout if and only if that never happens. */
  lemma CounterIsExactIff(l: Limits, events: seq<Event>)
    requires l.Valid()
    ensures (forall n :: 0 <= n <= |events| ==> Exact(Run(START, l, events[..n]))) <==>
            (forall n :: 0 <= n < |events| ==> !OpensOverProbe(Run(START, l, events[..n]), l, events[n]))
  {
    var ws := History(START, l, events);
    forall n | 0 <= n < |events| && Exact(ws[n])
      ensures Exact(ws[n + 1]) <==> !OpensOverProbe(ws[n], l, events[n])
    {
      HistoryStep(START, l, events, n);
      ExactUnlessOpenedOver(ws[n], l, events[n]);
    }
    KeptThroughout(ws, events, v => Exact(v), (v, e) => OpensOverProbe(v, l, e));
  }

  /** A request arrives while a probe is in flight, and the circuit's counter does not
      say so: its cooldown has ended, or it is half-open with the counter at zero. */
  predicate JoinsProbe(w: World, e: Event) {
    && e.Arrive? && w.probing > 0
    && ((w.circuit.health == Open && w.nowNs + e.afterNs >= w.circuit.openUntilNs)
        || (w.circuit.health == HalfOpen && w.circuit.probes == 0))
  }

  lemma JoiningMakesTwo(w: World, l: Limits, e: Event)
    requires Inv(w, l) && w.probing <= 1
    ensures Step(w, l, e).probing <= 1 <==> !JoinsProbe(w, e)
  {
  }

  /** In every run: at most one probe is in flight throughout if and only if no request
      arrives so. */
  lemma OneProbeIff(l: Limits, events: seq<Event>)
    requires l.Valid()
    ensures (forall n :: 0 <= n <= |events| ==> Run(START, l, events[..n]).probing <= 1) <==>
            (forall n :: 0 <= n < |events| ==> !JoinsProbe(Run(START, l, events[..n]), events[n]))
  {
    var ws := History(START, l, events);
    forall n | 0 <= n < |events| && ws[n].probing <= 1
      ensures ws[n + 1].probing <= 1 <==> !JoinsProbe(ws[n], events[n])
    {
      HistoryStep(START, l, events, n);
      JoiningMakesTwo(ws[n], l, events[n]);
    }
    KeptThroughout(ws, events, (v: World) => v.probing <= 1, (v, e) => JoinsProbe(v, e));
  }

  lemma ExactMeansOne(w: World, l: Limits)
    requires Inv(w, l) && Exact(w)
    ensures w.probing <= 1
  {
  }

  /** In particular, a run in which no ordinary failure opens the circuit over a probe has
      at most one probe in flight throughout. */
  lemma OneProbeUnlessOpenedOver(l: Limits, events: seq<Event>)
    requires l.Valid()
    requires forall n :: 0 <= n < |events| ==> !OpensOverProbe(Run(START, l, events[..n]), l, events[n])
    ensures forall n :: 0 <= n <= |events| ==> Run(START, l, events[..n]).probing <= 1
  {
    CounterIsExactIff(l, events);
    forall n | 0 <= n <= |events|
      ensures Run(START, l, events[..n]).probing <= 1
    {
      RunKeeps(START, l, events[..n]);
      ExactMeansOne(Run(START, l, events[..n]), l);
    }
  }

  /** And it can happen: two attempts start while the circuit is closed; the first
      failure opens it, a probe goes out after the cooldown, the second, stale failure
      reopens it over that probe, and after the longer cooldown another probe joins the
      one still in flight. */
  lemma TwoProbesInFlight()
    ensures var l := Limits(1, 1, 1000); l.Configurable() && exists events :: Run(START, l, events).probing == 2
  {
    var l := Limits(1, 1, 1000);
    var a, f, late, later := Arrive(0), Finish(false, Failure, 0), Arrive(SECOND), Arrive(2 * SECOND);
    TwoProbesStepByStep(l);
    var events := EightEvents(START, l, a, a, f, late, f, later, later, later);
  }

  const SECOND: nat := 1_000_000_000

  /** `w` after four more events. */
  function Four(w: World, l: Limits, a: Event, b: Event, c: Event, d: Event): World {
    Step(Step(Step(Step(w, l, a), l, b), l, c), l, d)
  }

  lemma RunFour(w: World, l: Limits, events: seq<Event>, a: Event, b: Event, c: Event, d: Event)
    ensures Run(w, l, events + [a, b, c, d]) == Four(Run(w, l, events), l, a, b, c, d)
  {
    var e1 := events + [a];
    var e2 := e1 + [b];
    var e3 := e2 + [c];
    RunSnoc(w, l, events, a);
    RunSnoc(w, l, e1, b);
    RunSnoc(w, l, e2, c);
    RunSnoc(w, l, e3, d);
    assert e3 + [d] == events + [a, b, c, d];
  }

  lemma EightEvents(w: World, l: Limits, a: Event, b: Event, c: Event, d: Event, e: Event, f: Event, g: Event, h: Event)
      returns (events: seq<Event>)
    ensures Run(w, l, events) == Four(Four(w, l, a, b, c, d), l, e, f, g, h)
  {
    var none: seq<Event> := [];
    var half := none + [a, b, c, d];
    RunFour(w, l, none, a, b, c, d);
    RunFour(w, l, half, e, f, g, h);
    events := half + [e, f, g, h];
  }

  /** A probe in flight, and the circuit open for two more seconds over it. */
  const REOPENED: World :=
    World(Circuit(Open, 2, 0, 3 * SECOND, 1, 0, 2000, 0), 0, 1, SECOND, SECOND, 3 * SECOND)

  /** The stale attempt and the probe both in flight. */
  const PROBED: World :=
    World(Circuit(HalfOpen, 1, 0, SECOND, 2, 0, 1000, 1), 1, 1, SECOND, 0, SECOND)

  const TRIPPED: World :=
    World(Circuit(Open, 1, 0, SECOND, 1, 0, 1000, 0), 1, 0, 0, 0, SECOND)

  const TWO_IN_FLIGHT: World := World(Circuit(Healthy, 0, 0, 0, 2, 0, 0, 0), 2, 0, 0, 0, 0)

  lemma TwoArrive(l: Limits)
    ensures Step(Step(START, l, Arrive(0)), l, Arrive(0)) == TWO_IN_FLIGHT
  {
    var w1 := Step(START, l, Arrive(0));
    assert w1 == World(Circuit(Healthy, 0, 0, 0, 1, 0, 0, 0), 1, 0, 0, 0, 0);
  }

  lemma FirstFailureTrips(l: Limits)
    requires l == Limits(1, 1, 1000)
    ensures Step(TWO_IN_FLIGHT, l, Finish(false, Failure, 0)) == TRIPPED
  {
  }

  lemma ProbeGoesOut(l: Limits)
    requires l == Limits(1, 1, 1000)
    ensures Step(TRIPPED, l, Arrive(SECOND)) == PROBED
  {
  }

  lemma StaleFailureReopens(l: Limits)
    requires l == Limits(1, 1, 1000)
    ensures Step(PROBED, l, Finish(false, Failure, 0)) == REOPENED
  {
    assert Stretch(1000, 1000) == 2000;
  }

  lemma ReopenedOverProbe(l: Limits)
    requires l == Limits(1, 1, 1000)
    ensures var a, f := Arrive(0), Finish(false, Failure, 0);
            Step(Four(START, l, a, a, f, Arrive(SECOND)), l, f) == REOPENED
  {
    TwoArrive(l);
    FirstFailureTrips(l);
    ProbeGoesOut(l);
    StaleFailureReopens(l);
  }

  lemma TwoProbesStepByStep(l: Limits)
    requires l == Limits(1, 1, 1000)
    ensures var a, f, late, later := Arrive(0), Finish(false, Failure, 0), Arrive(SECOND), Arrive(2 * SECOND);
            Four(Four(START, l, a, a, f, late), l, f, later, later, later).probing == 2
  {
    ReopenedOverProbe(l);
    var later := Arrive(2 * SECOND);
    var w6 := Step(REOPENED, l, later);
    assert w6.probing == 2 && w6.circuit.health == HalfOpen && w6.circuit.probes == 1;
    var w7 := Step(w6, l, later);
    assert w7.probing == 2 && w7.circuit.health == HalfOpen && w7.circuit.probes == 1;
  }

  // --- nothing before the deadline? ----------------------------------------------------------------

  /** Until the latest deadline it was given a circuit is open, and due then and not before. */
  ghost predicate Cooling(w: World) {
    w.nowNs < w.dueNs ==> w.circuit.health == Open && w.circuit.openUntilNs == w.dueNs
  }

  /** An attempt fails before the deadline of an open circuit. If a stale success has
      meanwhile cleared the failure count, one more failure does not reach the threshold
      and the circuit closes; otherwise it is opened afresh for one plain cooldown, which
      may end before the stretched one it replaces. */
  predicate CutsCooldown(w: World, l: Limits, e: Event) {
    && e.Finish? && e.verdict == Failure && Held(w, e)
    && w.circuit.health == Open && w.nowNs + e.afterNs < w.circuit.openUntilNs
    && (w.circuit.failures + 1 < l.failures
        || w.nowNs + e.afterNs + l.cooldownMs * NS_PER_MS < w.circuit.openUntilNs)
  }

  lemma CoolingUnlessCut(w: World, l: Limits, e: Event)
    requires Inv(w, l) && l.Valid() && Cooling(w)
    ensures Cooling(Step(w, l, e)) <==> !CutsCooldown(w, l, e)
  {
  }

  /** In every run: every cooldown ever begun is waited out in full if and only if no
      event cuts one. */
  lemma EveryCooldownIsKeptIff(l: Limits, events: seq<Event>)
    requires l.Valid()
    ensures (forall n :: 0 <= n <= |events| ==> Cooling(Run(START, l, events[..n]))) <==>
            (forall n :: 0 <= n < |events| ==> !CutsCooldown(Run(START, l, events[..n]), l, events[n]))
  {
    var ws := History(START, l, events);
    forall n | 0 <= n < |events| && Cooling(ws[n])
      ensures Cooling(ws[n + 1]) <==> !CutsCooldown(ws[n], l, events[n])
    {
      HistoryStep(START, l, events, n);
      CoolingUnlessCut(ws[n], l, events[n]);
    }
    KeptThroughout(ws, events, v => Cooling(v), (v, e) => CutsCooldown(v, l, e));
  }

  /** While a circuit is cooling, a request changes nothing but the clock. */
  lemma CoolingAdmitsNothing(w: World, l: Limits, e: Event)
    requires Cooling(w) && !e.Finish? && w.nowNs + e.afterNs < w.dueNs
    ensures Step(w, l, e) == w.(nowNs := w.nowNs + e.afterNs)
  {
  }

  /** A cooldown can be cut short by closing the circuit: four attempts in flight; two
      failures open it, a stale success clears the failure count, and a stale failure then
      leaves the provider merely degraded, with its whole cooldown still to run. */
  lemma ClosedBeforeItsDeadline()
    ensures var l := Limits(2, 1, 1000);
            l.Configurable() && exists events :: var w := Run(START, l, events); w.nowNs < w.dueNs && w.circuit.health == Degraded
  {
    var l := Limits(2, 1, 1000);
    var a, f, s := Arrive(0), Finish(false, Failure, 0), Finish(false, Success(1), 0);
    ClosedEarlyStepByStep(l);
    var events := EightEvents(START, l, a, a, a, a, f, f, s, f);
  }

  lemma ClosedEarlyStepByStep(l: Limits)
    requires l == Limits(2, 1, 1000)
    ensures var a, f, s := Arrive(0), Finish(false, Failure, 0), Finish(false, Success(1), 0);
            var w := Four(Four(START, l, a, a, a, a), l, f, f, s, f);
            w.nowNs < w.dueNs && w.circuit.health == Degraded
  {
    FourArrive(l);
    FirstFailureDegrades(l);
    SecondFailureTrips(l);
    StaleSuccessClears(l);
    StaleFailureCloses(l);
  }

  const FOUR_IN_FLIGHT: World := World(Circuit(Healthy, 0, 0, 0, 4, 0, 0, 0), 4, 0, 0, 0, 0)
  const TWO_STALE: World := World(Circuit(Open, 2, 0, SECOND, 2, 0, 1000, 0), 2, 0, 0, 0, SECOND)

  lemma FourArrive(l: Limits)
    ensures Four(START, l, Arrive(0), Arrive(0), Arrive(0), Arrive(0)) == FOUR_IN_FLIGHT
  {
    TwoArrive(l);
    var w3 := Step(TWO_IN_FLIGHT, l, Arrive(0));
    assert w3 == World(Circuit(Healthy, 0, 0, 0, 3, 0, 0, 0), 3, 0, 0, 0, 0);
  }

  const ONE_FAILED: World := World(Circuit(Degraded, 1, 0, 0, 3, 0, 0, 0), 3, 0, 0, 0, 0)
  const CLEARED: World := World(Circuit(Open, 0, 1, SECOND, 1, 1, 1000, 0), 1, 0, 0, 0, SECOND)

  lemma FirstFailureDegrades(l: Limits)
    requires l == Limits(2, 1, 1000)
    ensures Step(FOUR_IN_FLIGHT, l, Finish(false, Failure, 0)) == ONE_FAILED
  {
  }

  lemma SecondFailureTrips(l: Limits)
    requires l == Limits(2, 1, 1000)
    ensures Step(ONE_FAILED, l, Finish(false, Failure, 0)) == TWO_STALE
  {
  }

  lemma StaleSuccessClears(l: Limits)
    requires l == Limits(2, 1, 1000)
    ensures Step(TWO_STALE, l, Finish(false, Success(1), 0)) == CLEARED
  {
  }

  lemma StaleFailureCloses(l: Limits)
    requires l == Limits(2, 1, 1000)
    ensures var w := Step(CLEARED, l, Finish(false, Failure, 0)); w.nowNs < w.dueNs && w.circuit.health == Degraded
  {
  }

  /** A failed probe leaves the circuit open for the stretched cooldown exactly when the
      circuit is still half-open at that moment. */
  lemma FailedProbeStretchesIff(w: World, l: Limits, e: Event)
    requires Inv(w, l) && l.Valid() && e.Finish? && e.probe && e.verdict == Failure && Held(w, e)
    ensures var c := Step(w, l, e).circuit;
            (c.health == Open && c.backoffMs == Stretch(w.circuit.backoffMs, l.cooldownMs)) <==> w.circuit.health == HalfOpen
  {
    StretchBounds(w.circuit.backoffMs, l.cooldownMs);
  }

  /** A cooldown can also be cut short by a failed probe: a stale failure has reopened the
      circuit over the probe for two cooldowns; the probe then fails too, and leaves one.
      The next request is admitted a second before the deadline first given. */
  lemma ShortenedByAFailedProbe()
    ensures var l := Limits(1, 1, 1000);
            && l.Configurable()
            && exists events :: var w := Run(START, l, events); w.nowNs < w.dueNs && w.circuit.health == HalfOpen && w.probing == 1
  {
    var l := Limits(1, 1, 1000);
    var a, f, late := Arrive(0), Finish(false, Failure, 0), Arrive(SECOND);
    var p, look := Finish(true, Failure, 0), Look(0);
    ShortenedStepByStep(l);
    var events := EightEvents(START, l, a, a, f, late, f, p, late, look);
  }

  lemma ShortenedStepByStep(l: Limits)
    requires l == Limits(1, 1, 1000)
    ensures var a, f, late := Arrive(0), Finish(false, Failure, 0), Arrive(SECOND);
            var w := Four(Four(START, l, a, a, f, late), l, f, Finish(true, Failure, 0), late, Look(0));
            w.nowNs < w.dueNs && w.circuit.health == HalfOpen && w.probing == 1
  {
    ReopenedOverProbe(l);
    ProbeFailureShortens(l);
    NextGoesOutEarly(l);
  }

  const SHORTENED: World := World(Circuit(Open, 3, 0, 2 * SECOND, 0, 0, 1000, 0), 0, 0, SECOND, SECOND, 3 * SECOND)
  const EARLY: World := World(Circuit(HalfOpen, 3, 0, 2 * SECOND, 1, 0, 1000, 1), 0, 1, 2 * SECOND, SECOND, 3 * SECOND)

  lemma ProbeFailureShortens(l: Limits)
    requires l == Limits(1, 1, 1000)
    ensures Step(REOPENED, l, Finish(true, Failure, 0)) == SHORTENED
  {
  }

  lemma NextGoesOutEarly(l: Limits)
    ensures Step(SHORTENED, l, Arrive(SECOND)) == EARLY && Step(EARLY, l, Look(0)) == EARLY
  {
  }
}
