/** What the transitions of src/routing/routing_health.asm amount to for a caller: what a
    recovery takes, what interrupts it, what the average is, and what a run can and cannot
    do to a circuit. */
module BreakerTransitions {
  import opened RouteOracle
  import opened CircuitBreaker

  // --- the latency average -----------------------------------------------------------------

  /** An observation below one microsecond counts as one. */
  function AtLeastOne(n: nat): nat { if n == 0 then 1 else n }

  /** Four times the new average is three times the old one and the observation, less the
      remainder of the division; the first observation is the average. */
  lemma AverageWeighs(previous: nat, observed: nat)
    ensures previous > 0 ==> 4 * Ewma(previous, observed) <= 3 * previous + AtLeastOne(observed) < 4 * Ewma(previous, observed) + 4
    ensures previous == 0 ==> Ewma(previous, observed) == AtLeastOne(observed)
  {
  }

  // --- recovering ------------------------------------------------------------------------------

  /** After a failure that leaves the circuit degraded, closing it takes as many successes in
      a row as the threshold says, however many there were before. */
  lemma FailureStartsOver(c: Circuit, l: Limits, nowNs: nat, latencies: seq<nat>)
    requires l.Valid() && c.health in {Healthy, Degraded} && c.failures + 1 < l.failures
    ensures SucceedAll(Fail(c, l, nowNs), l, latencies).health == Healthy <==> |latencies| >= l.successes
  {
    ConsecutiveSuccesses(Fail(c, l, nowNs), l, latencies);
  }

  /** A circuit whose cooldown is over takes as many, and then its back-off is forgotten. */
  lemma CooldownStartsOver(c: Circuit, l: Limits, nowNs: nat, latencies: seq<nat>)
    requires l.Valid() && c.health == Open && nowNs >= c.openUntilNs
    ensures var d := SucceedAll(Refresh(c, nowNs), l, latencies);
            (d.health == Healthy && d.backoffMs == 0) <==> |latencies| >= l.successes
  {
    ConsecutiveSuccesses(Refresh(c, nowNs), l, latencies);
  }

  /** One success makes a closed circuit forget its failures: opening it takes the whole
      threshold again. */
  lemma SuccessStartsOver(c: Circuit, l: Limits, latencyUs: nat, times: seq<nat>)
    requires l.Valid() && c.health in {Healthy, Degraded}
    ensures FailAll(Succeed(c, l, latencyUs), l, times).health == Open <==> |times| >= l.failures
  {
    ConsecutiveFailures(Succeed(c, l, latencyUs), l, times);
  }

  /** A success is measured whatever the state, and closes neither an open circuit nor a
      disabled one. */
  lemma SuccessElsewhere(c: Circuit, l: Limits, latencyUs: nat)
    requires c.health in {Healthy, Open, Disabled}
    ensures var d := Succeed(c, l, latencyUs);
            d == c.(failures := 0, successes := c.successes + 1, ewmaUs := d.ewmaUs)
  {
  }

  // --- runs -------------------------------------------------------------------------------------

  predicate MayAttempt(c: Circuit, nowNs: nat) {
    match c.health
    case Healthy => true
    case Degraded => true
    case HalfOpen => c.probes == 0
    case Open => nowNs >= c.openUntilNs
    case Disabled => false
  }

  /** A request is admitted exactly when the circuit is closed, or half-open and free, or its
      cooldown is over; after a cooldown it goes out as a probe. */
  lemma AdmittedIff(w: World, l: Limits, afterNs: nat)
    ensures var v, now := Step(w, l, Arrive(afterNs)), w.nowNs + afterNs;
            && v.nowNs == now
            && (MayAttempt(w.circuit, now) <==> v.circuit.active == w.circuit.active + 1)
            && v.plain == w.plain + (if MayAttempt(w.circuit, now) && w.circuit.health in {Healthy, Degraded} then 1 else 0)
            && v.probing == w.probing + (if MayAttempt(w.circuit, now) && w.circuit.health in {HalfOpen, Open} then 1 else 0)
  {
  }

  /** A cancelled attempt gives its place back and says nothing about the provider. */
  lemma CancelOnlyReleases(w: World, l: Limits, probe: bool, afterNs: nat)
    requires Inv(w, l) && Held(w, Finish(probe, Cancelled, afterNs))
    ensures var v, c := Step(w, l, Finish(probe, Cancelled, afterNs)), w.circuit;
            && v.circuit == c.(active := c.active - 1, probes := if probe && c.probes > 0 then c.probes - 1 else c.probes)
            && v.openedAtNs == w.openedAtNs && v.plain + v.probing == w.plain + w.probing - 1
  {
  }

  /** A disabled provider gets no request and stays disabled, whatever ends meanwhile. */
  lemma {:induction false} DisabledForGood(w: World, l: Limits, events: seq<Event>)
    requires w.circuit.health == Disabled
    ensures var v := Run(w, l, events);
            v.circuit.health == Disabled && v.plain + v.probing <= w.plain + w.probing && v.circuit.active <= w.circuit.active
  {
    if events != [] {
      DisabledForGood(w, l, events[..|events| - 1]);
    }
  }
}
