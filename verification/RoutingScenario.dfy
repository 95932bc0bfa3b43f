/** tests/test_routing_parity.py: a scenario as the corpus writes it, and the oracle's
    answer to it. Two rules live here rather than in the oracle: which endpoint
    families a provider serves, and that an open circuit turns half-open with time. */
module RoutingScenario {
  import opened Common
  import opened RouteOracle

  datatype Entry = Entry(
    providerId: string, adapter: string, capabilities: set<string>, enabled: bool,
    priority: int, weight: int, state: Health, active: int, maxConcurrency: int,
    latencyUs: int, openUntilNs: int, alreadyTried: bool)

  datatype Scenario = Scenario(
    policy: string, family: string, required: set<string>, cursor: nat, nowNs: int, entries: seq<Entry>)

  const FAMILIES: set<string> := {"responses", "chat_completions"}

  predicate ServesFamily(adapter: string, capabilities: set<string>, family: string) {
    && family in capabilities
    && (adapter == "openai_dual" || adapter == (if family == "responses" then "openai_responses" else "openai_chat"))
  }

  function EffectiveState(state: Health, nowNs: int, openUntilNs: int): Health {
    if state == Open && nowNs >= openUntilNs then HalfOpen else state
  }

  function ToCandidate(e: Entry, index: nat, nowNs: int): Candidate {
    Candidate(e.providerId, index, e.priority, e.weight, EffectiveState(e.state, nowNs, e.openUntilNs),
              e.active, e.maxConcurrency, if e.latencyUs == 0 then None else Some(e.latencyUs),
              (set f | f in FAMILIES && ServesFamily(e.adapter, e.capabilities, f)),
              e.capabilities, e.alreadyTried, e.enabled)
  }

  function Candidates(entries: seq<Entry>, nowNs: int): (cs: seq<Candidate>)
    ensures |cs| == |entries|
    ensures forall i :: 0 <= i < |cs| ==> cs[i] == ToCandidate(entries[i], i, nowNs)
  {
    if entries == [] then []
    else
      var n := |entries| - 1;
      Candidates(entries[..n], nowNs) + [ToCandidate(entries[n], n, nowNs)]
  }

  /** `to_oracle`. */
  method ToOracle(s: Scenario) returns (result: seq<Candidate>)
    ensures result == Candidates(s.entries, s.nowNs)
  {
    result := [];
    for index := 0 to |s.entries|
      invariant |result| == index
      invariant forall i :: 0 <= i < index ==> result[i] == ToCandidate(s.entries[i], i, s.nowNs)
    {
      result := result + [ToCandidate(s.entries[index], index, s.nowNs)];
    }
  }

  function EligibleIn(s: Scenario): seq<Candidate> {
    Eligible(Candidates(s.entries, s.nowNs), s.family, s.required)
  }

  predicate Subsequence(a: seq<Candidate>, b: seq<Candidate>) {
    if a == [] then true
    else if b == [] then false
    else if a[|a| - 1] == b[|b| - 1] then Subsequence(a[..|a| - 1], b[..|b| - 1])
    else Subsequence(a, b[..|b| - 1])
  }

  lemma {:induction false} SubsequenceGrows(a: seq<Candidate>, b: seq<Candidate>, c: Candidate)
    requires Subsequence(a, b)
    ensures Subsequence(a, b + [c])
    decreases |b|, 1
  {
    var n := |b|;
    assert (b + [c])[..n] == b;
    if a != [] && a[|a| - 1] == c {
      SubsequenceShrinks(a, b);
    }
  }

  lemma {:induction false} SubsequenceShrinks(a: seq<Candidate>, b: seq<Candidate>)
    requires Subsequence(a, b) && a != []
    ensures Subsequence(a[..|a| - 1], b)
    decreases |b|, 0
  {
    var front := a[..|a| - 1];
    var bf, last := b[..|b| - 1], b[|b| - 1];
    assert bf + [last] == b;
    if a[|a| - 1] == last {
      SubsequenceGrows(front, bf, last);
    } else {
      SubsequenceShrinks(a, bf);
      SubsequenceGrows(front, bf, last);
    }
  }

  lemma {:induction false} LaterSeesAtLeastAsMuch(entries: seq<Entry>, earlier: int, later: int, family: string, required: set<string>)
    requires earlier <= later
    ensures Subsequence(Eligible(Candidates(entries, earlier), family, required),
                        Eligible(Candidates(entries, later), family, required))
  {
    if entries != [] {
      var n := |entries| - 1;
      LaterSeesAtLeastAsMuch(entries[..n], earlier, later, family, required);
      var a, b := Candidates(entries[..n], earlier), Candidates(entries[..n], later);
      var ca, cb := ToCandidate(entries[n], n, earlier), ToCandidate(entries[n], n, later);
      assert Candidates(entries, earlier)[..n] == a;
      assert Candidates(entries, later)[..n] == b;
      var ea, eb := Eligible(a, family, required), Eligible(b, family, required);
      if IsEligible(ca, family, required) {
        assert ca == cb;
        assert (ea + [ca])[..|ea|] == ea;
        assert (eb + [cb])[..|eb|] == eb;
      } else if IsEligible(cb, family, required) {
        SubsequenceGrows(ea, eb, cb);
      }
    }
  }

  /** Time alone only admits targets: the eligible list at an earlier reading of the
      clock is a subsequence of the list at any later one. */
  lemma TimeOnlyAdmits(s: Scenario, later: int)
    requires s.nowNs <= later
    ensures Subsequence(EligibleIn(s), EligibleIn(s.(nowNs := later)))
  {
    LaterSeesAtLeastAsMuch(s.entries, s.nowNs, later, s.family, s.required);
  }
}
