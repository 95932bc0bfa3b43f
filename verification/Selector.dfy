/** The daemon's own selector (src/routing/routing_select.asm, routing_health.asm),
    and its agreement with the oracle on every input. */
module Selector {
  import opened Common
  import opened RouteOracle
  import opened RoutingTable
  import Scenario = RoutingScenario
  import Breaker = CircuitBreaker

  const MAX_TARGETS: nat := 64       // AF_ROUTING_MAX_TARGETS

  datatype Adapter = OpenAiResponses | OpenAiChat | OpenAiDual

  /** A configured provider; `caps` is the AF_CAP_* bit mask, and a ceiling of zero
      means none. */
  datatype Provider = Provider(id: string, enabled: bool, adapter: Adapter, caps: bv64, maxConcurrency: nat)

  type ProviderState = Breaker.Circuit

  datatype Target = Target(providerIndex: int, priority: int, weight: int)

  datatype Request = Request(targets: seq<Target>, wantsResponses: bool, caps: bv64, tried: bv64, nowNs: nat)

  /** Everything candidate filtering reads; the records are kept by provider identifier. */
  datatype Situation = Situation(providers: seq<Provider>, table: Table, rq: Request)

  /** `af_route_candidate`: one eligible target, flattened. */
  datatype Record = Record(index: nat, priority: int, weight: int, health: Health, latencyUs: nat, providerId: string)

  // --- bit masks --------------------------------------------------------------------

  const CAP_NAMES: seq<string> := ["responses", "chat_completions", "streaming", "tools", "vision", "json_schema"]

  predicate Bit(mask: bv64, i: nat)
    requires i < 64
  {
    mask & (1 << i) != 0
  }

  function CapSet(mask: bv64): set<string> {
    (if mask & 1 != 0 then {"responses"} else {}) +
    (if mask & 2 != 0 then {"chat_completions"} else {}) +
    (if mask & 4 != 0 then {"streaming"} else {}) +
    (if mask & 8 != 0 then {"tools"} else {}) +
    (if mask & 16 != 0 then {"vision"} else {}) +
    (if mask & 32 != 0 then {"json_schema"} else {})
  }

  lemma MaskCovers(caps: bv64, required: bv64)
    requires required & 63 == required
    ensures caps & required == required <==>
            && (required & 1 != 0 ==> caps & 1 != 0) && (required & 2 != 0 ==> caps & 2 != 0)
            && (required & 4 != 0 ==> caps & 4 != 0) && (required & 8 != 0 ==> caps & 8 != 0)
            && (required & 16 != 0 ==> caps & 16 != 0) && (required & 32 != 0 ==> caps & 32 != 0)
  {
  }

  lemma CapMembers(mask: bv64)
    ensures "responses" in CapSet(mask) <==> mask & 1 != 0
    ensures "chat_completions" in CapSet(mask) <==> mask & 2 != 0
    ensures "streaming" in CapSet(mask) <==> mask & 4 != 0
    ensures "tools" in CapSet(mask) <==> mask & 8 != 0
    ensures "vision" in CapSet(mask) <==> mask & 16 != 0
    ensures "json_schema" in CapSet(mask) <==> mask & 32 != 0
    ensures forall s :: s in CapSet(mask) ==> s in CAP_NAMES
  {
    assert "responses"[0] == 'r' && "chat_completions"[0] == 'c' && "streaming"[0] == 's';
    assert "tools"[0] == 't' && "vision"[0] == 'v' && "json_schema"[0] == 'j';
  }

  /** The `and`/`cmp` of the filter is set inclusion. */
  lemma RequiredIsSubset(caps: bv64, required: bv64)
    requires required & 63 == required
    ensures caps & required == required <==> CapSet(required) <= CapSet(caps)
  {
    MaskCovers(caps, required);
    CapMembers(caps);
    CapMembers(required);
    if CapSet(required) <= CapSet(caps) {
      assert forall s :: s in CapSet(required) ==> s in CapSet(caps);
    }
  }

  predicate Speaks(p: Provider, wantsResponses: bool) {
    if wantsResponses
    then p.caps & 1 != 0 && (p.adapter == OpenAiDual || p.adapter == OpenAiResponses)
    else p.caps & 2 != 0 && (p.adapter == OpenAiDual || p.adapter == OpenAiChat)
  }

  // --- af_route_candidates -----------------------------------------------------------

  /** Filters 6, 1, 2 and 3: everything decided before the runtime state is read. */
  predicate Considered(x: Situation, i: nat) {
    && i < |x.rq.targets| && i < MAX_TARGETS && !Bit(x.rq.tried, i)
    && 0 <= x.rq.targets[i].providerIndex < |x.providers|
    && var p := x.providers[x.rq.targets[i].providerIndex];
       p.enabled && Speaks(p, x.rq.wantsResponses) && p.caps & x.rq.caps == x.rq.caps
  }

  /** Filters 4 and 5, on the refreshed state. */
  predicate Available(p: Provider, s: ProviderState) {
    Breaker.Admits(s) && (p.maxConcurrency == 0 || s.active < p.maxConcurrency)
  }

  /** The provider the `i`-th target names. */
  function ProviderOf(x: Situation, i: nat): Provider
    requires i < |x.rq.targets| && 0 <= x.rq.targets[i].providerIndex < |x.providers|
  {
    x.providers[x.rq.targets[i].providerIndex]
  }

  /** Its circuit, refreshed. */
  function CircuitOf(x: Situation, i: nat): ProviderState
    requires i < |x.rq.targets| && 0 <= x.rq.targets[i].providerIndex < |x.providers|
  {
    Breaker.Refresh(StateOf(x.table, ProviderOf(x, i).id), x.rq.nowNs)
  }

  /** The lookups made for the first `n` targets. */
  function Lookups(x: Situation, n: nat): (looks: seq<Look>)
    requires n <= |x.rq.targets|
    ensures forall k :: 0 <= k < |looks| ==> looks[k].nowNs == x.rq.nowNs
  {
    if n == 0 then []
    else Lookups(x, n - 1) + if Considered(x, n - 1) then [Look(ProviderOf(x, n - 1).id, x.rq.nowNs)] else []
  }

  /** When the walk reaches target `i`, its provider has a record or is given one. */
  predicate HasRecord(x: Situation, i: nat)
    requires i < |x.rq.targets| && 0 <= x.rq.targets[i].providerIndex < |x.providers|
  {
    Found(TouchAll(x.table, Lookups(x, i)), ProviderOf(x, i).id)
  }

  predicate Listed(x: Situation, i: nat) {
    Considered(x, i) && HasRecord(x, i) && Available(ProviderOf(x, i), CircuitOf(x, i))
  }

  function RecordOf(x: Situation, i: nat): Record
    requires i < |x.rq.targets| && 0 <= x.rq.targets[i].providerIndex < |x.providers|
  {
    var t, s := x.rq.targets[i], CircuitOf(x, i);
    Record(i, t.priority, t.weight, s.health, s.ewmaUs, ProviderOf(x, i).id)
  }

  function ListUpTo(x: Situation, n: nat): (r: seq<Record>)
    requires n <= |x.rq.targets|
    ensures forall k :: 0 <= k < |r| ==> r[k].index < n
    ensures forall j, k :: 0 <= j < k < |r| ==> r[j].index < r[k].index
  {
    if n == 0 then []
    else
      var front := ListUpTo(x, n - 1);
      if Listed(x, n - 1) then front + [RecordOf(x, n - 1)] else front
  }

  lemma LookupStep(x: Situation, i: nat)
    requires i < |x.rq.targets| && Considered(x, i)
    ensures var t, look := TouchAll(x.table, Lookups(x, i)), Look(ProviderOf(x, i).id, x.rq.nowNs);
            && TouchAll(x.table, Lookups(x, i + 1)) == Touch(t, look)
            && Breaker.Refresh(StateOf(t, look.id), x.rq.nowNs) == CircuitOf(x, i)
  {
    var look := Look(ProviderOf(x, i).id, x.rq.nowNs);
    TouchSnoc(x.table, Lookups(x, i), look);
    LooksAreInvisible(x.table, Lookups(x, i), look.id, x.rq.nowNs);
  }

  lemma {:induction false} LookupsAreCapped(x: Situation, i: nat, n: nat)
    requires i <= n <= |x.rq.targets|
    requires i == n || i >= MAX_TARGETS
    ensures Lookups(x, n) == Lookups(x, i)
  {
    if i < n {
      LookupsAreCapped(x, i, n - 1);
    }
  }

  /** Filters 4 and 5 on one target: its provider is looked up, which may create its record
      and advances its circuit. */
  method LookUp(x: Situation, i: nat, table: Table) returns (listed: seq<Record>, after: Table)
    requires i < |x.rq.targets| && Considered(x, i) && table == TouchAll(x.table, Lookups(x, i))
    ensures after == TouchAll(x.table, Lookups(x, i + 1))
    ensures listed == if Listed(x, i) then [RecordOf(x, i)] else []
  {
    LookupStep(x, i);
    listed, after := [], table;
    var t := x.rq.targets[i];
    var p := x.providers[t.providerIndex];
    if p.id in after || |after| < MAX_PROVIDERS {
      var s := Breaker.Refresh(if p.id in after then after[p.id] else Breaker.FRESH, x.rq.nowNs);
      after := after[p.id := s];
      if Breaker.Admits(s) && (p.maxConcurrency == 0 || s.active < p.maxConcurrency) {
        listed := [Record(i, t.priority, t.weight, s.health, s.ewmaUs, p.id)];
      }
    }
  }

  lemma ListStep(x: Situation, i: nat)
    requires i < |x.rq.targets|
    ensures ListUpTo(x, i + 1) == ListUpTo(x, i) + if Listed(x, i) then [RecordOf(x, i)] else []
    ensures !Considered(x, i) ==> Lookups(x, i + 1) == Lookups(x, i)
  {
  }

  /** `af_route_candidates`. The lookups leave the table changed. */
  method RouteCandidates(x: Situation) returns (out: seq<Record>, after: Table)
    ensures out == ListUpTo(x, |x.rq.targets|)
    ensures after == TouchAll(x.table, Lookups(x, |x.rq.targets|))
  {
    out, after := [], x.table;
    var i := 0;
    while i < |x.rq.targets| && i < MAX_TARGETS
      invariant 0 <= i <= |x.rq.targets|
      invariant out == ListUpTo(x, i)
      invariant after == TouchAll(x.table, Lookups(x, i))
    {
      ListStep(x, i);
      if Considered(x, i) {
        var listed;
        listed, after := LookUp(x, i, after);
        out := out + listed;
      }
      i := i + 1;
    }
    ListIsCapped(x, i, |x.rq.targets|);
    LookupsAreCapped(x, i, |x.rq.targets|);
  }

  lemma {:induction false} LookupsAreConsidered(x: Situation, n: nat)
    requires n <= |x.rq.targets|
    ensures forall look :: look in Lookups(x, n) <==>
              exists i: nat :: i < n && Considered(x, i) && look == Look(ProviderOf(x, i).id, x.rq.nowNs)
  {
    if n > 0 {
      LookupsAreConsidered(x, n - 1);
    }
  }

  /** Filtering candidates changes the table if and only if some target that passes the
      static filters names a provider whose cooldown has ended, or one that has no record
      while there is room for it. */
  lemma FilteringMutatesIff(x: Situation)
    ensures TouchAll(x.table, Lookups(x, |x.rq.targets|)) != x.table <==>
            exists i: nat :: i < |x.rq.targets| && Considered(x, i) && Changes(x.table, Look(ProviderOf(x, i).id, x.rq.nowNs))
  {
    var looks := Lookups(x, |x.rq.targets|);
    LookupsChangeIff(x.table, looks);
    LookupsAreConsidered(x, |x.rq.targets|);
    forall k | 0 <= k < |looks| && Changes(x.table, looks[k])
      ensures exists i: nat :: i < |x.rq.targets| && Considered(x, i) && Changes(x.table, Look(ProviderOf(x, i).id, x.rq.nowNs))
    {
      assert looks[k] in looks;
    }
    forall i: nat | i < |x.rq.targets| && Considered(x, i) && Changes(x.table, Look(ProviderOf(x, i).id, x.rq.nowNs))
      ensures exists k :: 0 <= k < |looks| && Changes(x.table, looks[k])
    {
      assert Look(ProviderOf(x, i).id, x.rq.nowNs) in looks;
    }
  }

  /** One provider, serving everything, behind one target nobody has tried. */
  function Alone(table: Table, nowNs: nat): Situation {
    Situation([Provider("p", true, OpenAiDual, 3, 2)], table, Request([Target(0, 0, 1)], true, 0, 0, nowNs))
  }

  lemma AloneIsConsidered(table: Table, nowNs: nat)
    ensures Considered(Alone(table, nowNs), 0) && Lookups(Alone(table, nowNs), 1) == [Look("p", nowNs)]
  {
    var x := Alone(table, nowNs);
    assert (0 as bv64) & (1 << 0) == 0;
    assert (3 as bv64) & 1 != 0 && (3 as bv64) & 0 == 0;
    assert Considered(x, 0);
    assert Lookups(x, 1) == Lookups(x, 0) + [Look("p", nowNs)];
  }

  lemma TouchOne(table: Table, look: Look)
    ensures TouchAll(table, [look]) == Touch(table, look)
  {
    TouchSnoc(table, [], look);
    assert [] + [look] == [look];
  }

  /** Looking at an open circuit whose deadline has come makes it half-open, and looking
      at a provider for the first time makes its record. */
  lemma LookingMutates()
    ensures var expired := map["p" := Breaker.FRESH.(health := Open)];
            && TouchAll(expired, Lookups(Alone(expired, 0), 1)) == map["p" := Breaker.FRESH.(health := HalfOpen)]
            && TouchAll(map[], Lookups(Alone(map[], 0), 1)) == map["p" := Breaker.FRESH]
  {
    var expired := map["p" := Breaker.FRESH.(health := Open)];
    AloneIsConsidered(expired, 0);
    TouchOne(expired, Look("p", 0));
    AloneIsConsidered(map[], 0);
    TouchOne(map[], Look("p", 0));
  }

  lemma {:induction false} ListIsCapped(x: Situation, i: nat, n: nat)
    requires i <= n <= |x.rq.targets|
    requires i == n || i >= MAX_TARGETS
    ensures ListUpTo(x, n) == ListUpTo(x, i)
  {
    if i < n {
      ListIsCapped(x, i, n - 1);
    }
  }

  // --- the same situation, as the oracle is given it -----------------------------------

  function AdapterName(a: Adapter): string {
    match a
    case OpenAiResponses => "openai_responses"
    case OpenAiChat => "openai_chat"
    case OpenAiDual => "openai_dual"
  }

  function FamilyName(wantsResponses: bool): string {
    if wantsResponses then "responses" else "chat_completions"
  }

  /** What a validated configuration guarantees (tests/config_corpus.py): targets name
      providers, there are at most 64, and every ceiling is at least one. */
  ghost predicate Validated(x: Situation) {
    && |x.table| <= MAX_PROVIDERS
    && |x.rq.targets| <= MAX_TARGETS
    && x.rq.caps & 63 == x.rq.caps
    && (forall i :: 0 <= i < |x.rq.targets| ==> 0 <= x.rq.targets[i].providerIndex < |x.providers|)
    && (forall k :: 0 <= k < |x.providers| ==> x.providers[k].maxConcurrency >= 1)
  }

  function EntryOf(x: Situation, i: nat): Scenario.Entry
    requires i < |x.rq.targets| <= MAX_TARGETS && 0 <= x.rq.targets[i].providerIndex < |x.providers|
  {
    var t, p := x.rq.targets[i], ProviderOf(x, i);
    var s := StateOf(x.table, p.id);
    Scenario.Entry(p.id, AdapterName(p.adapter), CapSet(p.caps), p.enabled, t.priority, t.weight, s.health,
                   s.active, p.maxConcurrency, s.ewmaUs, s.openUntilNs, Bit(x.rq.tried, i))
  }

  ghost function View(x: Situation, i: nat): Candidate
    requires Validated(x) && i < |x.rq.targets|
  {
    Scenario.ToCandidate(EntryOf(x, i), i, x.rq.nowNs)
  }

  ghost function EntriesUpTo(x: Situation, n: nat): (es: seq<Scenario.Entry>)
    requires Validated(x) && n <= |x.rq.targets|
    ensures |es| == n
  {
    if n == 0 then [] else EntriesUpTo(x, n - 1) + [EntryOf(x, n - 1)]
  }

  ghost function OracleList(x: Situation, n: nat): seq<Candidate>
    requires Validated(x) && n <= |x.rq.targets|
  {
    Eligible(Scenario.Candidates(EntriesUpTo(x, n), x.rq.nowNs), FamilyName(x.rq.wantsResponses), CapSet(x.rq.caps))
  }

  /** The circuit is half-open and its one probe is already in flight. */
  predicate Probing(x: Situation, i: nat)
    requires i < |x.rq.targets| && 0 <= x.rq.targets[i].providerIndex < |x.providers|
  {
    CircuitOf(x, i).health == HalfOpen && CircuitOf(x, i).probes >= 1
  }

  /** What the oracle does not know about: a probe in flight, or no room for a record. */
  predicate Blocked(x: Situation, i: nat)
    requires i < |x.rq.targets| && 0 <= x.rq.targets[i].providerIndex < |x.providers|
  {
    Probing(x, i) || !HasRecord(x, i)
  }

  lemma FamilyAgrees(p: Provider, wantsResponses: bool)
    ensures Speaks(p, wantsResponses) <==> Scenario.ServesFamily(AdapterName(p.adapter), CapSet(p.caps), FamilyName(wantsResponses))
  {
    CapMembers(p.caps);
    var a := AdapterName(p.adapter);
    assert a == "openai_dual" <==> p.adapter == OpenAiDual by { assert "openai_dual"[7] == 'd'; assert "openai_chat"[7] == 'c'; assert "openai_responses"[7] == 'r'; }
    assert a == "openai_chat" <==> p.adapter == OpenAiChat by { assert "openai_dual"[7] == 'd'; assert "openai_chat"[7] == 'c'; assert "openai_responses"[7] == 'r'; }
    assert a == "openai_responses" <==> p.adapter == OpenAiResponses by { assert "openai_dual"[7] == 'd'; assert "openai_chat"[7] == 'c'; assert "openai_responses"[7] == 'r'; }
    assert FamilyName(wantsResponses) == "responses" <==> wantsResponses by { assert "responses"[0] == 'r'; assert "chat_completions"[0] == 'c'; }
  }

  lemma AvailabilityAgrees(x: Situation, i: nat)
    requires Validated(x) && i < |x.rq.targets|
    ensures var v := View(x, i);
            Available(ProviderOf(x, i), CircuitOf(x, i)) <==>
            v.state in {Healthy, Degraded, HalfOpen} && v.active < v.maxConcurrency && !Probing(x, i)
  {
  }

  lemma ConsiderationAgrees(x: Situation, i: nat)
    requires Validated(x) && i < |x.rq.targets|
    ensures var v := View(x, i);
            Considered(x, i) <==>
            v.enabled && !v.alreadyTried && FamilyName(x.rq.wantsResponses) in v.families && CapSet(x.rq.caps) <= v.capabilities
  {
    FamilyAgrees(ProviderOf(x, i), x.rq.wantsResponses);
    RequiredIsSubset(ProviderOf(x, i).caps, x.rq.caps);
    assert FamilyName(x.rq.wantsResponses) in Scenario.FAMILIES;
  }

  /** Target by target: the daemon lists exactly what the oracle finds eligible, except a
      half-open circuit that is already being probed and a provider there is no room for. */
  lemma FilterAgrees(x: Situation, i: nat)
    requires Validated(x) && i < |x.rq.targets|
    ensures Listed(x, i) <==> EligibleAt(x, i) && !Blocked(x, i)
  {
    AvailabilityAgrees(x, i);
    ConsiderationAgrees(x, i);
  }

  ghost function Views(x: Situation, records: seq<Record>): (vs: seq<Candidate>)
    requires Validated(x)
    requires forall k :: 0 <= k < |records| ==> records[k].index < |x.rq.targets|
    ensures |vs| == |records|
    ensures forall k :: 0 <= k < |vs| ==> vs[k] == View(x, records[k].index)
  {
    seq(|records|, k requires 0 <= k < |records| => View(x, records[k].index))
  }

  ghost predicate EligibleAt(x: Situation, i: nat)
    requires Validated(x) && i < |x.rq.targets|
  {
    IsEligible(View(x, i), FamilyName(x.rq.wantsResponses), CapSet(x.rq.caps))
  }

  /** Some target the oracle finds eligible is blocked. */
  ghost predicate SomeBlocked(x: Situation, n: nat)
    requires Validated(x) && n <= |x.rq.targets|
  {
    exists i :: 0 <= i < n && Blocked(x, i) && EligibleAt(x, i)
  }

  lemma OracleListStep(x: Situation, n: nat)
    requires Validated(x) && n < |x.rq.targets|
    ensures OracleList(x, n + 1) ==
            OracleList(x, n) +
            if EligibleAt(x, n) then [View(x, n)] else []
  {
    var front, last := EntriesUpTo(x, n), EntryOf(x, n);
    assert EntriesUpTo(x, n + 1) == front + [last];
    EligibleOneMore(front, last, x.rq.nowNs, FamilyName(x.rq.wantsResponses), CapSet(x.rq.caps));
  }

  lemma EligibleOneMore(front: seq<Scenario.Entry>, last: Scenario.Entry, nowNs: int, family: string, required: set<string>)
    ensures var c := Scenario.ToCandidate(last, |front|, nowNs);
            Eligible(Scenario.Candidates(front + [last], nowNs), family, required) ==
            Eligible(Scenario.Candidates(front, nowNs), family, required) + if IsEligible(c, family, required) then [c] else []
  {
    assert (front + [last])[..|front|] == front;
    var cs := Scenario.Candidates(front + [last], nowNs);
    assert cs[..|front|] == Scenario.Candidates(front, nowNs);
  }

  lemma ViewsStep(x: Situation, n: nat)
    requires Validated(x) && n < |x.rq.targets|
    ensures Views(x, ListUpTo(x, n + 1)) == Views(x, ListUpTo(x, n)) + if Listed(x, n) then [View(x, n)] else []
  {
    var front := ListUpTo(x, n);
    if Listed(x, n) {
      assert ListUpTo(x, n + 1) == front + [RecordOf(x, n)];
    }
  }

  lemma SomeBlockedStep(x: Situation, n: nat)
    requires Validated(x) && n < |x.rq.targets|
    ensures SomeBlocked(x, n + 1) <==> SomeBlocked(x, n) || (Blocked(x, n) && EligibleAt(x, n))
  {
  }

  /** `daemon` is `oracle`, or lacks some of it because `blocked`. */
  ghost predicate Related(daemon: seq<Candidate>, oracle: seq<Candidate>, blocked: bool) {
    if blocked then |daemon| < |oracle| else daemon == oracle
  }

  lemma RelatedStep(daemon: seq<Candidate>, oracle: seq<Candidate>, blocked: bool, v: Candidate, eligible: bool, barred: bool)
    requires Related(daemon, oracle, blocked)
    ensures Related(daemon + if eligible && !barred then [v] else [], oracle + if eligible then [v] else [],
                    blocked || (barred && eligible))
  {
  }

  lemma {:induction false} ListsAgreeUpTo(x: Situation, n: nat)
    requires Validated(x) && n <= |x.rq.targets|
    ensures Related(Views(x, ListUpTo(x, n)), OracleList(x, n), SomeBlocked(x, n))
  {
    if n > 0 {
      var m := n - 1;
      ListsAgreeUpTo(x, m);
      OracleListStep(x, m);
      ViewsStep(x, m);
      FilterAgrees(x, m);
      SomeBlockedStep(x, m);
      RelatedStep(Views(x, ListUpTo(x, m)), OracleList(x, m), SomeBlocked(x, m), View(x, m), EligibleAt(x, m), Blocked(x, m));
    }
  }

  /** Parity of the candidate lists, on every validated input: they are equal if and only
      if no eligible target is blocked. */
  lemma CandidateParity(x: Situation)
    requires Validated(x)
    ensures Views(x, ListUpTo(x, |x.rq.targets|)) == OracleList(x, |x.rq.targets|)
            <==> !SomeBlocked(x, |x.rq.targets|)
  {
    ListsAgreeUpTo(x, |x.rq.targets|);
  }

  // --- af_route_select -------------------------------------------------------------------

  datatype Policy = Priority | RoundRobin | LeastLatency

  function PolicyName(p: Policy): string {
    match p
    case Priority => "priority"
    case RoundRobin => "round_robin"
    case LeastLatency => "least_latency"
  }

  /** `af_route_id_compare` on NUL-terminated strings. */
  method IdCompare(a: string, b: string) returns (r: int)
    requires '\0' !in a && '\0' !in b
    ensures r < 0 <==> Lt(Codes(a), Codes(b))
    ensures r == 0 <==> a == b
  {
    var i := 0;
    assert Codes(a)[0..] == Codes(a) && Codes(b)[0..] == Codes(b);
    while true
      invariant i <= |a| && i <= |b| && a[..i] == b[..i]
      invariant Lt(Codes(a), Codes(b)) <==> Lt(Codes(a)[i..], Codes(b)[i..])
      decreases |a| - i
    {
      var x := if i < |a| then a[i] as int else 0;
      var y := if i < |b| then b[i] as int else 0;
      assert i < |a| ==> a[i] != '\0';
      assert i < |b| ==> b[i] != '\0';
      if x != y {
        return x - y;
      }
      if x == 0 {
        assert a == a[..i] && b == b[..i];
        return 0;
      }
      assert Codes(a)[i..][1..] == Codes(a)[i + 1..] && Codes(b)[i..][1..] == Codes(b)[i + 1..];
      assert a[..i + 1] == a[..i] + [a[i]] && b[..i + 1] == b[..i] + [b[i]];
      i := i + 1;
    }
  }

  /** The comparison keys of a candidate record; an unmeasured latency is stored as 0. */
  function RecordRank(ranking: Ranking, r: Record): Key {
    match ranking
    case ByPriority => [r.priority, r.index] + Codes(r.providerId)
    case ByLatency => [if r.health == HalfOpen then 1 else 0, if r.latencyUs == 0 then 1 else 0, r.latencyUs, r.index] + Codes(r.providerId)
    case ByConfiguration => [r.index] + Codes(r.providerId)
  }

  lemma LtUnfold(a: Key, b: Key)
    requires a != [] && b != []
    ensures Lt(a, b) <==> a[0] < b[0] || (a[0] == b[0] && Lt(a[1..], b[1..]))
  {
  }

  /** `af_route_beats_priority`. */
  method BeatsPriority(a: Record, b: Record) returns (yes: bool)
    requires '\0' !in a.providerId && '\0' !in b.providerId
    ensures yes <==> Lt(RecordRank(ByPriority, a), RecordRank(ByPriority, b))
  {
    var ka, kb := RecordRank(ByPriority, a), RecordRank(ByPriority, b);
    LtUnfold(ka, kb);
    LtUnfold(ka[1..], kb[1..]);
    assert ka[1..][1..] == Codes(a.providerId) && kb[1..][1..] == Codes(b.providerId);
    if a.priority != b.priority {
      return a.priority < b.priority;
    }
    if a.index != b.index {
      return a.index < b.index;
    }
    var order := IdCompare(a.providerId, b.providerId);
    return order < 0;
  }

  /** `af_route_beats_latency`. */
  method BeatsLatency(a: Record, b: Record) returns (yes: bool)
    requires '\0' !in a.providerId && '\0' !in b.providerId
    ensures yes <==> Lt(RecordRank(ByLatency, a), RecordRank(ByLatency, b))
  {
    var ka, kb := RecordRank(ByLatency, a), RecordRank(ByLatency, b);
    LtUnfold(ka, kb);
    LtUnfold(ka[1..], kb[1..]);
    LtUnfold(ka[1..][1..], kb[1..][1..]);
    LtUnfold(ka[1..][1..][1..], kb[1..][1..][1..]);
    assert ka[1..][1..][1..][1..] == Codes(a.providerId) && kb[1..][1..][1..][1..] == Codes(b.providerId);
    if (a.health == HalfOpen) != (b.health == HalfOpen) {
      return b.health == HalfOpen;
    }
    if (a.latencyUs == 0) != (b.latencyUs == 0) {
      return b.latencyUs == 0;
    }
    if a.latencyUs != b.latencyUs {
      return a.latencyUs < b.latencyUs;
    }
    if a.index != b.index {
      return a.index < b.index;
    }
    var order := IdCompare(a.providerId, b.providerId);
    return order < 0;
  }

  /** The first element that nothing after it beats, comparing from the front. */
  function BestBy<T>(s: seq<T>, beats: (T, T) -> bool): (k: nat)
    requires s != []
    ensures k < |s|
  {
    var n := |s| - 1;
    if n == 0 then 0
    else
      var k := BestBy(s[..n], beats);
      if beats(s[n], s[k]) then n else k
  }

  function Outranks(ranking: Ranking): (Record, Record) -> bool {
    (a, b) => Lt(RecordRank(ranking, a), RecordRank(ranking, b))
  }

  function BestIndex(rs: seq<Record>, ranking: Ranking): (k: nat)
    requires rs != []
    ensures k < |rs|
  {
    BestBy(rs, Outranks(ranking))
  }

  function SelectedIndex(policy: Policy, rs: seq<Record>, cursor: nat): (k: nat)
    requires rs != []
    ensures k < |rs|
  {
    match policy
    case RoundRobin => cursor % |rs|
    case Priority => BestIndex(rs, ByPriority)
    case LeastLatency => BestIndex(rs, ByLatency)
  }

  function Ranked(byLatency: bool): Ranking {
    if byLatency then ByLatency else ByPriority
  }

  method Beats(byLatency: bool, a: Record, b: Record) returns (yes: bool)
    requires '\0' !in a.providerId && '\0' !in b.providerId
    ensures yes <==> Lt(RecordRank(Ranked(byLatency), a), RecordRank(Ranked(byLatency), b))
  {
    if byLatency {
      yes := BeatsLatency(a, b);
    } else {
      yes := BeatsPriority(a, b);
    }
  }

  lemma BestStep<T>(s: seq<T>, i: nat, beats: (T, T) -> bool)
    requires 1 <= i < |s|
    ensures var k := BestBy(s[..i], beats);
            BestBy(s[..i + 1], beats) == if beats(s[i], s[k]) then i else k
  {
    assert s[..i + 1][..i] == s[..i];
  }

  /** The comparison loop of `af_route_select`, for the two policies that rank. */
  method Best(rs: seq<Record>, byLatency: bool) returns (best: nat)
    requires rs != [] && forall i :: 0 <= i < |rs| ==> '\0' !in rs[i].providerId
    ensures best == BestIndex(rs, Ranked(byLatency))
  {
    best := 0;
    var i := 1;
    while i < |rs|
      invariant 1 <= i <= |rs| && 0 <= best < i
      invariant best == BestIndex(rs[..i], Ranked(byLatency))
    {
      var beats := Beats(byLatency, rs[i], rs[best]);
      BestStep(rs, i, Outranks(Ranked(byLatency)));
      if beats {
        best := i;
      }
      i := i + 1;
    }
    assert rs[..i] == rs;
  }

  /** `af_route_select`. */
  method RouteSelect(policy: Policy, rs: seq<Record>, cursor: nat) returns (k: int)
    requires forall i :: 0 <= i < |rs| ==> '\0' !in rs[i].providerId
    ensures k == if rs == [] then -1 else SelectedIndex(policy, rs, cursor)
  {
    if rs == [] {
      return -1;
    }
    if policy == RoundRobin {
      return cursor % |rs|;
    }
    k := Best(rs, policy == LeastLatency);
  }

  lemma RankAgrees(x: Situation, i: nat, j: nat, ranking: Ranking)
    requires Validated(x) && i < |x.rq.targets| && j < |x.rq.targets|
    ensures Lt(RecordRank(ranking, RecordOf(x, i)), RecordRank(ranking, RecordOf(x, j))) <==>
            Lt(Rank(ranking, View(x, i)), Rank(ranking, View(x, j)))
  {
    if ranking == ByLatency {
      assert RecordRank(ranking, RecordOf(x, i)) == LatencyKeyWith(View(x, i), 0);
      assert RecordRank(ranking, RecordOf(x, j)) == LatencyKeyWith(View(x, j), 0);
      LatencyKeyOrder(View(x, j), View(x, i), 0);
      LatencyKeyOrder(View(x, j), View(x, i), UNKNOWN_LATENCY);
    }
  }

  ghost predicate Flattened(x: Situation, rs: seq<Record>)
    requires Validated(x)
  {
    forall k :: 0 <= k < |rs| ==> rs[k].index < |x.rq.targets| && rs[k] == RecordOf(x, rs[k].index)
  }

  lemma {:induction false} ListIsFlattened(x: Situation, n: nat)
    requires Validated(x) && n <= |x.rq.targets|
    ensures Flattened(x, ListUpTo(x, n))
  {
    if n > 0 {
      ListIsFlattened(x, n - 1);
    }
  }

  lemma ViewsFront(x: Situation, rs: seq<Record>)
    requires Validated(x) && rs != [] && Flattened(x, rs)
    ensures var n := |rs| - 1;
            Flattened(x, rs[..n]) && Views(x, rs)[..n] == Views(x, rs[..n]) && Views(x, rs)[n] == View(x, rs[n].index)
  {
  }

  lemma {:induction false} BestAgrees(x: Situation, rs: seq<Record>, ranking: Ranking)
    requires Validated(x) && rs != [] && Flattened(x, rs)
    ensures MinBy(Views(x, rs), ranking) == View(x, rs[BestIndex(rs, ranking)].index)
  {
    var n := |rs| - 1;
    ViewsFront(x, rs);
    if n > 0 {
      var k := BestIndex(rs[..n], ranking);
      BestAgrees(x, rs[..n], ranking);
      RankAgrees(x, rs[n].index, rs[k].index, ranking);
      assert rs[..n][k] == rs[k];
    }
  }

  ghost predicate Ascending(cs: seq<Candidate>) {
    forall j, k :: 0 <= j < k < |cs| ==> cs[j].index < cs[k].index
  }

  /** The emitted order is the sorted order, so round robin needs no sort. */
  lemma EmittedIsSorted(cs: seq<Candidate>)
    requires Ascending(cs)
    ensures SortBy(cs, ByConfiguration) == cs
  {
    forall j, k | 0 <= j < k < |cs|
      ensures Le(Rank(ByConfiguration, cs[j]), Rank(ByConfiguration, cs[k]))
    {
      assert cs[j].index < cs[k].index;
    }
    SortSorts(cs, ByConfiguration);
    SameElements(cs, SortBy(cs, ByConfiguration));
    SortedIsUnique(SortBy(cs, ByConfiguration), cs, ByConfiguration);
  }

  /** On every validated input the daemon's choice is the oracle's choice among the
      targets the daemon listed... */
  lemma ChoiceAgrees(x: Situation, policy: Policy, cursor: nat)
    requires Validated(x)
    ensures var rs := ListUpTo(x, |x.rq.targets|);
            Select(PolicyName(policy), Views(x, rs), cursor) ==
            if rs == [] then NoCandidate else Chosen(View(x, rs[SelectedIndex(policy, rs, cursor)].index))
  {
    var rs := ListUpTo(x, |x.rq.targets|);
    ListIsFlattened(x, |x.rq.targets|);
    assert "priority"[0] == 'p' && "round_robin"[0] == 'r' && "least_latency"[0] == 'l';
    if rs != [] {
      match policy
      case RoundRobin => EmittedIsSorted(Views(x, rs));
      case Priority => BestAgrees(x, rs, ByPriority);
      case LeastLatency => BestAgrees(x, rs, ByLatency);
    }
  }

  /** ... and so, whenever no eligible target is blocked, the two statements of
      the routing rules give the same answer under every policy and cursor. */
  lemma SelectionParity(x: Situation, policy: Policy, cursor: nat)
    requires Validated(x) && !SomeBlocked(x, |x.rq.targets|)
    ensures var rs := ListUpTo(x, |x.rq.targets|);
            Select(PolicyName(policy), OracleList(x, |x.rq.targets|), cursor) ==
            if rs == [] then NoCandidate else Chosen(View(x, rs[SelectedIndex(policy, rs, cursor)].index))
  {
    ChoiceAgrees(x, policy, cursor);
    ListsAgreeUpTo(x, |x.rq.targets|);
  }

  // --- exactly when the choices agree ---------------------------------------------------------

  function Keep(s: seq<Candidate>, keep: Candidate -> bool): (r: seq<Candidate>)
    ensures forall c :: c in r <==> c in s && keep(c)
  {
    if s == [] then [] else Keep(s[..|s| - 1], keep) + if keep(s[|s| - 1]) then [s[|s| - 1]] else []
  }

  lemma KeepSnoc(s: seq<Candidate>, t: Candidate, keep: Candidate -> bool)
    ensures Keep(s + [t], keep) == Keep(s, keep) + if keep(t) then [t] else []
  {
    assert (s + [t])[..|s|] == s;
  }

  /** What is left of a position is what is kept before it. */
  lemma {:induction false} KeptPosition(s: seq<Candidate>, pos: nat, keep: Candidate -> bool)
    requires pos < |s| && keep(s[pos])
    ensures var j := |Keep(s[..pos], keep)|; j < |Keep(s, keep)| && Keep(s, keep)[j] == s[pos]
  {
    var front := s[..|s| - 1];
    if pos < |front| {
      assert front[..pos] == s[..pos] && front[pos] == s[pos];
      KeptPosition(front, pos, keep);
    }
  }

  lemma {:induction false} KeptAscends(cs: seq<Candidate>, keep: Candidate -> bool)
    requires Ascending(cs)
    ensures Ascending(Keep(cs, keep))
  {
    if cs != [] {
      var front, last := cs[..|cs| - 1], cs[|cs| - 1];
      KeptAscends(front, keep);
      forall k | 0 <= k < |Keep(front, keep)|
        ensures Keep(front, keep)[k].index < last.index
      {
        assert Keep(front, keep)[k] in front;
      }
    }
  }

  /** The candidate's target is not blocked. */
  ghost function Free(x: Situation): Candidate -> bool
    requires Validated(x)
  {
    (c: Candidate) => !(0 <= c.index < |x.rq.targets| && Blocked(x, c.index))
  }

  lemma FreeIs(x: Situation, i: nat)
    requires Validated(x) && i < |x.rq.targets|
    ensures View(x, i).index == i && (Free(x)(View(x, i)) <==> !Blocked(x, i))
  {
  }

  lemma ScreenStep(oracle: seq<Candidate>, free: Candidate -> bool, v: Candidate, eligible: bool, n: nat)
    requires Ascending(oracle) && (forall c :: c in oracle ==> c.index < n) && v.index == n
    ensures var more := oracle + if eligible then [v] else [];
            && Ascending(more) && (forall c :: c in more ==> c.index < n + 1)
            && Keep(more, free) == Keep(oracle, free) + if eligible && free(v) then [v] else []
  {
    if eligible {
      KeepSnoc(oracle, v, free);
      forall j | 0 <= j < |oracle|
        ensures oracle[j].index < n
      {
        assert oracle[j] in oracle;
      }
    } else {
      assert oracle + [] == oracle && Keep(oracle, free) + [] == Keep(oracle, free);
    }
  }

  /** The daemon's list is the oracle's, less the targets that are blocked. */
  lemma {:induction false} ListIsScreened(x: Situation, n: nat)
    requires Validated(x) && n <= |x.rq.targets|
    ensures Ascending(OracleList(x, n)) && forall c :: c in OracleList(x, n) ==> c.index < n
    ensures Views(x, ListUpTo(x, n)) == Keep(OracleList(x, n), Free(x))
  {
    if n > 0 {
      var m := n - 1;
      ListIsScreened(x, m);
      OracleListStep(x, m);
      ViewsStep(x, m);
      FilterAgrees(x, m);
      FreeIs(x, m);
      ScreenStep(OracleList(x, m), Free(x), View(x, m), EligibleAt(x, m), m);
    }
  }

  /** Under round robin the shorter list puts the same candidate under the cursor exactly
      when that candidate is kept, and the cursor points as far into what is kept as
      there are kept candidates before it. */
  ghost predicate SameTurn(cs: seq<Candidate>, free: Candidate -> bool, cursor: nat) {
    cs == [] ||
    var pos := cursor % |cs|;
    free(cs[pos]) && Keep(cs, free) != [] && cursor % |Keep(cs, free)| == |Keep(cs[..pos], free)|
  }

  lemma TurnOf(cs: seq<Candidate>, cursor: nat)
    requires Ascending(cs) && cs != []
    ensures SelectRoundRobin(cs, cursor) == Chosen(cs[cursor % |cs|])
  {
    EmittedIsSorted(cs);
  }

  lemma OnePlace(cs: seq<Candidate>, j: nat, k: nat)
    requires Ascending(cs) && j < |cs| && k < |cs|
    ensures cs[j] == cs[k] <==> j == k
  {
    if j < k {
      assert cs[j].index < cs[k].index;
    } else if k < j {
      assert cs[k].index < cs[j].index;
    }
  }

  lemma RoundRobinParity(cs: seq<Candidate>, free: Candidate -> bool, cursor: nat)
    requires Ascending(cs)
    ensures SelectRoundRobin(Keep(cs, free), cursor) == SelectRoundRobin(cs, cursor) <==> SameTurn(cs, free, cursor)
  {
    var kept := Keep(cs, free);
    if cs != [] {
      var pos := cursor % |cs|;
      TurnOf(cs, cursor);
      assert cs[pos] in kept <==> free(cs[pos]);
      if kept != [] {
        KeptAscends(cs, free);
        TurnOf(kept, cursor);
        if free(cs[pos]) {
          KeptPosition(cs, pos, free);
          OnePlace(kept, cursor % |kept|, |Keep(cs[..pos], free)|);
        }
      }
    }
  }

  /** Under a policy that ranks, exactly when the choice is kept. */
  ghost predicate FreeChoice(cs: seq<Candidate>, free: Candidate -> bool, ranking: Ranking) {
    cs == [] || free(MinBy(cs, ranking))
  }

  lemma RankedParity(cs: seq<Candidate>, free: Candidate -> bool, ranking: Ranking)
    requires Ascending(cs)
    ensures SelectMin(Keep(cs, free), ranking) == SelectMin(cs, ranking) <==> FreeChoice(cs, free, ranking)
  {
    if cs != [] && free(MinBy(cs, ranking)) {
      SelectionIsStable(cs, Keep(cs, free), ranking);
    }
  }

  lemma SelectNamed(policy: Policy, cs: seq<Candidate>, cursor: nat)
    ensures Select(PolicyName(policy), cs, cursor) ==
            match policy
            case RoundRobin => SelectRoundRobin(cs, cursor)
            case Priority => SelectMin(cs, ByPriority)
            case LeastLatency => SelectMin(cs, ByLatency)
  {
    assert "priority"[0] == 'p' && "round_robin"[0] == 'r' && "least_latency"[0] == 'l';
  }

  ghost predicate Unaffected(x: Situation, policy: Policy, cursor: nat)
    requires Validated(x)
  {
    var oracle := OracleList(x, |x.rq.targets|);
    match policy
    case RoundRobin => SameTurn(oracle, Free(x), cursor)
    case Priority => FreeChoice(oracle, Free(x), ByPriority)
    case LeastLatency => FreeChoice(oracle, Free(x), ByLatency)
  }

  /** Parity of the choices, on every validated input and under every policy: daemon and
      oracle choose alike if and only if the blocked targets leave the choice unaffected. */
  lemma SelectionParityIff(x: Situation, policy: Policy, cursor: nat)
    requires Validated(x)
    ensures var rs := ListUpTo(x, |x.rq.targets|);
            Select(PolicyName(policy), OracleList(x, |x.rq.targets|), cursor) ==
            (if rs == [] then NoCandidate else Chosen(View(x, rs[SelectedIndex(policy, rs, cursor)].index)))
            <==> Unaffected(x, policy, cursor)
  {
    var oracle := OracleList(x, |x.rq.targets|);
    ListIsScreened(x, |x.rq.targets|);
    ChoiceAgrees(x, policy, cursor);
    SelectNamed(policy, oracle, cursor);
    SelectNamed(policy, Keep(oracle, Free(x)), cursor);
    match policy
    case RoundRobin => RoundRobinParity(oracle, Free(x), cursor);
    case Priority => RankedParity(oracle, Free(x), ByPriority);
    case LeastLatency => RankedParity(oracle, Free(x), ByLatency);
  }

  /** The identifiers of the configuration. */
  ghost function ConfiguredIds(x: Situation): set<string> {
    set k | 0 <= k < |x.providers| :: x.providers[k].id
  }

  lemma {:induction false} LookupsAreConfigured(x: Situation, n: nat)
    requires n <= |x.rq.targets|
    ensures Ids(Lookups(x, n)) <= ConfiguredIds(x)
  {
    if n > 0 {
      LookupsAreConfigured(x, n - 1);
      if Considered(x, n - 1) {
        IdsSnoc(Lookups(x, n));
        assert Lookups(x, n)[..|Lookups(x, n)| - 1] == Lookups(x, n - 1);
      }
    }
  }

  lemma RoomIsEnough(t: Table, id: string, all: set<string>)
    requires t.Keys <= all && id in all && |all| <= MAX_PROVIDERS
    ensures Found(t, id)
  {
    if id !in t {
      SubsetSize(t.Keys + {id}, all);
      assert |t.Keys| == |t|;
    }
  }

  /** With room for every provider of the configuration beside the records there are, no
      target lacks one, and a probe in flight is the only thing that blocks. */
  lemma RoomyBlocksOnlyProbes(x: Situation, i: nat)
    requires Validated(x) && i < |x.rq.targets| && |x.table.Keys + ConfiguredIds(x)| <= MAX_PROVIDERS
    ensures HasRecord(x, i) && (Blocked(x, i) <==> Probing(x, i))
  {
    KeysGrow(x.table, Lookups(x, i));
    LookupsAreConfigured(x, i);
    RoomIsEnough(TouchAll(x.table, Lookups(x, i)), ProviderOf(x, i).id, x.table.Keys + ConfiguredIds(x));
  }

  lemma AloneIsValidated(table: Table, nowNs: nat)
    requires |table| <= MAX_PROVIDERS
    ensures Validated(Alone(table, nowNs))
  {
    assert (0 as bv64) & 63 == 0;
  }

  lemma AloneIsEligible(table: Table, policy: Policy, cursor: nat)
    requires |table| <= MAX_PROVIDERS
    requires var c := StateOf(table, "p"); c.health in {Healthy, HalfOpen} && c.active < 2
    ensures var x := Alone(table, 0);
            && Validated(x) && EligibleAt(x, 0) && OracleList(x, 1) == [View(x, 0)]
            && Select(PolicyName(policy), OracleList(x, 1), cursor).Chosen?
  {
    var x := Alone(table, 0);
    AloneIsValidated(table, 0);
    AloneIsConsidered(table, 0);
    ConsiderationAgrees(x, 0);
    OracleListStep(x, 0);
    assert EligibleAt(x, 0);
    SelectNamed(policy, OracleList(x, 1), cursor);
    SortLength(OracleList(x, 1), ByConfiguration);
  }

  lemma BlockedAlone(table: Table)
    requires |table| <= MAX_PROVIDERS && Blocked(Alone(table, 0), 0)
    ensures ListUpTo(Alone(table, 0), 1) == []
  {
    AloneIsValidated(table, 0);
    FilterAgrees(Alone(table, 0), 0);
  }

  /** A half-open circuit with its probe in flight: the oracle sends the request there and
      the daemon has nowhere to send it, under every policy. */
  lemma ProbedAlone(policy: Policy, cursor: nat)
    ensures var x := Alone(map["p" := Breaker.FRESH.(health := HalfOpen, probes := 1, active := 1)], 0);
            && Validated(x) && ListUpTo(x, 1) == []
            && Select(PolicyName(policy), OracleList(x, 1), cursor).Chosen?
  {
    var table := map["p" := Breaker.FRESH.(health := HalfOpen, probes := 1, active := 1)];
    AloneIsEligible(table, policy, cursor);
    BlockedAlone(table);
  }

  /** A daemon that has seen 256 other providers: the oracle sends the request to the one
      its configuration names, and the daemon never will. */
  lemma CrowdedOut(policy: Policy, cursor: nat)
    ensures var x := Alone(TouchAll(map[], Visits(256)), 0);
            && Validated(x) && ListUpTo(x, 1) == []
            && Select(PolicyName(policy), OracleList(x, 1), cursor).Chosen?
  {
    var table := TouchAll(map[], Visits(256));
    VisitsFill(256);
    NoRoomForAnother();
    assert (Visits(256) + [Look("p", 0)])[..256] == Visits(256);
    AloneIsEligible(table, policy, cursor);
    BlockedAlone(table);
  }
}
