/** The daemon's provider records (src/routing/routing_health.asm, af_routing_provider):
    keyed by identifier, created on first sight, never removed, at most 256. */
module RoutingTable {
  import opened Common
  import opened RouteOracle
  import Breaker = CircuitBreaker

  const MAX_PROVIDERS: nat := 256    // AF_ROUTING_MAX_PROVIDERS

  type Table = map<string, Breaker.Circuit>

  /** The record for `id`, or the one it would be given. */
  function StateOf(t: Table, id: string): Breaker.Circuit {
    if id in t then t[id] else Breaker.FRESH
  }

  /** There is a record for `id`, or room for one. */
  predicate Found(t: Table, id: string) {
    id in t || |t| < MAX_PROVIDERS
  }

  /** A provider looked up at some reading of the clock. */
  datatype Look = Look(id: string, nowNs: nat)

  /** Looking up a provider creates its record if need be, and refreshes its circuit. */
  function Touch(t: Table, look: Look): Table {
    if Found(t, look.id) then t[look.id := Breaker.Refresh(StateOf(t, look.id), look.nowNs)] else t
  }

  function TouchAll(t: Table, looks: seq<Look>): Table {
    if looks == [] then t else Touch(TouchAll(t, looks[..|looks| - 1]), looks[|looks| - 1])
  }

  lemma TouchSnoc(t: Table, looks: seq<Look>, look: Look)
    ensures TouchAll(t, looks + [look]) == Touch(TouchAll(t, looks), look)
  {
    assert (looks + [look])[..|looks|] == looks;
  }

  // --- what lookups do to the table ---------------------------------------------------------

  lemma {:induction false} KeysGrow(t: Table, looks: seq<Look>)
    ensures t.Keys <= TouchAll(t, looks).Keys <= t.Keys + Ids(looks)
  {
    if looks != [] {
      KeysGrow(t, looks[..|looks| - 1]);
    }
  }

  function Ids(looks: seq<Look>): set<string> {
    set k | 0 <= k < |looks| :: looks[k].id
  }

  /** Lookups up to some time leave every circuit as a look at that time would find it. */
  lemma {:induction false} LooksAreInvisible(t: Table, looks: seq<Look>, id: string, nowNs: nat)
    requires forall k :: 0 <= k < |looks| ==> looks[k].nowNs <= nowNs
    ensures Breaker.Refresh(StateOf(TouchAll(t, looks), id), nowNs) == Breaker.Refresh(StateOf(t, id), nowNs)
  {
    if looks != [] {
      var front, last := looks[..|looks| - 1], looks[|looks| - 1];
      LooksAreInvisible(t, front, id, nowNs);
      if id == last.id {
        Breaker.RefreshComposes(StateOf(TouchAll(t, front), id), last.nowNs, nowNs);
      }
    }
  }

  /** This lookup changes the table: the circuit's cooldown has ended unnoticed, or the
      provider has no record and there is room for one. */
  predicate Changes(t: Table, look: Look) {
    if look.id in t then t[look.id].health == Open && look.nowNs >= t[look.id].openUntilNs
    else |t| < MAX_PROVIDERS
  }

  lemma TouchChangesIff(t: Table, look: Look)
    ensures Touch(t, look) != t <==> Changes(t, look)
  {
    if Changes(t, look) {
      assert look.id in Touch(t, look);
      assert look.id in t ==> Touch(t, look)[look.id].health == HalfOpen;
    } else if look.id in t {
      assert Touch(t, look) == t[look.id := t[look.id]] == t;
    }
  }

  /** What a lookup has changed never changes back. */
  lemma {:induction false} ChangesLast(t: Table, looks: seq<Look>, k: nat)
    requires k <= |looks| && TouchAll(t, looks[..k]) != t
    ensures TouchAll(t, looks) != t
    decreases |looks|
  {
    if k < |looks| {
      var front, last := looks[..|looks| - 1], looks[|looks| - 1];
      assert front[..k] == looks[..k];
      ChangesLast(t, front, k);
      StillChanged(t, front, last);
    } else {
      assert looks[..k] == looks;
    }
  }

  /** Every record is a circuit that was there, advanced at most, or a fresh one. */
  lemma {:induction false} RecordsAdvance(t: Table, looks: seq<Look>, id: string)
    requires id in TouchAll(t, looks)
    ensures TouchAll(t, looks)[id] == StateOf(t, id)
            || (StateOf(t, id).health == Open && TouchAll(t, looks)[id] == StateOf(t, id).(health := HalfOpen, probes := 0, successes := 0))
  {
    if looks != [] {
      var front, last := looks[..|looks| - 1], looks[|looks| - 1];
      KeysGrow(t, front);
      if id in TouchAll(t, front) {
        RecordsAdvance(t, front, id);
      }
    }
  }

  lemma StillChanged(t: Table, front: seq<Look>, last: Look)
    requires TouchAll(t, front) != t
    ensures Touch(TouchAll(t, front), last) != t
  {
    var before := TouchAll(t, front);
    KeysGrow(t, front);
    if before.Keys == t.Keys {
      var id :| id in t && before[id] != t[id];
      RecordsAdvance(t, front, id);
      assert before[id].health == HalfOpen && Touch(before, last)[id].health == HalfOpen;
    } else {
      var id :| id in before && id !in t;
      assert id in Touch(before, last);
    }
  }

  /** A run of lookups changes the table if and only if one of them, made on the table as
      it was, would. */
  lemma LookupsChangeIff(t: Table, looks: seq<Look>)
    ensures TouchAll(t, looks) != t <==> exists k :: 0 <= k < |looks| && Changes(t, looks[k])
  {
    if forall k :: 0 <= k < |looks| ==> !Changes(t, looks[k]) {
      NothingChanges(t, looks);
    }
    forall k | 0 <= k < |looks| && Changes(t, looks[k])
      ensures TouchAll(t, looks) != t
    {
      var front := looks[..k];
      TouchSnoc(t, front, looks[k]);
      assert front + [looks[k]] == looks[..k + 1];
      if TouchAll(t, front) == t {
        TouchChangesIff(t, looks[k]);
        ChangesLast(t, looks, k + 1);
      } else {
        ChangesLast(t, looks, k);
      }
    }
  }

  lemma {:induction false} NothingChanges(t: Table, looks: seq<Look>)
    requires forall k :: 0 <= k < |looks| ==> !Changes(t, looks[k])
    ensures TouchAll(t, looks) == t
  {
    if looks != [] {
      NothingChanges(t, looks[..|looks| - 1]);
      TouchChangesIff(t, looks[|looks| - 1]);
    }
  }

  // --- whether there is always room ------------------------------------------------------------

  /** The `k`-th lookup finds or makes a record. */
  predicate FoundAt(t: Table, looks: seq<Look>, k: nat)
    requires k < |looks|
  {
    Found(TouchAll(t, looks[..k]), looks[k].id)
  }

  /** A lookup that finds or makes a record adds at most its own key. */
  lemma TouchAdds(t: Table, look: Look)
    requires Found(t, look.id)
    ensures Touch(t, look).Keys == t.Keys + {look.id}
    ensures |Touch(t, look)| == |t| + if look.id in t then 0 else 1
  {
    var after := Touch(t, look);
    assert |after.Keys| == |after| && |t.Keys| == |t|;
  }

  lemma IdsSnoc(looks: seq<Look>)
    requires looks != []
    ensures Ids(looks) == Ids(looks[..|looks| - 1]) + {looks[|looks| - 1].id}
  {
  }

  lemma SubsetSize(a: set<string>, b: set<string>)
    requires a <= b
    ensures |a| <= |b|
  {
    assert b == a + (b - a);
  }

  ghost predicate AllFound(t: Table, looks: seq<Look>) {
    forall k :: 0 <= k < |looks| ==> FoundAt(t, looks, k)
  }

  lemma AllFoundFront(t: Table, looks: seq<Look>)
    requires looks != [] && AllFound(t, looks)
    ensures var front := looks[..|looks| - 1]; AllFound(t, front) && Found(TouchAll(t, front), looks[|looks| - 1].id)
  {
    var front := looks[..|looks| - 1];
    forall k | 0 <= k < |front|
      ensures FoundAt(t, front, k)
    {
      assert FoundAt(t, looks, k) && looks[..k] == front[..k];
    }
    assert FoundAt(t, looks, |front|);
  }

  lemma {:induction false} RoomySoFar(t: Table, looks: seq<Look>)
    requires |t| <= MAX_PROVIDERS && AllFound(t, looks)
    ensures TouchAll(t, looks).Keys == t.Keys + Ids(looks) && |TouchAll(t, looks)| <= MAX_PROVIDERS
  {
    if looks != [] {
      var front, last := looks[..|looks| - 1], looks[|looks| - 1];
      AllFoundFront(t, looks);
      RoomySoFar(t, front);
      TouchAdds(TouchAll(t, front), last);
      IdsSnoc(looks);
      SameUnion(t.Keys, Ids(front), last.id);
    }
  }

  lemma SameUnion(a: set<string>, b: set<string>, x: string)
    ensures (a + b) + {x} == a + (b + {x})
  {
  }

  /** Every lookup of a run, over however many requests and configurations, finds or makes
      a record if and only if the providers ever seen number at most 256. */
  lemma AlwaysFoundIff(t: Table, looks: seq<Look>)
    requires |t| <= MAX_PROVIDERS
    ensures AllFound(t, looks) <==> |t.Keys + Ids(looks)| <= MAX_PROVIDERS
  {
    if AllFound(t, looks) {
      RoomySoFar(t, looks);
      assert |TouchAll(t, looks).Keys| == |TouchAll(t, looks)|;
    }
    forall k | 0 <= k < |looks| && !FoundAt(t, looks, k)
      ensures |t.Keys + Ids(looks)| > MAX_PROVIDERS
    {
      var before := TouchAll(t, looks[..k]);
      KeysGrow(t, looks[..k]);
      assert looks[k].id in Ids(looks);
      assert Ids(looks[..k]) <= Ids(looks);
      SubsetSize(before.Keys + {looks[k].id}, t.Keys + Ids(looks));
      assert |before.Keys| == |before|;
    }
  }

  // --- a full table ------------------------------------------------------------------------------

  /** 256 two-letter identifiers. */
  function Id(n: nat): string
    requires n < 256
  {
    ['a' + (n / 16) as char, 'a' + (n % 16) as char]
  }

  lemma IdsDiffer(m: nat, n: nat)
    requires m < n < 256
    ensures Id(m) != Id(n)
  {
    assert Id(m)[0] == 'a' + (m / 16) as char && Id(n)[0] == 'a' + (n / 16) as char;
    assert Id(m)[1] == 'a' + (m % 16) as char && Id(n)[1] == 'a' + (n % 16) as char;
  }

  /** One look at each of the first `n`. */
  function Visits(n: nat): (looks: seq<Look>)
    requires n <= 256
    ensures |looks| == n && forall k :: 0 <= k < n ==> looks[k] == Look(Id(k), 0)
  {
    if n == 0 then [] else Visits(n - 1) + [Look(Id(n - 1), 0)]
  }

  lemma NotYetVisited(n: nat)
    requires n < 256
    ensures Id(n) !in TouchAll(map[], Visits(n))
  {
    KeysGrow(map[], Visits(n));
    forall k | 0 <= k < n
      ensures Visits(n)[k].id != Id(n)
    {
      IdsDiffer(k, n);
    }
  }

  lemma {:induction false} VisitsFill(n: nat)
    requires n <= 256
    ensures |TouchAll(map[], Visits(n))| == n
  {
    if n > 0 {
      var last := Look(Id(n - 1), 0);
      VisitsFill(n - 1);
      NotYetVisited(n - 1);
      TouchSnoc(map[], Visits(n - 1), last);
      TouchAdds(TouchAll(map[], Visits(n - 1)), last);
    }
  }

  /** Records outlive the configurations that named them, so a daemon that has seen 256
      providers has no room for another, whatever its configuration now says. */
  lemma NoRoomForAnother()
    ensures !FoundAt(map[], Visits(256) + [Look("p", 0)], 256)
  {
    VisitsFill(256);
    KeysGrow(map[], Visits(256));
    assert forall k :: 0 <= k < 256 ==> |Visits(256)[k].id| == 2;
    var looks := Visits(256) + [Look("p", 0)];
    assert looks[..256] == Visits(256);
  }
}
