/** From a configuration the validator accepts to the selector's preconditions. */
module Deployment {
  import opened Common
  import Config = ConfigValidator
  import Json
  import Url = UrlAuthority
  import opened Selector
  import opened RouteOracle
  import opened RoutingTable

  /** `x` is a routing situation for route `r` of the accepted tables. */
  ghost predicate Serves(x: Situation, t: Config.Tables, r: nat) {
    && r < |t.routes| && |x.table| <= MAX_PROVIDERS
    && |x.providers| == |t.providers|
    && (forall k :: 0 <= k < |x.providers| ==>
          x.providers[k].id == t.providers[k].id && x.providers[k].maxConcurrency == t.providers[k].maxConcurrency)
    && |x.rq.targets| == |t.routes[r].targets|
    && (forall i :: 0 <= i < |x.rq.targets| ==> x.rq.targets[i].providerIndex == t.routes[r].targets[i].resolved)
    && x.rq.caps & 63 == x.rq.caps
  }

  lemma TargetsNameProviders(rs: seq<Json.Json>, t: Config.Tables, x: Situation, r: nat)
    requires Config.RouteTable(rs, t.routes, t.providers) && Serves(x, t, r)
    ensures |x.rq.targets| <= MAX_TARGETS
    ensures forall i :: 0 <= i < |x.rq.targets| ==> 0 <= x.rq.targets[i].providerIndex < |x.providers|
  {
    assert Config.RouteMatches(rs[r], t.routes[r], t.providers);
    var items := Config.Get(rs[r].fields, "targets").value.items;
    forall i | 0 <= i < |x.rq.targets|
      ensures 0 <= x.rq.targets[i].providerIndex < |x.providers|
    {
      assert Config.TargetMatches(items[i], t.routes[r].targets[i], t.providers);
    }
  }

  lemma ProvidersAreSound(ps: seq<Json.Json>, t: Config.Tables, parse: Url.AddressParser, x: Situation, r: nat)
    requires |t.providers| == |ps| && Config.ProviderTable(ps, t.providers, parse) && Serves(x, t, r)
    ensures forall k :: 0 <= k < |x.providers| ==> x.providers[k].maxConcurrency >= 1 && '\0' !in x.providers[k].id
  {
    forall k | 0 <= k < |x.providers|
      ensures x.providers[k].maxConcurrency >= 1 && '\0' !in x.providers[k].id
    {
      assert Config.ProviderMatches(ps[k], t.providers[k], parse);
    }
  }

  lemma SoundTablesAreServable(root: Config.Node, t: Config.Tables, parse: Url.AddressParser, x: Situation, r: nat)
    requires Config.SoundTables(root, t, parse) && Serves(x, t, r)
    ensures Selector.Validated(x)
    ensures forall k :: 0 <= k < |x.providers| ==> '\0' !in x.providers[k].id
  {
    var rs: seq<Json.Json> :| Config.Get(root, "routes") == Some(Json.List(rs)) && Config.RouteTable(rs, t.routes, t.providers);
    var ps: seq<Json.Json> :| Config.Get(root, "providers") == Some(Json.List(ps)) && |t.providers| == |ps|
              && Config.ProviderTable(ps, t.providers, parse);
    TargetsNameProviders(rs, t, x, r);
    ProvidersAreSound(ps, t, parse, x, r);
  }

  /** Whatever the providers' health and load, and whatever a request has tried, every
      route of an accepted document meets the selector's preconditions: at most 64
      targets, every target naming a provider, every ceiling at least one, and no
      identifier the bytewise comparison could misread. */
  lemma AcceptedRoutesAreServable(document: Json.Json, parse: Url.AddressParser, x: Situation, r: nat)
    requires Config.Validated(document, parse).Ok?
    requires Serves(x, Config.Validated(document, parse).value.tables, r)
    ensures Selector.Validated(x)
    ensures forall k :: 0 <= k < |x.providers| ==> '\0' !in x.providers[k].id
  {
    Config.AcceptedDocument(document, parse);
    SoundTablesAreServable(document.fields, Config.Validated(document, parse).value.tables, parse, x, r);
  }

  /** So for every accepted document, daemon and oracle route alike if and only if the
      blocked targets leave the choice unaffected, as they do when there are none. */
  lemma AcceptedDocumentsRouteAlike(document: Json.Json, parse: Url.AddressParser, x: Situation, r: nat, policy: Policy, cursor: nat)
    requires Config.Validated(document, parse).Ok?
    requires Serves(x, Config.Validated(document, parse).value.tables, r)
    ensures Selector.Validated(x)
    ensures var rs := ListUpTo(x, |x.rq.targets|);
            Select(PolicyName(policy), OracleList(x, |x.rq.targets|), cursor) ==
            (if rs == [] then NoCandidate else Chosen(View(x, rs[SelectedIndex(policy, rs, cursor)].index)))
            <==> Unaffected(x, policy, cursor)
    ensures !SomeBlocked(x, |x.rq.targets|) ==> Unaffected(x, policy, cursor)
  {
    AcceptedRoutesAreServable(document, parse, x, r);
    SelectionParityIff(x, policy, cursor);
    if !SomeBlocked(x, |x.rq.targets|) {
      SelectionParity(x, policy, cursor);
    }
  }

  lemma {:induction false} IdsAreFew(providers: seq<Provider>, n: nat)
    requires n <= |providers|
    ensures |set k | 0 <= k < n :: providers[k].id| <= n
  {
    if n > 0 {
      IdsAreFew(providers, n - 1);
      var fewer := set k | 0 <= k < n - 1 :: providers[k].id;
      assert (set k | 0 <= k < n :: providers[k].id) == fewer + {providers[n - 1].id};
    }
  }

  lemma FewProviders(document: Json.Json, parse: Url.AddressParser)
    requires Config.Validated(document, parse).Ok?
    ensures |Config.Validated(document, parse).value.tables.providers| <= 256
  {
    Config.AcceptedDocument(document, parse);
  }

  lemma OwnRecordsFit(x: Situation, i: nat)
    requires Selector.Validated(x) && i < |x.rq.targets| && |x.providers| <= 256 && x.table.Keys <= ConfiguredIds(x)
    ensures HasRecord(x, i)
  {
    IdsAreFew(x.providers, |x.providers|);
    assert x.table.Keys + ConfiguredIds(x) == ConfiguredIds(x);
    RoomyBlocksOnlyProbes(x, i);
  }

  /** An accepted document is always served while the daemon's records are all its own:
      every target's provider has a record or is given one. */
  lemma OwnRecordsLeaveRoom(document: Json.Json, parse: Url.AddressParser, x: Situation, r: nat, i: nat)
    requires Config.Validated(document, parse).Ok?
    requires Serves(x, Config.Validated(document, parse).value.tables, r) && i < |x.rq.targets|
    requires x.table.Keys <= ConfiguredIds(x)
    ensures 0 <= x.rq.targets[i].providerIndex < |x.providers| && HasRecord(x, i)
  {
    AcceptedRoutesAreServable(document, parse, x, r);
    FewProviders(document, parse);
    OwnRecordsFit(x, i);
  }
}
