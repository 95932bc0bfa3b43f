/** What acceptance by `validate` (tests/config_corpus.py) promises, said of the document
    alone, and exactly when its tables are accepted. */
module AcceptedConfig {
  import opened Common
  import opened Json
  import opened ConfigValidator
  import Sweep = CredentialSweep
  import Path = PathGrammar
  import Url = UrlAuthority

  // --- reading a document --------------------------------------------------------------

  function FieldsOf(value: Json): Node {
    if value.Object? then value.fields else []
  }

  function TextAt(node: Node, key: string): string {
    match Get(node, key)
    case Some(Text(s)) => s
    case _ => ""
  }

  /** No two entries have the same text under `key`. */
  ghost predicate Unique(items: seq<Json>, key: string) {
    forall i, j :: 0 <= i < j < |items| ==> TextAt(FieldsOf(items[i]), key) != TextAt(FieldsOf(items[j]), key)
  }

  /** The URL under `key` is within the outbound policy, under the entry's own flag. */
  ghost predicate UrlPermitted(node: Node, key: string, parse: Url.AddressParser) {
    Url.Judge(Url.OriginOf(TextAt(node, key)), Get(node, "allow_insecure_private_http") == Some(Bool(true)), parse).Permitted?
  }

  // --- what is promised ------------------------------------------------------------------

  ghost predicate SettingsSound(root: Node) {
    && Path.Check(TextAt(Section(root, "control"), "socket_path")) == Path.Accepted
    && Path.Check(TextAt(Section(root, "storage"), "database_path")) == Path.Accepted
    && (TextAt(Section(root, "logging"), "destination") == "file" ==>
          Path.Check(TextAt(Section(root, "logging"), "file_path")) == Path.Accepted)
    && (TextAt(Section(root, "listener"), "host") in LOOPBACK_HOSTS
        || TextAt(Section(Section(root, "listener"), "auth"), "type") != "none")
  }

  ghost predicate ProvidersSound(providers: seq<Json>, parse: Url.AddressParser) {
    && Unique(providers, "id")
    && forall i :: 0 <= i < |providers| ==> UrlPermitted(FieldsOf(providers[i]), "base_url", parse)
  }

  /** The target asks for the provider with this entry. */
  ghost predicate Names(target: Json, provider: Json) {
    TextAt(FieldsOf(target), "provider_id") == TextAt(FieldsOf(provider), "id")
  }

  /** A target's provider exists; for a responses route some target's provider advertises
      responses; and the budget is within the number of targets. */
  ghost predicate RouteSound(route: Node, providers: seq<Json>) {
    var targets := Items(route, "targets");
    && (forall t :: 0 <= t < |targets| ==> exists k :: 0 <= k < |providers| && Names(targets[t], providers[k]))
    && (Text("responses") in Items(route, "endpoint_families") ==>
          exists t, k :: 0 <= t < |targets| && 0 <= k < |providers| && Names(targets[t], providers[k])
                         && Advertises(FieldsOf(providers[k]), "responses"))
    && match Get(Section(route, "fallback"), "max_attempts")
       case Some(Number(n)) => 1 <= n <= |targets|
       case _ => false
  }

  ghost predicate RoutesSound(routes: seq<Json>, providers: seq<Json>) {
    && Unique(routes, "id") && Unique(routes, "model_alias")
    && forall i :: 0 <= i < |routes| ==> RouteSound(FieldsOf(routes[i]), providers)
  }

  ghost predicate ServerSound(server: Node, parse: Url.AddressParser) {
    if TextAt(server, "transport") == "stdio" then
      forall i :: 0 <= i < |Section(server, "env")| ==> Text(Section(server, "env")[i].key) !in Items(server, "env_allow")
    else UrlPermitted(server, "url", parse)
  }

  ghost predicate ServersSound(servers: seq<Json>, parse: Url.AddressParser) {
    && Unique(servers, "id")
    && forall i :: 0 <= i < |servers| ==> ServerSound(FieldsOf(servers[i]), parse)
  }

  ghost predicate SoundDocument(document: Json, parse: Url.AddressParser) {
    && document.Object? && Sweep.Clean(document)
    && SettingsSound(document.fields)
    && ProvidersSound(Items(document.fields, "providers"), parse)
    && RoutesSound(Items(document.fields, "routes"), Items(document.fields, "providers"))
    && ServersSound(Items(document.fields, "mcp_servers"), parse)
  }

  // --- and kept ------------------------------------------------------------------------------

  lemma ProvidersAreSound(items: seq<Json>, table: seq<Provider>, parse: Url.AddressParser)
    requires |table| == |items| && ProviderTable(items, table, parse)
    ensures ProvidersSound(items, parse)
  {
    forall i | 0 <= i < |items|
      ensures TextAt(FieldsOf(items[i]), "id") == table[i].id && UrlPermitted(FieldsOf(items[i]), "base_url", parse)
    {
      assert ProviderMatches(items[i], table[i], parse);
    }
  }

  lemma TargetIsNamed(target: Json, t: Target, providers: seq<Json>, table: seq<Provider>, parse: Url.AddressParser)
    requires |table| == |providers| && ProviderTable(providers, table, parse) && TargetMatches(target, t, table)
    ensures t.resolved < |providers| && Names(target, providers[t.resolved])
  {
    assert ProviderMatches(providers[t.resolved], table[t.resolved], parse);
  }

  lemma RouteIsSound(entry: Json, r: Route, providers: seq<Json>, table: seq<Provider>, parse: Url.AddressParser)
    requires |table| == |providers| && ProviderTable(providers, table, parse) && RouteMatches(entry, r, table)
    ensures RouteSound(FieldsOf(entry), providers)
  {
    var targets := Items(entry.fields, "targets");
    forall t | 0 <= t < |targets|
      ensures r.targets[t].resolved < |providers| && Names(targets[t], providers[r.targets[t].resolved])
    {
      TargetIsNamed(targets[t], r.targets[t], providers, table, parse);
    }
    if Text("responses") in Items(entry.fields, "endpoint_families") {
      assert "responses" in r.families;
      var t :| 0 <= t < |r.targets| && r.targets[t].resolved < |table| && "responses" in table[r.targets[t].resolved].capabilities;
      assert ProviderMatches(providers[r.targets[t].resolved], table[r.targets[t].resolved], parse);
    }
  }

  lemma RoutesAreSound(routes: seq<Json>, rs: seq<Route>, providers: seq<Json>, table: seq<Provider>, parse: Url.AddressParser)
    requires |table| == |providers| && ProviderTable(providers, table, parse) && RouteTable(routes, rs, table)
    ensures RoutesSound(routes, providers)
  {
    forall i | 0 <= i < |routes|
      ensures TextAt(FieldsOf(routes[i]), "id") == rs[i].id && TextAt(FieldsOf(routes[i]), "model_alias") == rs[i].alias
      ensures RouteSound(FieldsOf(routes[i]), providers)
    {
      assert RouteMatches(routes[i], rs[i], table);
      RouteIsSound(routes[i], rs[i], providers, table, parse);
    }
  }

  lemma ServersAreSound(items: seq<Json>, table: seq<Server>, parse: Url.AddressParser)
    requires |table| == |items| && ServerTable(items, table, parse)
    ensures ServersSound(items, parse)
  {
    forall i | 0 <= i < |items|
      ensures TextAt(FieldsOf(items[i]), "id") == table[i].id && ServerSound(FieldsOf(items[i]), parse)
    {
      assert ServerMatches(items[i], table[i], parse);
      if Get(items[i].fields, "transport") == Some(Text("stdio")) {
        StdioIsSound(items[i].fields, table[i], parse);
      }
    }
  }

  lemma StdioIsSound(server: Node, s: Server, parse: Url.AddressParser)
    requires StdioMatches(server, s) && TextAt(server, "transport") == "stdio"
    ensures ServerSound(server, parse)
  {
    var env := Section(server, "env");
    forall i | 0 <= i < |env|
      ensures Text(env[i].key) !in Items(server, "env_allow")
    {
      assert s.env[i] == env[i].key;
    }
  }

  /** The three tables, each with the entries it was made from. */
  lemma TablesOfTheDocument(root: Node, t: Tables, parse: Url.AddressParser)
    requires SoundTables(root, t, parse)
    ensures var items := Items(root, "providers"); |t.providers| == |items| && ProviderTable(items, t.providers, parse)
    ensures RouteTable(Items(root, "routes"), t.routes, t.providers)
    ensures var items := Items(root, "mcp_servers"); |t.servers| == |items| && ServerTable(items, t.servers, parse)
  {
  }

  lemma TablesAreSound(root: Node, t: Tables, parse: Url.AddressParser)
    requires SoundTables(root, t, parse)
    ensures ProvidersSound(Items(root, "providers"), parse)
    ensures RoutesSound(Items(root, "routes"), Items(root, "providers"))
    ensures ServersSound(Items(root, "mcp_servers"), parse)
  {
    TablesOfTheDocument(root, t, parse);
    ProvidersAreSound(Items(root, "providers"), t.providers, parse);
    RoutesAreSound(Items(root, "routes"), t.routes, Items(root, "providers"), t.providers, parse);
    ServersAreSound(Items(root, "mcp_servers"), t.servers, parse);
  }

  lemma PathIsSound(node: Node, key: string, path: string)
    requires PathAt(node, key, path)
    ensures Path.Check(TextAt(node, key)) == Path.Accepted
  {
  }

  lemma ListenerIsSound(listener: Node, l: Listener)
    requires ListenerMatches(listener, l)
    ensures TextAt(listener, "host") in LOOPBACK_HOSTS || TextAt(Section(listener, "auth"), "type") != "none"
  {
    assert TextAt(listener, "host") == l.host && TextAt(Section(listener, "auth"), "type") == l.authType;
  }

  lemma LogPathIsSound(logging: Node, path: Option<string>)
    requires path.Some? <==> Get(logging, "destination") == Some(Text("file"))
    requires path.Some? ==> PathAt(logging, "file_path", path.value)
    ensures TextAt(logging, "destination") == "file" ==> Path.Check(TextAt(logging, "file_path")) == Path.Accepted
  {
    if path.Some? {
      PathIsSound(logging, "file_path", path.value);
    }
  }

  lemma SettingsAreSound(root: Node, c: Settings)
    requires SettingsMatch(root, c)
    ensures SettingsSound(root)
  {
    PathIsSound(Section(root, "control"), "socket_path", c.socketPath);
    PathIsSound(Section(root, "storage"), "database_path", c.databasePath);
    LogPathIsSound(Section(root, "logging"), c.logPath);
    ListenerIsSound(Section(root, "listener"), c.listener);
  }

  /** Every accepted document: no credential key at any depth; every path the daemon will
      open follows the grammar; no listener off the loopback without authentication;
      unique provider, route, alias and server names; every target names a provider,
      every responses route one that advertises responses, every budget within the
      targets; disjoint environment names; and every outbound URL within the policy. */
  lemma AcceptedDocumentIsSound(document: Json, parse: Url.AddressParser)
    requires Validated(document, parse).Ok?
    ensures SoundDocument(document, parse)
  {
    AcceptedDocument(document, parse);
    var config := Validated(document, parse).value;
    SettingsAreSound(document.fields, config.settings);
    TablesAreSound(document.fields, config.tables, parse);
  }

  // --- exactly when the tables are accepted -----------------------------------------------------

  /** The first `n` entries are acceptable on their own, and no two share a name. */
  ghost predicate Agreeable(names: seq<Option<string>>, n: nat)
    requires n <= |names|
  {
    && (forall i :: 0 <= i < n ==> names[i].Some?)
    && (forall i, j :: 0 <= i < j < n ==> names[i] != names[j])
  }

  /** The names the first entries were accepted under. */
  ghost predicate Taken(names: seq<Option<string>>, used: seq<string>) {
    |used| <= |names| && forall i :: 0 <= i < |used| ==> names[i] == Some(used[i])
  }

  lemma AgreeableStep(names: seq<Option<string>>, used: seq<string>)
    requires Taken(names, used) && |used| < |names| && Agreeable(names, |used|)
    ensures Agreeable(names, |used| + 1) <==> names[|used|].Some? && names[|used|].value !in used
  {
    var n := |used|;
    if names[n].Some? && names[n].value !in used {
      forall k | 0 <= k < n
        ensures names[k] != names[n]
      {
        assert names[k] == Some(used[k]);
      }
    } else if names[n].Some? {
      var k :| 0 <= k < n && used[k] == names[n].value;
      assert names[k] == names[n];
    }
  }

  lemma NeverAgreeable(names: seq<Option<string>>, n: nat)
    requires n <= |names| && !Agreeable(names, n)
    ensures !Agreeable(names, |names|)
  {
  }

  function ProviderAt(items: seq<Json>, i: nat, used: seq<string>, parse: Url.AddressParser): Result<Provider>
    requires i < |items|
  {
    CheckProvider(items[i], [Key("providers"), Index(i)], used, parse)
  }

  lemma NewIdAlone(node: Node, used: seq<string>, at: Pointer)
    ensures var alone, r := NewId(node, [], at), NewId(node, used, at);
            && (r.Ok? <==> alone.Ok? && alone.value !in used)
            && (r.Ok? ==> r == alone)
  {
  }

  /** The names taken matter to a provider only through its own id. */
  lemma ProviderAlone(items: seq<Json>, i: nat, used: seq<string>, parse: Url.AddressParser)
    requires i < |items|
    ensures var alone, r := ProviderAt(items, i, [], parse), ProviderAt(items, i, used, parse);
            && (r.Ok? <==> alone.Ok? && alone.value.id !in used)
            && (r.Ok? ==> r == alone)
  {
    NewIdAlone(FieldsOf(items[i]), used, [Key("providers"), Index(i)]);
  }

  function ProviderNames(items: seq<Json>, parse: Url.AddressParser): (names: seq<Option<string>>)
    ensures |names| == |items|
    ensures forall i :: 0 <= i < |items| ==>
              names[i] == var r := ProviderAt(items, i, [], parse); if r.Ok? then Some(r.value.id) else None
  {
    seq(|items|, i requires 0 <= i < |items| =>
      var r := ProviderAt(items, i, [], parse); if r.Ok? then Some(r.value.id) else None)
  }

  /** One turn of the loop, as far as names go. */
  lemma ProviderStep(items: seq<Json>, table: seq<Provider>, parse: Url.AddressParser) returns (next: seq<Provider>)
    requires |table| < |items|
    ensures var name, used := ProviderNames(items, parse)[|table|], ProviderIds(table);
            if name.Some? && name.value !in used
            then |next| == |table| + 1 && ProviderIds(next) == used + [name.value]
                 && ProvidersFrom(items, table, parse) == ProvidersFrom(items, next, parse)
            else ProvidersFrom(items, table, parse).Reject?
  {
    var i := |table|;
    ProviderAlone(items, i, ProviderIds(table), parse);
    var r := ProviderAt(items, i, ProviderIds(table), parse);
    next := if r.Ok? then table + [r.value] else [];
  }

  /** The provider section is accepted exactly when every provider is acceptable on its
      own and no two share an id. */
  lemma {:induction false} ProvidersAcceptedIff(items: seq<Json>, table: seq<Provider>, parse: Url.AddressParser)
    requires Taken(ProviderNames(items, parse), ProviderIds(table)) && Agreeable(ProviderNames(items, parse), |table|)
    ensures ProvidersFrom(items, table, parse).Ok? <==> Agreeable(ProviderNames(items, parse), |items|)
    decreases |items| - |table|
  {
    var i, names := |table|, ProviderNames(items, parse);
    if i < |items| {
      AgreeableStep(names, ProviderIds(table));
      var next := ProviderStep(items, table, parse);
      if Agreeable(names, i + 1) {
        ProvidersAcceptedIff(items, next, parse);
      } else {
        NeverAgreeable(names, i + 1);
      }
    }
  }

  function ServerAt(items: seq<Json>, i: nat, used: seq<string>, parse: Url.AddressParser): Result<Server>
    requires i < |items|
  {
    CheckServer(items[i], [Key("mcp_servers"), Index(i)], used, parse)
  }

  lemma ServerAlone(items: seq<Json>, i: nat, used: seq<string>, parse: Url.AddressParser)
    requires i < |items|
    ensures var alone, r := ServerAt(items, i, [], parse), ServerAt(items, i, used, parse);
            && (r.Ok? <==> alone.Ok? && alone.value.id !in used)
            && (r.Ok? ==> r == alone)
  {
    NewIdAlone(FieldsOf(items[i]), used, [Key("mcp_servers"), Index(i)]);
  }

  function ServerNames(items: seq<Json>, parse: Url.AddressParser): (names: seq<Option<string>>)
    ensures |names| == |items|
    ensures forall i :: 0 <= i < |items| ==>
              names[i] == var r := ServerAt(items, i, [], parse); if r.Ok? then Some(r.value.id) else None
  {
    seq(|items|, i requires 0 <= i < |items| =>
      var r := ServerAt(items, i, [], parse); if r.Ok? then Some(r.value.id) else None)
  }

  /** One turn of the loop, as far as names go. */
  lemma ServerStep(items: seq<Json>, table: seq<Server>, parse: Url.AddressParser) returns (next: seq<Server>)
    requires |table| < |items|
    ensures var name, used := ServerNames(items, parse)[|table|], ServerIds(table);
            if name.Some? && name.value !in used
            then |next| == |table| + 1 && ServerIds(next) == used + [name.value]
                 && ServersFrom(items, table, parse) == ServersFrom(items, next, parse)
            else ServersFrom(items, table, parse).Reject?
  {
    var i := |table|;
    ServerAlone(items, i, ServerIds(table), parse);
    var r := ServerAt(items, i, ServerIds(table), parse);
    next := if r.Ok? then table + [r.value] else [];
  }

  /** The server section is accepted exactly when every server is acceptable on its
      own and no two share an id. */
  lemma {:induction false} ServersAcceptedIff(items: seq<Json>, table: seq<Server>, parse: Url.AddressParser)
    requires Taken(ServerNames(items, parse), ServerIds(table)) && Agreeable(ServerNames(items, parse), |table|)
    ensures ServersFrom(items, table, parse).Ok? <==> Agreeable(ServerNames(items, parse), |items|)
    decreases |items| - |table|
  {
    var i, names := |table|, ServerNames(items, parse);
    if i < |items| {
      AgreeableStep(names, ServerIds(table));
      var next := ServerStep(items, table, parse);
      if Agreeable(names, i + 1) {
        ServersAcceptedIff(items, next, parse);
      } else {
        NeverAgreeable(names, i + 1);
      }
    }
  }
}
