/** The repository's own smallest configuration (examples/asmflow.minimal.json): one provider,
    one chat route over it. `validate` accepts it, so the promises about accepted documents
    are promises about something, and the schema is not too narrow for it. */
module ExampleDocument {
  import opened Common
  import opened Json
  import opened ConfigValidator
  import opened AcceptedConfig
  import opened SchemaVersion
  import opened ConfigAcceptance
  import Sweep = CredentialSweep
  import Path = PathGrammar
  import Language = PathLanguage
  import Url = UrlAuthority

  const SOCKET := "/asmflow/control.sock"
  const DATABASE := "/asmflow/asmflow.db"
  const SOCKET_PATH := "${" + "XDG_RUNTIME_DIR" + "}" + SOCKET
  const DATABASE_PATH := "${" + "XDG_STATE_HOME" + "}" + DATABASE
  const BASE_URL := "http://127.0.0.1:11434/v1"

  const NO_AUTH: Node := [
    Field("type", Text("none"))]
  const LISTENER: Node := [
    Field("host", Text("127.0.0.1")),
    Field("port", Number(8080)),
    Field("auth", Object(NO_AUTH)),
    Field("request_header_max_bytes", Number(65536)),
    Field("request_body_max_bytes", Number(8388608)),
    Field("idle_timeout_ms", Number(30000)),
    Field("expose_unavailable_models", Bool(false))]
  const CONTROL: Node := [
    Field("socket_path", Text(SOCKET_PATH)),
    Field("mode", Text("0600")),
    Field("frame_max_bytes", Number(1048576))]
  const STORAGE: Node := [
    Field("database_path", Text(DATABASE_PATH)),
    Field("journal_mode", Text("wal")),
    Field("busy_timeout_ms", Number(3000)),
    Field("request_metadata_retention_days", Number(30)),
    Field("store_payloads", Bool(false))]
  const LOGGING: Node := [
    Field("level", Text("info")),
    Field("format", Text("jsonl")),
    Field("destination", Text("stderr")),
    Field("include_request_metadata", Bool(true)),
    Field("include_payloads", Bool(false)),
    Field("redact_headers", List([Text("authorization"), Text("proxy-authorization"), Text("cookie"), Text("set-cookie")]))]
  const LIMITS: Node := [
    Field("max_active_requests", Number(128)),
    Field("max_queued_requests", Number(256)),
    Field("json_max_depth", Number(64)),
    Field("json_string_max_bytes", Number(4194304)),
    Field("sse_event_max_bytes", Number(1048576)),
    Field("mcp_frame_max_bytes", Number(4194304)),
    Field("stderr_line_max_bytes", Number(65536))]
  const TIMEOUTS: Node := [
    Field("connect_ms", Number(2000)),
    Field("request_ms", Number(120000)),
    Field("idle_stream_ms", Number(30000))]
  const CAPABILITIES: Node := [
    Field("responses", Bool(false)),
    Field("chat_completions", Bool(true)),
    Field("streaming", Bool(true)),
    Field("tools", Bool(true)),
    Field("vision", Bool(false)),
    Field("json_schema", Bool(false))]
  const HEALTH: Node := [
    Field("path", Text("/models")),
    Field("interval_ms", Number(10000)),
    Field("failure_threshold", Number(3)),
    Field("success_threshold", Number(2)),
    Field("open_cooldown_ms", Number(30000))]
  const PROVIDER: Node := [
    Field("id", Text("local-ollama")),
    Field("display_name", Text("Local Ollama")),
    Field("adapter", Text("openai_chat")),
    Field("base_url", Text(BASE_URL)),
    Field("auth", Object(NO_AUTH)),
    Field("enabled", Bool(true)),
    Field("required", Bool(false)),
    Field("max_concurrency", Number(4)),
    Field("timeouts", Object(TIMEOUTS)),
    Field("capabilities", Object(CAPABILITIES)),
    Field("health", Object(HEALTH))]
  const FALLBACK: Node := [
    Field("enabled", Bool(false)),
    Field("max_attempts", Number(1)),
    Field("retryable", List([]))]
  const TARGET: Node := [
    Field("provider_id", Text("local-ollama")),
    Field("upstream_model", Text("qwen-example")),
    Field("priority", Number(10)),
    Field("weight", Number(1))]
  const ROUTE: Node := [
    Field("id", Text("general-route")),
    Field("model_alias", Text("general")),
    Field("enabled", Bool(true)),
    Field("endpoint_families", List([Text("chat_completions")])),
    Field("policy", Text("priority")),
    Field("fallback", Object(FALLBACK)),
    Field("targets", List([Object(TARGET)]))]

  /** examples/asmflow.minimal.json, with any value for the version. */
  function Example(version: Json): Node {
    [Field("schema_version", version), Field("listener", Object(LISTENER)), Field("control", Object(CONTROL)),
     Field("storage", Object(STORAGE)), Field("logging", Object(LOGGING)), Field("limits", Object(LIMITS)),
     Field("providers", List([Object(PROVIDER)])), Field("routes", List([Object(ROUTE)])), Field("mcp_servers", List([]))]
  }

  // --- what it holds ------------------------------------------------------------------------

  lemma NoAuthReads()
    ensures Get(NO_AUTH, "type") == Some(Text("none"))
  {
    GetAt(NO_AUTH, 0);
  }

  lemma ListenerReads()
    ensures Get(LISTENER, "host") == Some(Text("127.0.0.1"))
    ensures Get(LISTENER, "port") == Some(Number(8080))
    ensures Get(LISTENER, "auth") == Some(Object(NO_AUTH))
    ensures Get(LISTENER, "request_header_max_bytes") == Some(Number(65536))
    ensures Get(LISTENER, "request_body_max_bytes") == Some(Number(8388608))
    ensures Get(LISTENER, "idle_timeout_ms") == Some(Number(30000))
    ensures Get(LISTENER, "expose_unavailable_models") == Some(Bool(false))
  {
    GetAt(LISTENER, 0);
    GetAt(LISTENER, 1);
    GetAt(LISTENER, 2);
    GetAt(LISTENER, 3);
    GetAt(LISTENER, 4);
    GetAt(LISTENER, 5);
    GetAt(LISTENER, 6);
  }

  lemma ControlReads()
    ensures Get(CONTROL, "socket_path") == Some(Text(SOCKET_PATH))
    ensures Get(CONTROL, "mode") == Some(Text("0600"))
    ensures Get(CONTROL, "frame_max_bytes") == Some(Number(1048576))
  {
    GetAt(CONTROL, 0);
    GetAt(CONTROL, 1);
    GetAt(CONTROL, 2);
  }

  lemma StorageReads()
    ensures Get(STORAGE, "database_path") == Some(Text(DATABASE_PATH))
    ensures Get(STORAGE, "journal_mode") == Some(Text("wal"))
    ensures Get(STORAGE, "busy_timeout_ms") == Some(Number(3000))
    ensures Get(STORAGE, "request_metadata_retention_days") == Some(Number(30))
    ensures Get(STORAGE, "store_payloads") == Some(Bool(false))
  {
    GetAt(STORAGE, 0);
    GetAt(STORAGE, 1);
    GetAt(STORAGE, 2);
    GetAt(STORAGE, 3);
    GetAt(STORAGE, 4);
  }

  lemma LoggingReads()
    ensures Get(LOGGING, "level") == Some(Text("info"))
    ensures Get(LOGGING, "format") == Some(Text("jsonl"))
    ensures Get(LOGGING, "destination") == Some(Text("stderr"))
    ensures Get(LOGGING, "include_request_metadata") == Some(Bool(true))
    ensures Get(LOGGING, "include_payloads") == Some(Bool(false))
    ensures Get(LOGGING, "redact_headers") == Some(List([Text("authorization"), Text("proxy-authorization"), Text("cookie"), Text("set-cookie")]))
  {
    GetAt(LOGGING, 0);
    GetAt(LOGGING, 1);
    GetAt(LOGGING, 2);
    GetAt(LOGGING, 3);
    GetAt(LOGGING, 4);
    GetAt(LOGGING, 5);
  }

  lemma LimitsReads()
    ensures Get(LIMITS, "max_active_requests") == Some(Number(128))
    ensures Get(LIMITS, "max_queued_requests") == Some(Number(256))
    ensures Get(LIMITS, "json_max_depth") == Some(Number(64))
    ensures Get(LIMITS, "json_string_max_bytes") == Some(Number(4194304))
    ensures Get(LIMITS, "sse_event_max_bytes") == Some(Number(1048576))
    ensures Get(LIMITS, "mcp_frame_max_bytes") == Some(Number(4194304))
    ensures Get(LIMITS, "stderr_line_max_bytes") == Some(Number(65536))
  {
    GetAt(LIMITS, 0);
    GetAt(LIMITS, 1);
    GetAt(LIMITS, 2);
    GetAt(LIMITS, 3);
    GetAt(LIMITS, 4);
    GetAt(LIMITS, 5);
    GetAt(LIMITS, 6);
  }

  lemma TimeoutsReads()
    ensures Get(TIMEOUTS, "connect_ms") == Some(Number(2000))
    ensures Get(TIMEOUTS, "request_ms") == Some(Number(120000))
    ensures Get(TIMEOUTS, "idle_stream_ms") == Some(Number(30000))
  {
    GetAt(TIMEOUTS, 0);
    GetAt(TIMEOUTS, 1);
    GetAt(TIMEOUTS, 2);
  }

  lemma CapabilitiesReads()
    ensures Get(CAPABILITIES, "responses") == Some(Bool(false))
    ensures Get(CAPABILITIES, "chat_completions") == Some(Bool(true))
    ensures Get(CAPABILITIES, "streaming") == Some(Bool(true))
    ensures Get(CAPABILITIES, "tools") == Some(Bool(true))
    ensures Get(CAPABILITIES, "vision") == Some(Bool(false))
    ensures Get(CAPABILITIES, "json_schema") == Some(Bool(false))
  {
    GetAt(CAPABILITIES, 0);
    GetAt(CAPABILITIES, 1);
    GetAt(CAPABILITIES, 2);
    GetAt(CAPABILITIES, 3);
    GetAt(CAPABILITIES, 4);
    GetAt(CAPABILITIES, 5);
  }

  lemma HealthReads()
    ensures Get(HEALTH, "path") == Some(Text("/models"))
    ensures Get(HEALTH, "interval_ms") == Some(Number(10000))
    ensures Get(HEALTH, "failure_threshold") == Some(Number(3))
    ensures Get(HEALTH, "success_threshold") == Some(Number(2))
    ensures Get(HEALTH, "open_cooldown_ms") == Some(Number(30000))
  {
    GetAt(HEALTH, 0);
    GetAt(HEALTH, 1);
    GetAt(HEALTH, 2);
    GetAt(HEALTH, 3);
    GetAt(HEALTH, 4);
  }

  lemma ProviderReads()
    ensures Get(PROVIDER, "id") == Some(Text("local-ollama"))
    ensures Get(PROVIDER, "display_name") == Some(Text("Local Ollama"))
    ensures Get(PROVIDER, "adapter") == Some(Text("openai_chat"))
    ensures Get(PROVIDER, "base_url") == Some(Text(BASE_URL))
  {
    GetAt(PROVIDER, 0);
    GetAt(PROVIDER, 1);
    GetAt(PROVIDER, 2);
    GetAt(PROVIDER, 3);
  }

  lemma ProviderSwitchesRead()
    ensures Get(PROVIDER, "enabled") == Some(Bool(true))
    ensures Get(PROVIDER, "required") == Some(Bool(false))
    ensures Get(PROVIDER, "max_concurrency") == Some(Number(4))
  {
    GetAt(PROVIDER, 5);
    GetAt(PROVIDER, 6);
    GetAt(PROVIDER, 7);
  }

  lemma ProviderSectionsRead()
    ensures Get(PROVIDER, "auth") == Some(Object(NO_AUTH))
    ensures Get(PROVIDER, "timeouts") == Some(Object(TIMEOUTS))
    ensures Get(PROVIDER, "capabilities") == Some(Object(CAPABILITIES))
    ensures Get(PROVIDER, "health") == Some(Object(HEALTH))
  {
    GetAt(PROVIDER, 4);
    GetAt(PROVIDER, 8);
    GetAt(PROVIDER, 9);
    GetAt(PROVIDER, 10);
  }

  lemma FallbackReads()
    ensures Get(FALLBACK, "enabled") == Some(Bool(false))
    ensures Get(FALLBACK, "max_attempts") == Some(Number(1))
    ensures Get(FALLBACK, "retryable") == Some(List([]))
  {
    GetAt(FALLBACK, 0);
    GetAt(FALLBACK, 1);
    GetAt(FALLBACK, 2);
  }

  lemma TargetReads()
    ensures Get(TARGET, "provider_id") == Some(Text("local-ollama"))
    ensures Get(TARGET, "upstream_model") == Some(Text("qwen-example"))
    ensures Get(TARGET, "priority") == Some(Number(10))
    ensures Get(TARGET, "weight") == Some(Number(1))
  {
    GetAt(TARGET, 0);
    GetAt(TARGET, 1);
    GetAt(TARGET, 2);
    GetAt(TARGET, 3);
  }

  lemma RouteReads()
    ensures Get(ROUTE, "id") == Some(Text("general-route"))
    ensures Get(ROUTE, "model_alias") == Some(Text("general"))
    ensures Get(ROUTE, "enabled") == Some(Bool(true))
    ensures Get(ROUTE, "endpoint_families") == Some(List([Text("chat_completions")]))
    ensures Get(ROUTE, "policy") == Some(Text("priority"))
    ensures Get(ROUTE, "fallback") == Some(Object(FALLBACK))
    ensures Get(ROUTE, "targets") == Some(List([Object(TARGET)]))
  {
    GetAt(ROUTE, 0);
    GetAt(ROUTE, 1);
    GetAt(ROUTE, 2);
    GetAt(ROUTE, 3);
    GetAt(ROUTE, 4);
    GetAt(ROUTE, 5);
    GetAt(ROUTE, 6);
  }

  lemma SettingsRead(version: Json)
    ensures Get(Example(version), "schema_version") == Some(version)
    ensures Get(Example(version), "listener") == Some(Object(LISTENER))
    ensures Get(Example(version), "control") == Some(Object(CONTROL))
    ensures Get(Example(version), "storage") == Some(Object(STORAGE))
    ensures Get(Example(version), "logging") == Some(Object(LOGGING))
    ensures Get(Example(version), "limits") == Some(Object(LIMITS))
  {
    var node := Example(version);
    GetAt(node, 0);
    GetAt(node, 1);
    GetAt(node, 2);
    GetAt(node, 3);
    GetAt(node, 4);
    GetAt(node, 5);
  }

  lemma TablesRead(version: Json)
    ensures Get(Example(version), "providers") == Some(List([Object(PROVIDER)]))
    ensures Get(Example(version), "routes") == Some(List([Object(ROUTE)]))
    ensures Get(Example(version), "mcp_servers") == Some(List([]))
  {
    var node := Example(version);
    GetAt(node, 6);
    GetAt(node, 7);
    GetAt(node, 8);
  }

  // --- its settings -------------------------------------------------------------------------

  lemma NoAuthFits()
    ensures AuthOk(Object(NO_AUTH))
  {
    NoAuthReads();
  }

  lemma ListenerFits()
    ensures ListenerOk(Object(LISTENER))
  {
    ListenerReads();
    NoAuthFits();
  }

  lemma SuffixFits(s: string)
    requires s in {SOCKET, DATABASE}
    ensures Language.Undotted(s) && forall i :: 0 <= i < |s| ==> Path.IsLiteral(s[i])
  {
  }

  lemma SocketPathFits()
    ensures PathOk(Text(SOCKET_PATH))
  {
    SuffixFits(SOCKET);
    Language.ReferenceThen("XDG_RUNTIME_DIR", SOCKET);
  }

  lemma DatabasePathFits()
    ensures PathOk(Text(DATABASE_PATH))
  {
    SuffixFits(DATABASE);
    Language.ReferenceThen("XDG_STATE_HOME", DATABASE);
  }

  lemma ControlFits()
    ensures ControlOk(Object(CONTROL))
  {
    ControlReads();
    SocketPathFits();
  }

  lemma StorageFits()
    ensures StorageOk(Object(STORAGE))
  {
    StorageReads();
    DatabasePathFits();
  }

  lemma AuthorizationFits()
    ensures HeaderText(Text("authorization")) && HeaderText(Text("proxy-authorization"))
  {
    HeaderIff("authorization");
    HeaderIff("proxy-authorization");
  }

  lemma CookieFits()
    ensures HeaderText(Text("cookie")) && HeaderText(Text("set-cookie"))
  {
    HeaderIff("cookie");
    HeaderIff("set-cookie");
  }

  lemma RedactedFit()
    ensures DistinctTexts([Text("authorization"), Text("proxy-authorization"), Text("cookie"), Text("set-cookie")], HeaderText)
  {
    AuthorizationFits();
    CookieFits();
    FourDistinct("authorization", "proxy-authorization", "cookie", "set-cookie", HeaderText);
  }

  lemma FourDistinct(a: string, b: string, c: string, d: string, fits: Json -> bool)
    requires fits(Text(a)) && fits(Text(b)) && fits(Text(c)) && fits(Text(d))
    requires |{|a|, |b|, |c|, |d|}| == 4
    ensures DistinctTexts([Text(a), Text(b), Text(c), Text(d)], fits)
  {
  }

  lemma LoggingFits()
    ensures LoggingOk(Object(LOGGING))
  {
    LoggingReads();
    RedactedFit();
    assert "stderr"[0] == 's' && "file"[0] == 'f';
  }

  lemma LimitsFit()
    ensures LimitsOk(Object(LIMITS))
  {
    LimitsReads();
  }

  // --- its provider and its route --------------------------------------------------------------

  const LOCAL := Url.Url(false, Url.Plain("127.0.0.1"), true, "11434", "/v1")

  lemma UrlIsRendered()
    ensures LOCAL.Render() == BASE_URL
  {
    assert LOCAL.Authority() == "127.0.0.1:11434";
  }

  lemma UrlIsValid()
    ensures LOCAL.Valid()
  {
  }

  lemma UrlPasses(parse: Url.AddressParser)
    requires parse("127.0.0.1") == Url.V4(0x7F00_0001)
    ensures Url.Judge(Url.OriginOf(BASE_URL), false, parse).Permitted?
  {
    UrlIsRendered();
    UrlIsValid();
    Url.ExtractionInvertsRendering(LOCAL);
  }

  lemma UrlFits(p: Node, parse: Url.AddressParser)
    requires parse("127.0.0.1") == Url.V4(0x7F00_0001)
    requires Get(p, "base_url") == Some(Text(BASE_URL)) && Get(p, "allow_insecure_private_http").None?
    ensures UrlOk(p, "base_url", parse)
  {
    UrlPasses(parse);
    assert |BASE_URL| == 25;
  }

  lemma TimeoutsFit()
    ensures TimeoutsOk(Object(TIMEOUTS))
  {
    TimeoutsReads();
  }

  lemma CapabilitiesFit()
    ensures CapabilitiesOk(Object(CAPABILITIES))
  {
    CapabilitiesReads();
  }

  lemma HealthFits()
    ensures HealthOk(Object(HEALTH))
  {
    HealthReads();
  }

  lemma ProviderNestedFits()
    ensures ProviderNestedOk(PROVIDER)
  {
    ProviderSectionsRead();
    NoAuthFits();
    TimeoutsFit();
    CapabilitiesFit();
    HealthFits();
  }

  lemma ProviderPlainFits(parse: Url.AddressParser)
    requires parse("127.0.0.1") == Url.V4(0x7F00_0001)
    ensures ProviderPlainOk(PROVIDER, parse)
  {
    ProviderReads();
    ProviderSwitchesRead();
    GetMissing(PROVIDER, "allow_insecure_private_http");
    UrlFits(PROVIDER, parse);
  }

  lemma ProviderIdFits()
    ensures IdText(Text("local-ollama"))
  {
    IdIff("local-ollama");
  }

  lemma ProviderKeysFit()
    ensures OnlyKeys(PROVIDER, {"id", "display_name", "adapter", "base_url", "auth", "enabled", "required", "max_concurrency", "timeouts",
                                "capabilities", "health", "allow_insecure_private_http"})
  {
  }

  lemma ProviderIsNamed()
    ensures IdText(Value(PROVIDER, "id"))
  {
    ProviderReads();
    ProviderIdFits();
  }

  lemma ProviderFits(parse: Url.AddressParser)
    requires parse("127.0.0.1") == Url.V4(0x7F00_0001)
    ensures ProviderOk(Object(PROVIDER), parse)
  {
    ProviderKeysFit();
    ProviderIsNamed();
    ProviderPlainFits(parse);
    ProviderNestedFits();
    ProviderAssembles(PROVIDER, parse);
  }

  lemma ProviderAssembles(p: Node, parse: Url.AddressParser)
    requires OnlyKeys(p, {"id", "display_name", "adapter", "base_url", "auth", "enabled", "required", "max_concurrency", "timeouts",
                          "capabilities", "health", "allow_insecure_private_http"})
    requires IdText(Value(p, "id")) && ProviderPlainOk(p, parse) && ProviderNestedOk(p)
    ensures ProviderOk(Object(p), parse)
  {
  }

  lemma TargetFits()
    ensures TargetOk(Object(TARGET), [Object(PROVIDER)])
  {
    TargetReads();
    ProviderReads();
    ProviderIdFits();
    var providers := [Object(PROVIDER)];
    assert Names(Object(TARGET), providers[0]);
  }

  lemma FallbackFits()
    ensures FallbackOk(Object(FALLBACK), 1)
  {
    FallbackReads();
  }

  lemma RouteNamesFit()
    ensures IdText(Text("general-route")) && AliasText(Text("general"))
  {
    IdIff("general-route");
    AliasIff("general");
  }

  lemma FamiliesFit()
    ensures FamiliesOk(ROUTE) && Text("responses") !in Items(ROUTE, "endpoint_families")
  {
    RouteReads();
    assert Items(ROUTE, "endpoint_families") == [Text("chat_completions")];
    assert "responses"[0] == 'r' && "chat_completions"[0] == 'c';
  }

  lemma TargetsFit()
    ensures TargetsOk(ROUTE, [Object(PROVIDER)]) && |Items(ROUTE, "targets")| == 1
  {
    RouteReads();
    TargetFits();
    assert Items(ROUTE, "targets") == [Object(TARGET)];
  }

  lemma RouteFits()
    ensures RouteOk(Object(ROUTE), [Object(PROVIDER)])
  {
    RouteReads();
    RouteNamesFit();
    FamiliesFit();
    TargetsFit();
    FallbackFits();
  }

  // --- no credentials in it ------------------------------------------------------------------

  /** The length, first and last letter of every credential key. */
  const SHAPES: set<(nat, char, char)> :=
    {(7, 'a', 'y'), (6, 'a', 'y'), (6, 's', 't'), (8, 'p', 'd'), (5, 't', 'n'), (13, 'a', 'n'), (11, 'p', 'y'), (10, 'c', 'l'),
     (11, 'c', 's'), (10, 'p', 'e'), (6, 'b', 'r')}

  function Shape(key: string): (nat, char, char)
    requires key != ""
  {
    (|key|, LowerChar(key[0]), LowerChar(key[|key| - 1]))
  }

  lemma CredentialShape(key: string)
    requires Sweep.IsCredential(key)
    ensures key != "" && Shape(key) in SHAPES
  {
    var low := Lower(key);
    assert |low| == |key|;
    assert (|low|, low[0], low[|low| - 1]) in SHAPES;
    assert low[0] == LowerChar(key[0]);
  }

  /** No key at any depth has the shape of a credential. */
  predicate Harmless(node: Json)
    decreases node
  {
    forall i :: 0 <= i < Sweep.Kids(node) ==>
      && Harmless(Sweep.Kid(node, i))
      && (node.Object? ==> Innocuous(node.fields[i].key))
  }

  predicate Innocuous(key: string) {
    key == "" || Shape(key) !in SHAPES
  }

  lemma {:induction false} HarmlessIsSwept(node: Json, i: nat, at: Pointer)
    requires Harmless(node)
    ensures Sweep.Sweep(node, i, at).None?
    decreases node, Sweep.Kids(node) - i
  {
    if i < Sweep.Kids(node) {
      if Sweep.FlaggedAt(node, i) {
        CredentialShape(node.fields[i].key);
      }
      HarmlessIsSwept(Sweep.Kid(node, i), 0, at + [Sweep.SegmentAt(node, i)]);
      HarmlessIsSwept(node, i + 1, at);
    }
  }

  predicate Plain(v: Json) {
    Sweep.Kids(v) == 0
  }

  lemma ObjectIsHarmless(node: Node)
    requires forall i :: 0 <= i < |node| ==> Innocuous(node[i].key) && Harmless(node[i].value)
    ensures Harmless(Object(node))
  {
  }

  lemma ListIsHarmless(items: seq<Json>)
    requires forall i :: 0 <= i < |items| ==> Plain(items[i]) || Harmless(items[i])
    ensures Harmless(List(items))
  {
    forall i | 0 <= i < |items|
      ensures Harmless(items[i])
    {
      if Plain(items[i]) {
        PlainIsHarmless(items[i]);
      }
    }
  }

  lemma PlainIsHarmless(v: Json)
    requires Plain(v)
    ensures Harmless(v)
  {
  }

  lemma NoAuthIsHarmless()
    ensures Harmless(Object(NO_AUTH))
  {
    forall i | 0 <= i < |NO_AUTH|
      ensures Innocuous(NO_AUTH[i].key) && Harmless(NO_AUTH[i].value)
    {
      if Plain(NO_AUTH[i].value) {
        PlainIsHarmless(NO_AUTH[i].value);
      }
    }
    ObjectIsHarmless(NO_AUTH);
  }

  lemma ListenerIsHarmless()
    ensures Harmless(Object(LISTENER))
  {
    NoAuthIsHarmless();
    forall i | 0 <= i < |LISTENER|
      ensures Innocuous(LISTENER[i].key) && Harmless(LISTENER[i].value)
    {
      if Plain(LISTENER[i].value) {
        PlainIsHarmless(LISTENER[i].value);
      }
    }
    ObjectIsHarmless(LISTENER);
  }

  lemma ControlIsHarmless()
    ensures Harmless(Object(CONTROL))
  {
    forall i | 0 <= i < |CONTROL|
      ensures Innocuous(CONTROL[i].key) && Harmless(CONTROL[i].value)
    {
      if Plain(CONTROL[i].value) {
        PlainIsHarmless(CONTROL[i].value);
      }
    }
    ObjectIsHarmless(CONTROL);
  }

  lemma StorageIsHarmless()
    ensures Harmless(Object(STORAGE))
  {
    forall i | 0 <= i < |STORAGE|
      ensures Innocuous(STORAGE[i].key) && Harmless(STORAGE[i].value)
    {
      if Plain(STORAGE[i].value) {
        PlainIsHarmless(STORAGE[i].value);
      }
    }
    ObjectIsHarmless(STORAGE);
  }

  lemma LoggingIsHarmless()
    ensures Harmless(Object(LOGGING))
  {
    var redacted := [Text("authorization"), Text("proxy-authorization"), Text("cookie"), Text("set-cookie")];
    ListIsHarmless(redacted);
    forall i | 0 <= i < |LOGGING|
      ensures Innocuous(LOGGING[i].key) && Harmless(LOGGING[i].value)
    {
      if Plain(LOGGING[i].value) {
        PlainIsHarmless(LOGGING[i].value);
      }
    }
    ObjectIsHarmless(LOGGING);
  }

  lemma LimitsIsHarmless()
    ensures Harmless(Object(LIMITS))
  {
    forall i | 0 <= i < |LIMITS|
      ensures Innocuous(LIMITS[i].key) && Harmless(LIMITS[i].value)
    {
      if Plain(LIMITS[i].value) {
        PlainIsHarmless(LIMITS[i].value);
      }
    }
    ObjectIsHarmless(LIMITS);
  }

  lemma TimeoutsIsHarmless()
    ensures Harmless(Object(TIMEOUTS))
  {
    forall i | 0 <= i < |TIMEOUTS|
      ensures Innocuous(TIMEOUTS[i].key) && Harmless(TIMEOUTS[i].value)
    {
      if Plain(TIMEOUTS[i].value) {
        PlainIsHarmless(TIMEOUTS[i].value);
      }
    }
    ObjectIsHarmless(TIMEOUTS);
  }

  lemma CapabilitiesIsHarmless()
    ensures Harmless(Object(CAPABILITIES))
  {
    forall i | 0 <= i < |CAPABILITIES|
      ensures Innocuous(CAPABILITIES[i].key) && Harmless(CAPABILITIES[i].value)
    {
      if Plain(CAPABILITIES[i].value) {
        PlainIsHarmless(CAPABILITIES[i].value);
      }
    }
    ObjectIsHarmless(CAPABILITIES);
  }

  lemma HealthIsHarmless()
    ensures Harmless(Object(HEALTH))
  {
    forall i | 0 <= i < |HEALTH|
      ensures Innocuous(HEALTH[i].key) && Harmless(HEALTH[i].value)
    {
      if Plain(HEALTH[i].value) {
        PlainIsHarmless(HEALTH[i].value);
      }
    }
    ObjectIsHarmless(HEALTH);
  }

  lemma ProviderIsHarmless()
    ensures Harmless(Object(PROVIDER))
  {
    NoAuthIsHarmless();
    TimeoutsIsHarmless();
    CapabilitiesIsHarmless();
    HealthIsHarmless();
    forall i | 0 <= i < |PROVIDER|
      ensures Innocuous(PROVIDER[i].key) && Harmless(PROVIDER[i].value)
    {
      if Plain(PROVIDER[i].value) {
        PlainIsHarmless(PROVIDER[i].value);
      }
    }
    ObjectIsHarmless(PROVIDER);
  }

  lemma FallbackIsHarmless()
    ensures Harmless(Object(FALLBACK))
  {
    forall i | 0 <= i < |FALLBACK|
      ensures Innocuous(FALLBACK[i].key) && Harmless(FALLBACK[i].value)
    {
      if Plain(FALLBACK[i].value) {
        PlainIsHarmless(FALLBACK[i].value);
      }
    }
    ObjectIsHarmless(FALLBACK);
  }

  lemma TargetIsHarmless()
    ensures Harmless(Object(TARGET))
  {
    forall i | 0 <= i < |TARGET|
      ensures Innocuous(TARGET[i].key) && Harmless(TARGET[i].value)
    {
      if Plain(TARGET[i].value) {
        PlainIsHarmless(TARGET[i].value);
      }
    }
    ObjectIsHarmless(TARGET);
  }

  lemma RouteIsHarmless()
    ensures Harmless(Object(ROUTE))
  {
    FallbackIsHarmless();
    TargetIsHarmless();
    PlainIsHarmless(Text("chat_completions"));
    ListIsHarmless([Text("chat_completions")]);
    ListIsHarmless([Object(TARGET)]);
    forall i | 0 <= i < |ROUTE|
      ensures Innocuous(ROUTE[i].key) && Harmless(ROUTE[i].value)
    {
      if Plain(ROUTE[i].value) {
        PlainIsHarmless(ROUTE[i].value);
      }
    }
    ObjectIsHarmless(ROUTE);
  }

  lemma ExampleIsHarmless(version: Json)
    requires Plain(version)
    ensures Harmless(Object(Example(version)))
  {
    var node := Example(version);
    ListenerIsHarmless();
    ControlIsHarmless();
    StorageIsHarmless();
    LoggingIsHarmless();
    LimitsIsHarmless();
    ProviderIsHarmless();
    RouteIsHarmless();
    ListIsHarmless([Object(PROVIDER)]);
    ListIsHarmless([Object(ROUTE)]);
    forall i | 0 <= i < |node|
      ensures Innocuous(node[i].key) && Harmless(node[i].value)
    {
      if Plain(node[i].value) {
        PlainIsHarmless(node[i].value);
      }
    }
    ObjectIsHarmless(node);
  }

  // --- it is accepted ------------------------------------------------------------------------------

  lemma RootFits(version: Json)
    requires version in {Number(1), Fraction(1.0), Bool(true)}
    ensures RootOk(Object(Example(version)))
  {
    var document := Object(Example(version));
    ExampleIsHarmless(version);
    HarmlessIsSwept(document, 0, []);
    Sweep.SweepFindsFirst(document);
    SettingsRead(version);
  }

  lemma SettingsFit(version: Json)
    ensures SettingsOk(Example(version))
  {
    SettingsRead(version);
    ListenerFits();
    ControlFits();
    StorageFits();
    LoggingFits();
    LimitsFit();
  }

  lemma OneProvider(provider: Json, parse: Url.AddressParser)
    requires ProviderOk(provider, parse)
    ensures ProvidersOk([provider], parse)
  {
  }

  lemma OneRoute(route: Json, providers: seq<Json>)
    requires RouteOk(route, providers)
    ensures RoutesOk([route], providers)
  {
  }

  lemma TheseTables(root: Node, providers: seq<Json>, routes: seq<Json>, parse: Url.AddressParser)
    requires Value(root, "providers") == List(providers) && Value(root, "routes") == List(routes) && Value(root, "mcp_servers") == List([])
    requires |providers| == |routes| == 1 && ProvidersOk(providers, parse) && RoutesOk(routes, providers)
    ensures TablesOk(root, parse)
  {
    assert Items(root, "providers") == providers && Items(root, "routes") == routes;
  }

  lemma TablesFit(version: Json, parse: Url.AddressParser)
    requires parse("127.0.0.1") == Url.V4(0x7F00_0001)
    ensures TablesOk(Example(version), parse)
  {
    TablesRead(version);
    ProviderFits(parse);
    RouteFits();
    OneProvider(Object(PROVIDER), parse);
    OneRoute(Object(ROUTE), [Object(PROVIDER)]);
    TheseTables(Example(version), [Object(PROVIDER)], [Object(ROUTE)], parse);
  }

  /** The document is accepted, and as much with version `1.0` or `true` as with `1`, by any
      reading of addresses that knows the loopback. */
  lemma ExampleIsAccepted(version: Json, parse: Url.AddressParser)
    requires version in {Number(1), Fraction(1.0), Bool(true)} && parse("127.0.0.1") == Url.V4(0x7F00_0001)
    ensures Validated(Object(Example(version)), parse).Ok?
  {
    RootFits(version);
    SettingsFit(version);
    TablesFit(version, parse);
    ValidatedIff(Object(Example(version)), parse);
  }
}
