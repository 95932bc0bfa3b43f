/** `validate` (tests/config_corpus.py): the reference configuration validator. Every
    check is made in the source's order, so a rejection carries the pointer and rule
    of the first rule the document breaks. */
module ConfigValidator {
  import opened Common
  import opened Json
  import Sweep = CredentialSweep
  import Path = PathGrammar
  import Url = UrlAuthority

  datatype Result<+T> = Ok(value: T) | Reject(at: Pointer, rule: string) {
    predicate IsFailure() { Reject? }
    function PropagateFailure<U>(): Result<U>
      requires Reject?
    {
      Reject(at, rule)
    }
    function Extract(): T
      requires Ok?
    {
      value
    }
  }

  const WRONG_TYPE := "value has the wrong JSON type"
  const OUT_OF_RANGE := "value is outside the permitted range"
  const NOT_A_CHOICE := "value is not one of the permitted choices"
  const DUPLICATE := "duplicate entry"
  const BAD_ID := "identifier does not match the permitted pattern"
  const ID_IN_USE := "identifier is already used by another entry"
  const BAD_ENV := "environment variable name is not permitted"
  const NO_NUL := "embedded NUL is not permitted"

  // --- patterns -----------------------------------------------------------------------

  predicate IsLower(c: char) { 'a' <= c <= 'z' }
  predicate Upper(c: char) { 'A' <= c <= 'Z' }
  predicate Digit(c: char) { '0' <= c <= '9' }

  predicate IsId(s: string) {
    && 1 <= |s| <= 64 && (IsLower(s[0]) || Digit(s[0]))
    && forall i :: 0 < i < |s| ==> IsLower(s[i]) || Digit(s[i]) || s[i] in "._-"
  }

  predicate IsEnv(s: string) {
    && 1 <= |s| <= 128 && (Upper(s[0]) || s[0] == '_')
    && forall i :: 0 < i < |s| ==> Upper(s[i]) || Digit(s[i]) || s[i] == '_'
  }

  predicate IsAlias(s: string) {
    && 1 <= |s| <= 128 && (IsLower(s[0]) || Upper(s[0]) || Digit(s[0]))
    && forall i :: 0 < i < |s| ==> IsLower(s[i]) || Upper(s[i]) || Digit(s[i]) || s[i] in "._:/-"
  }

  predicate IsHeader(s: string) {
    1 <= |s| <= 64 && forall i :: 0 <= i < |s| ==> IsLower(s[i]) || Upper(s[i]) || Digit(s[i]) || s[i] == '-'
  }

  // --- typed accessors --------------------------------------------------------------------

  type Node = seq<Field>

  function Get(node: Node, key: string): Option<Json> {
    if node == [] then None
    else if node[0].key == key then Some(node[0].value)
    else Get(node[1..], key)
  }

  /** The object under `key`, if that is what is there. */
  function Section(node: Node, key: string): Node {
    match Get(node, key)
    case Some(Object(fields)) => fields
    case _ => []
  }

  /** The list under `key`, if that is what is there. */
  function Items(node: Node, key: string): seq<Json> {
    match Get(node, key)
    case Some(List(items)) => items
    case _ => []
  }

  function AsObject(value: Json, at: Pointer): Result<Node> {
    if value.Object? then Ok(value.fields) else Reject(at, "value must be a JSON object")
  }

  function Keys(node: Node, allowed: set<string>, at: Pointer): Result<()> {
    if node == [] then Ok(())
    else if node[0].key !in allowed then Reject(at + [Key(node[0].key)], "unknown key is not permitted here")
    else Keys(node[1..], allowed, at)
  }

  function Req(node: Node, key: string, at: Pointer): Result<Json> {
    match Get(node, key)
    case None => Reject(at + [Key(key)], "required key is absent")
    case Some(v) => Ok(v)
  }

  function Int(node: Node, key: string, low: int, high: int, at: Pointer): (r: Result<int>)
    ensures r.Ok? ==> low <= r.value <= high && Get(node, key) == Some(Number(r.value))
  {
    var v :- Req(node, key, at);
    if !v.Number? then Reject(at + [Key(key)], WRONG_TYPE)
    else if !(low <= v.n <= high) then Reject(at + [Key(key)], OUT_OF_RANGE)
    else Ok(v.n)
  }

  function Str(node: Node, key: string, at: Pointer): (r: Result<string>)
    ensures r.Ok? ==> Get(node, key) == Some(Text(r.value))
  {
    var v :- Req(node, key, at);
    if v.Text? then Ok(v.s) else Reject(at + [Key(key)], WRONG_TYPE)
  }

  function Boolean(node: Node, key: string, at: Pointer): (r: Result<bool>)
    ensures r.Ok? ==> Get(node, key) == Some(Bool(r.value))
  {
    var v :- Req(node, key, at);
    if v.Bool? then Ok(v.b) else Reject(at + [Key(key)], WRONG_TYPE)
  }

  function Enum(node: Node, key: string, choices: set<string>, at: Pointer): (r: Result<string>)
    ensures r.Ok? ==> r.value in choices && Get(node, key) == Some(Text(r.value))
  {
    var v :- Str(node, key, at);
    if v in choices then Ok(v) else Reject(at + [Key(key)], NOT_A_CHOICE)
  }

  function Array(node: Node, key: string, low: int, high: int, at: Pointer): (r: Result<seq<Json>>)
    ensures r.Ok? ==> low <= |r.value| <= high && Get(node, key) == Some(List(r.value))
  {
    var v :- Req(node, key, at);
    if !v.List? then Reject(at + [Key(key)], WRONG_TYPE)
    else if !(low <= |v.items| <= high) then Reject(at + [Key(key)], OUT_OF_RANGE)
    else Ok(v.items)
  }

  function Need(condition: bool, at: Pointer, rule: string): (r: Result<()>)
    ensures r.Ok? <==> condition
  {
    if condition then Ok(()) else Reject(at, rule)
  }

  // --- lists of distinct strings ---------------------------------------------------------------

  /** Items from the `i`-th on must be strings satisfying `ok`, none seen before. */
  function DistinctFrom(items: seq<Json>, ok: string -> bool, rule: string, at: Pointer, i: nat, seen: set<string>): Result<set<string>>
    requires i <= |items|
    decreases |items| - i
  {
    if i == |items| then Ok(seen)
    else if !items[i].Text? || !ok(items[i].s) then Reject(at + [Index(i)], rule)
    else if items[i].s in seen then Reject(at + [Index(i)], DUPLICATE)
    else DistinctFrom(items, ok, rule, at, i + 1, seen + {items[i].s})
  }

  /** The loops over `endpoint_families`, `retryable`, `redact_headers`, `env_allow`
      and `legacy`. */
  method CheckDistinct(items: seq<Json>, ok: string -> bool, rule: string, at: Pointer) returns (r: Result<set<string>>)
    ensures r == DistinctFrom(items, ok, rule, at, 0, {})
  {
    var seen: set<string> := {};
    for i := 0 to |items|
      invariant DistinctFrom(items, ok, rule, at, 0, {}) == DistinctFrom(items, ok, rule, at, i, seen)
    {
      if !items[i].Text? || !ok(items[i].s) {
        return Reject(at + [Index(i)], rule);
      }
      if items[i].s in seen {
        return Reject(at + [Index(i)], DUPLICATE);
      }
      seen := seen + {items[i].s};
    }
    return Ok(seen);
  }

  ghost predicate AllDistinct(items: seq<Json>, ok: string -> bool, i: nat, seen: set<string>) {
    && (forall k :: i <= k < |items| ==> items[k].Text? && ok(items[k].s) && items[k].s !in seen)
    && (forall j, k :: i <= j < k < |items| && items[j].Text? && items[k].Text? ==> items[j].s != items[k].s)
  }

  lemma {:induction false} DistinctMeans(items: seq<Json>, ok: string -> bool, rule: string, at: Pointer, i: nat, seen: set<string>)
    requires i <= |items|
    ensures var r := DistinctFrom(items, ok, rule, at, i, seen);
            && (r.Ok? <==> AllDistinct(items, ok, i, seen))
            && (r.Ok? ==> forall s :: s in r.value <==> s in seen || exists k :: i <= k < |items| && items[k] == Text(s))
    decreases |items| - i
  {
    if i < |items| && items[i].Text? && ok(items[i].s) && items[i].s !in seen {
      DistinctMeans(items, ok, rule, at, i + 1, seen + {items[i].s});
    }
  }

  // --- sections --------------------------------------------------------------------------------

  function CheckAuth(node: Json, at: Pointer): (r: Result<string>)
    ensures r.Ok? ==> node.Object? && Get(node.fields, "type") == Some(Text(r.value))
  {
    var auth :- AsObject(node, at);
    var kind :- Enum(auth, "type", {"none", "bearer_env", "header_env"}, at);
    if kind == "none" then
      var _ :- Keys(auth, {"type"}, at);
      Ok(kind)
    else if kind == "bearer_env" then
      var _ :- Keys(auth, {"type", "env"}, at);
      var env :- Str(auth, "env", at);
      var _ :- Need(IsEnv(env), at + [Key("env")], BAD_ENV);
      Ok(kind)
    else
      var _ :- Keys(auth, {"type", "header", "value"}, at);
      var header :- Str(auth, "header", at);
      var _ :- Need(IsHeader(header), at + [Key("header")], "header name is not permitted");
      var value :- Req(auth, "value", at);
      var _ :- CheckReference(value, at + [Key("value")], at + [Key("value"), Key("name")]);
      Ok(kind)
  }

  function CheckAuthField(node: Node, at: Pointer): (r: Result<string>)
    ensures r.Ok? ==> Get(Section(node, "auth"), "type") == Some(Text(r.value))
  {
    var auth :- Req(node, "auth", at);
    CheckAuth(auth, at + [Key("auth")])
  }

  /** `{"source": "env", "name": ...}`. */
  function CheckReference(value: Json, at: Pointer, nameAt: Pointer): Result<string> {
    var ref :- AsObject(value, at);
    var _ :- Keys(ref, {"source", "name"}, at);
    var _ :- Enum(ref, "source", {"env"}, at);
    var name :- Str(ref, "name", at);
    var _ :- Need(IsEnv(name), nameAt, BAD_ENV);
    Ok(name)
  }

  function CheckTimeouts(node: Json, at: Pointer): Result<()> {
    var obj :- AsObject(node, at);
    var _ :- Keys(obj, {"connect_ms", "request_ms", "idle_stream_ms"}, at);
    var _ :- Int(obj, "connect_ms", 100, 600_000, at);
    var _ :- Int(obj, "request_ms", 1000, 86_400_000, at);
    var _ :- Int(obj, "idle_stream_ms", 1000, 3_600_000, at);
    Ok(())
  }

  function CheckPathField(node: Node, key: string, at: Pointer): (r: Result<string>)
    ensures r.Ok? ==> Path.Check(r.value) == Path.Accepted && Get(node, key) == Some(Text(r.value))
  {
    var path :- Str(node, key, at);
    match Path.Check(path)
    case Accepted => Ok(path)
    case ForbiddenExpansion => Reject(at + [Key(key)], "path uses a forbidden expansion")
    case NotAbsolute => Reject(at + [Key(key)], "path is not absolute")
    case Climbs => Reject(at + [Key(key)], "path climbs")
  }

  const LOOPBACK_HOSTS: set<string> := {"127.0.0.1", "::1", "localhost"}

  datatype Listener = Listener(host: string, authType: string)

  function CheckListener(root: Node): (r: Result<Listener>)
    ensures r.Ok? ==> ListenerMatches(Section(root, "listener"), r.value)
  {
    var at := [Key("listener")];
    var value :- Req(root, "listener", []);
    var listener :- AsObject(value, at);
    CheckListenerFields(listener, at)
  }

  function CheckListenerFields(listener: Node, at: Pointer): (r: Result<Listener>)
    ensures r.Ok? ==> ListenerMatches(listener, r.value)
  {
    var _ :- Keys(listener, {"host", "port", "auth", "request_header_max_bytes", "request_body_max_bytes",
                             "idle_timeout_ms", "expose_unavailable_models"}, at);
    var host :- Str(listener, "host", at);
    var _ :- Need(1 <= |host| <= 255, at + [Key("host")], OUT_OF_RANGE);
    var _ :- CheckListenerSizes(listener, at);
    var kind :- CheckAuthField(listener, at);
    var _ :- Need(host in LOOPBACK_HOSTS || kind != "none", at + [Key("auth")],
                  "a non-loopback listener requires an authentication policy");
    Ok(Listener(host, kind))
  }

  function CheckListenerSizes(listener: Node, at: Pointer): Result<bool> {
    var _ :- Int(listener, "port", 1, 65535, at);
    var _ :- Int(listener, "request_header_max_bytes", 4096, 1_048_576, at);
    var _ :- Int(listener, "request_body_max_bytes", 1024, 67_108_864, at);
    var _ :- Int(listener, "idle_timeout_ms", 1000, 3_600_000, at);
    if Get(listener, "expose_unavailable_models").Some? then Boolean(listener, "expose_unavailable_models", at) else Ok(true)
  }

  ghost predicate ListenerMatches(listener: Node, l: Listener) {
    && Get(listener, "host") == Some(Text(l.host))
    && Get(Section(listener, "auth"), "type") == Some(Text(l.authType))
    && (l.host in LOOPBACK_HOSTS || l.authType != "none")
  }

  /** The path field names this path, and the grammar accepts it. */
  ghost predicate PathAt(node: Node, key: string, path: string) {
    Get(node, key) == Some(Text(path)) && Path.Check(path) == Path.Accepted
  }

  function CheckControl(root: Node): (r: Result<string>)
    ensures r.Ok? ==> PathAt(Section(root, "control"), "socket_path", r.value)
  {
    var at := [Key("control")];
    var value :- Req(root, "control", []);
    var control :- AsObject(value, at);
    var _ :- Keys(control, {"socket_path", "mode", "frame_max_bytes"}, at);
    var path :- CheckPathField(control, "socket_path", at);
    var _ :- Enum(control, "mode", {"0600"}, at);
    var _ :- Int(control, "frame_max_bytes", 4096, 4_194_304, at);
    Ok(path)
  }

  function CheckStorage(root: Node): (r: Result<string>)
    ensures r.Ok? ==> PathAt(Section(root, "storage"), "database_path", r.value)
  {
    var at := [Key("storage")];
    var value :- Req(root, "storage", []);
    var storage :- AsObject(value, at);
    var _ :- Keys(storage, {"database_path", "journal_mode", "busy_timeout_ms", "request_metadata_retention_days", "store_payloads"}, at);
    var path :- CheckPathField(storage, "database_path", at);
    var _ :- Enum(storage, "journal_mode", {"wal"}, at);
    var _ :- Int(storage, "busy_timeout_ms", 0, 60_000, at);
    var _ :- Int(storage, "request_metadata_retention_days", 0, 3650, at);
    var _ :- Boolean(storage, "store_payloads", at);
    Ok(path)
  }

  function CheckLogging(root: Node): (r: Result<Option<string>>)
    ensures r.Ok? ==> (r.value.Some? <==> Get(Section(root, "logging"), "destination") == Some(Text("file")))
    ensures r.Ok? && r.value.Some? ==> PathAt(Section(root, "logging"), "file_path", r.value.value)
  {
    var at := [Key("logging")];
    var value :- Req(root, "logging", []);
    var logging :- AsObject(value, at);
    var _ :- Keys(logging, {"level", "format", "destination", "file_path", "include_request_metadata",
                            "include_payloads", "redact_headers"}, at);
    var _ :- Enum(logging, "level", {"trace", "debug", "info", "warn", "error", "fatal"}, at);
    var _ :- Enum(logging, "format", {"jsonl", "text"}, at);
    var destination :- Enum(logging, "destination", {"stderr", "file"}, at);
    var _ :- Boolean(logging, "include_request_metadata", at);
    var _ :- Boolean(logging, "include_payloads", at);
    var _ :- Need(destination != "file" || Get(logging, "file_path").Some?, at + [Key("file_path")],
                  "a file log destination requires file_path");
    var path: Option<string> :- if destination != "file" then Ok(None)
                else match CheckPathField(logging, "file_path", at)
                  case Ok(p) => Ok(Some(p))
                  case Reject(a, rule) => Reject(a, rule);
    var redact :- Array(logging, "redact_headers", 0, 128, at);
    var _ :- DistinctFrom(redact, IsHeader, "header name is not permitted", at + [Key("redact_headers")], 0, {});
    Ok(path)
  }

  function CheckLimits(root: Node): Result<()> {
    var at := [Key("limits")];
    var value :- Req(root, "limits", []);
    var limits :- AsObject(value, at);
    var _ :- Keys(limits, {"max_active_requests", "max_queued_requests", "json_max_depth", "json_string_max_bytes",
                           "sse_event_max_bytes", "mcp_frame_max_bytes", "stderr_line_max_bytes"}, at);
    var _ :- Int(limits, "max_active_requests", 1, 65535, at);
    var _ :- Int(limits, "max_queued_requests", 0, 65535, at);
    var _ :- Int(limits, "json_max_depth", 4, 256, at);
    var _ :- Int(limits, "json_string_max_bytes", 1024, 67_108_864, at);
    var _ :- Int(limits, "sse_event_max_bytes", 1024, 16_777_216, at);
    var _ :- Int(limits, "mcp_frame_max_bytes", 1024, 67_108_864, at);
    var _ :- Int(limits, "stderr_line_max_bytes", 256, 1_048_576, at);
    Ok(())
  }

  // --- providers -----------------------------------------------------------------------------

  datatype Provider = Provider(id: string, capabilities: set<string>, maxConcurrency: int, url: string, allowInsecure: bool)

  const SORTED_CAPABILITIES: seq<string> :=
    ["chat_completions", "json_schema", "responses", "streaming", "tools", "vision"]

  function CapabilitiesFrom(caps: Node, at: Pointer, i: nat, enabled: set<string>): Result<set<string>>
    requires i <= |SORTED_CAPABILITIES|
    decreases |SORTED_CAPABILITIES| - i
  {
    if i == |SORTED_CAPABILITIES| then Ok(enabled)
    else
      var on :- Boolean(caps, SORTED_CAPABILITIES[i], at);
      CapabilitiesFrom(caps, at, i + 1, if on then enabled + {SORTED_CAPABILITIES[i]} else enabled)
  }

  lemma {:induction false} CapabilitiesMean(caps: Node, at: Pointer, i: nat, enabled: set<string>)
    requires i <= |SORTED_CAPABILITIES|
    ensures var r := CapabilitiesFrom(caps, at, i, enabled);
            r.Ok? ==> forall c :: c in r.value <==> c in enabled || (c in SORTED_CAPABILITIES[i..] && Get(caps, c) == Some(Bool(true)))
    decreases |SORTED_CAPABILITIES| - i
  {
    if i < |SORTED_CAPABILITIES| {
      var on := Boolean(caps, SORTED_CAPABILITIES[i], at);
      assert SORTED_CAPABILITIES[i..] == [SORTED_CAPABILITIES[i]] + SORTED_CAPABILITIES[i + 1..];
      if on.Ok? {
        CapabilitiesMean(caps, at, i + 1, if on.value then enabled + {SORTED_CAPABILITIES[i]} else enabled);
      }
    }
  }

  function CheckCapabilities(value: Json, at: Pointer): Result<set<string>> {
    var caps :- AsObject(value, at);
    var _ :- Keys(caps, {"responses", "chat_completions", "streaming", "tools", "vision", "json_schema"}, at);
    CapabilitiesFrom(caps, at, 0, {})
  }

  function CheckHealth(value: Json, at: Pointer): Result<()> {
    var health :- AsObject(value, at);
    var _ :- Keys(health, {"path", "interval_ms", "failure_threshold", "success_threshold", "open_cooldown_ms"}, at);
    var path :- Str(health, "path", at);
    var _ :- Need(path != "" && path[0] == '/' && |path| <= 512, at + [Key("path")], "health path must start with /");
    var _ :- Int(health, "interval_ms", 1000, 3_600_000, at);
    var _ :- Int(health, "failure_threshold", 1, 100, at);
    var _ :- Int(health, "success_threshold", 1, 100, at);
    var _ :- Int(health, "open_cooldown_ms", 1000, 3_600_000, at);
    Ok(())
  }

  /** `node.get("allow_insecure_private_http", False)`, which must be a boolean. */
  function InsecureFlag(node: Node, at: Pointer): Result<bool> {
    match Get(node, "allow_insecure_private_http")
    case None => Ok(false)
    case Some(v) => if v.Bool? then Ok(v.b) else Reject(at + [Key("allow_insecure_private_http")], WRONG_TYPE)
  }

  function UrlField(node: Node, key: string, allowInsecure: bool, at: Pointer, parse: Url.AddressParser): (r: Result<string>)
    ensures r.Ok? ==> Url.Judge(Url.OriginOf(r.value), allowInsecure, parse).Permitted?
    ensures r.Ok? ==> Get(node, key) == Some(Text(r.value))
  {
    var url :- Str(node, key, at);
    var _ :- Need(1 <= |url| <= 2048, at + [Key(key)], OUT_OF_RANGE);
    var _ :- Need(Url.Judge(Url.OriginOf(url), allowInsecure, parse).Permitted?, at + [Key(key)], "URL violates the outbound policy");
    Ok(url)
  }

  /** An identifier field: well formed and not yet taken. */
  function NewId(node: Node, used: seq<string>, at: Pointer): (r: Result<string>)
    ensures r.Ok? ==> IsId(r.value) && r.value !in used && Get(node, "id") == Some(Text(r.value))
  {
    var id :- Str(node, "id", at);
    var _ :- Need(IsId(id), at + [Key("id")], BAD_ID);
    var _ :- Need(id !in used, at + [Key("id")], ID_IN_USE);
    Ok(id)
  }

  const PROVIDER_KEYS: set<string> :=
    {"id", "display_name", "adapter", "base_url", "auth", "enabled", "required", "max_concurrency", "timeouts", "capabilities",
     "health", "allow_insecure_private_http"}

  function CheckProvider(entry: Json, at: Pointer, used: seq<string>, parse: Url.AddressParser): (r: Result<Provider>)
    ensures r.Ok? ==> r.value.id !in used && ProviderMatches(entry, r.value, parse)
  {
    var provider :- AsObject(entry, at);
    var _ :- Keys(provider, PROVIDER_KEYS, at);
    var id :- NewId(provider, used, at);
    CheckProviderBody(provider, id, at, parse)
  }

  /** Everything about a provider except whether its name is already taken. */
  function CheckProviderBody(provider: Node, id: string, at: Pointer, parse: Url.AddressParser): (r: Result<Provider>)
    ensures r.Ok? ==> r.value.id == id && ProviderBodyMatches(provider, r.value, parse)
  {
    var display :- Str(provider, "display_name", at);
    var _ :- Need(1 <= |display| <= 128, at + [Key("display_name")], OUT_OF_RANGE);
    var _ :- Enum(provider, "adapter", {"openai_responses", "openai_chat", "openai_dual"}, at);
    var insecure :- InsecureFlag(provider, at);
    var url :- UrlField(provider, "base_url", insecure, at, parse);
    var _ :- Boolean(provider, "enabled", at);
    var _ :- Boolean(provider, "required", at);
    var ceiling :- Int(provider, "max_concurrency", 1, 4096, at);
    var caps :- CheckProviderRest(provider, at);
    Ok(Provider(id, caps, ceiling, url, insecure))
  }

  /** The nested objects of a provider entry. */
  function CheckProviderRest(provider: Node, at: Pointer): (r: Result<set<string>>)
    ensures r.Ok? ==> forall c :: c in r.value <==> c in SORTED_CAPABILITIES && Advertises(provider, c)
  {
    var auth :- Req(provider, "auth", at);
    var _ :- CheckAuth(auth, at + [Key("auth")]);
    var timeouts :- Req(provider, "timeouts", at);
    var _ :- CheckTimeouts(timeouts, at + [Key("timeouts")]);
    var capsValue :- Req(provider, "capabilities", at);
    var caps :- CheckCapabilities(capsValue, at + [Key("capabilities")]);
    var health :- Req(provider, "health", at);
    var _ :- CheckHealth(health, at + [Key("health")]);
    assert forall c :: c in caps <==> c in SORTED_CAPABILITIES && Get(capsValue.fields, c) == Some(Bool(true)) by {
      CapabilitiesMean(capsValue.fields, at + [Key("capabilities")], 0, {});
      assert SORTED_CAPABILITIES[0..] == SORTED_CAPABILITIES;
    }
    Ok(caps)
  }

  /** What acceptance says about a provider entry and the table row made from it. */
  ghost predicate ProviderMatches(entry: Json, p: Provider, parse: Url.AddressParser) {
    && entry.Object?
    && Get(entry.fields, "id") == Some(Text(p.id)) && IsId(p.id)
    && ProviderBodyMatches(entry.fields, p, parse)
  }

  ghost predicate ProviderBodyMatches(provider: Node, p: Provider, parse: Url.AddressParser) {
    && Get(provider, "max_concurrency") == Some(Number(p.maxConcurrency)) && 1 <= p.maxConcurrency <= 4096
    && Get(provider, "base_url") == Some(Text(p.url))
    && Url.Judge(Url.OriginOf(p.url), p.allowInsecure, parse).Permitted?
    && p.allowInsecure == (Get(provider, "allow_insecure_private_http") == Some(Bool(true)))
    && (forall c :: c in p.capabilities <==> c in SORTED_CAPABILITIES && Advertises(provider, c))
  }

  ghost predicate Advertises(provider: Node, capability: string) {
    && Get(provider, "capabilities").Some? && Get(provider, "capabilities").value.Object?
    && Get(Get(provider, "capabilities").value.fields, capability) == Some(Bool(true))
  }

  function ProviderIds(ps: seq<Provider>): (ids: seq<string>)
    ensures |ids| == |ps| && forall i :: 0 <= i < |ps| ==> ids[i] == ps[i].id
  {
    seq(|ps|, i requires 0 <= i < |ps| => ps[i].id)
  }

  ghost predicate NoRepeats(ids: seq<string>) {
    forall i, j :: 0 <= i < j < |ids| ==> ids[i] != ids[j]
  }

  function ProvidersFrom(items: seq<Json>, table: seq<Provider>, parse: Url.AddressParser): Result<seq<Provider>>
    requires |table| <= |items|
    decreases |items| - |table|
  {
    var i := |table|;
    if i == |items| then Ok(table)
    else
      var p :- CheckProvider(items[i], [Key("providers"), Index(i)], ProviderIds(table), parse);
      ProvidersFrom(items, table + [p], parse)
  }

  /** The provider loop of `validate`. */
  method ValidateProviders(items: seq<Json>, parse: Url.AddressParser) returns (r: Result<seq<Provider>>)
    ensures r == ProvidersFrom(items, [], parse)
  {
    var table: seq<Provider> := [];
    while |table| < |items|
      invariant |table| <= |items|
      invariant ProvidersFrom(items, [], parse) == ProvidersFrom(items, table, parse)
      decreases |items| - |table|
    {
      var p := CheckProvider(items[|table|], [Key("providers"), Index(|table|)], ProviderIds(table), parse);
      if p.Reject? {
        return p.PropagateFailure();
      }
      table := table + [p.value];
    }
    return Ok(table);
  }

  ghost predicate ProviderTable(items: seq<Json>, table: seq<Provider>, parse: Url.AddressParser) {
    && |table| <= |items|
    && (forall i :: 0 <= i < |table| ==> ProviderMatches(items[i], table[i], parse))
    && (forall i, j :: 0 <= i < j < |table| ==> table[i].id != table[j].id)
  }

  lemma {:induction false} ProvidersAccepted(items: seq<Json>, table: seq<Provider>, parse: Url.AddressParser)
    requires ProviderTable(items, table, parse)
    ensures var r := ProvidersFrom(items, table, parse);
            r.Ok? ==> |r.value| == |items| && ProviderTable(items, r.value, parse)
    decreases |items| - |table|
  {
    var i := |table|;
    if i < |items| {
      var p := CheckProvider(items[i], [Key("providers"), Index(i)], ProviderIds(table), parse);
      if p.Ok? {
        forall k | 0 <= k < i
          ensures table[k].id != p.value.id
        {
          assert ProviderIds(table)[k] == table[k].id;
        }
        ProvidersAccepted(items, table + [p.value], parse);
      }
    }
  }

  // --- routes ----------------------------------------------------------------------------------

  /** One target with the provider index it resolved to. */
  datatype Target = Target(providerId: string, resolved: nat)

  datatype Route = Route(id: string, alias: string, families: set<string>, targets: seq<Target>, maxAttempts: int)

  /** `ids.index(id)`. */
  function IndexOf(ids: seq<string>, id: string): (i: nat)
    requires id in ids
    ensures i < |ids| && ids[i] == id
  {
    if ids[0] == id then 0 else 1 + IndexOf(ids[1..], id)
  }

  /** The provider a target names, which must exist. */
  function KnownProvider(target: Node, ids: seq<string>, at: Pointer): (r: Result<string>)
    ensures r.Ok? ==> r.value in ids && Get(target, "provider_id") == Some(Text(r.value))
  {
    var id :- Str(target, "provider_id", at);
    var _ :- Need(IsId(id), at + [Key("provider_id")], BAD_ID);
    var _ :- Need(id in ids, at + [Key("provider_id")], "route target names a provider that does not exist");
    Ok(id)
  }

  function CheckTargetPlain(target: Node, at: Pointer): Result<()> {
    var upstream :- Str(target, "upstream_model", at);
    var _ :- Need(1 <= |upstream| <= 256, at + [Key("upstream_model")], OUT_OF_RANGE);
    var _ :- Int(target, "priority", -2_147_483_648, 2_147_483_647, at);
    var _ :- Int(target, "weight", 1, 1_000_000, at);
    Ok(())
  }

  function CheckTarget(entry: Json, at: Pointer, providers: seq<Provider>): (r: Result<Target>)
    ensures r.Ok? ==> TargetMatches(entry, r.value, providers)
  {
    var ids := ProviderIds(providers);
    var target :- AsObject(entry, at);
    var _ :- Keys(target, {"provider_id", "upstream_model", "priority", "weight"}, at);
    var id :- KnownProvider(target, ids, at);
    var _ :- CheckTargetPlain(target, at);
    Ok(Target(id, IndexOf(ids, id)))
  }

  ghost predicate TargetMatches(entry: Json, t: Target, providers: seq<Provider>) {
    && entry.Object? && Get(entry.fields, "provider_id") == Some(Text(t.providerId))
    && t.resolved < |providers| && providers[t.resolved].id == t.providerId
  }

  function TargetsFrom(items: seq<Json>, at: Pointer, providers: seq<Provider>, done: seq<Target>): Result<seq<Target>>
    requires |done| <= |items|
    decreases |items| - |done|
  {
    var i := |done|;
    if i == |items| then Ok(done)
    else
      var t :- CheckTarget(items[i], at + [Index(i)], providers);
      TargetsFrom(items, at, providers, done + [t])
  }

  /** The target loop of `validate`. */
  method ResolveTargets(items: seq<Json>, at: Pointer, providers: seq<Provider>) returns (r: Result<seq<Target>>)
    ensures r == TargetsFrom(items, at, providers, [])
  {
    var done: seq<Target> := [];
    while |done| < |items|
      invariant |done| <= |items|
      invariant TargetsFrom(items, at, providers, []) == TargetsFrom(items, at, providers, done)
      decreases |items| - |done|
    {
      var t := CheckTarget(items[|done|], at + [Index(|done|)], providers);
      if t.Reject? {
        return t.PropagateFailure();
      }
      done := done + [t.value];
    }
    return Ok(done);
  }

  lemma {:induction false} TargetsAccepted(items: seq<Json>, at: Pointer, providers: seq<Provider>, done: seq<Target>)
    requires |done| <= |items| && forall i :: 0 <= i < |done| ==> TargetMatches(items[i], done[i], providers)
    ensures var r := TargetsFrom(items, at, providers, done);
            r.Ok? ==> |r.value| == |items| && forall i :: 0 <= i < |items| ==> TargetMatches(items[i], r.value[i], providers)
    decreases |items| - |done|
  {
    var i := |done|;
    if i < |items| {
      var t := CheckTarget(items[i], at + [Index(i)], providers);
      if t.Ok? {
        TargetsAccepted(items, at, providers, done + [t.value]);
      }
    }
  }

  predicate IsFamily(s: string) { s in {"responses", "chat_completions"} }

  predicate IsRetryable(s: string) {
    s in {"connect_failed", "dns_failed", "connect_timeout", "http_502", "http_503", "http_504"}
  }

  function CheckFallback(value: Json, at: Pointer, targets: nat): (r: Result<int>)
    ensures r.Ok? ==> 1 <= r.value <= targets && r.value <= 16
    ensures r.Ok? ==> value.Object? && Get(value.fields, "max_attempts") == Some(Number(r.value))
  {
    var fallback :- AsObject(value, at);
    var _ :- Keys(fallback, {"enabled", "max_attempts", "retryable"}, at);
    var _ :- Boolean(fallback, "enabled", at);
    var attempts :- Int(fallback, "max_attempts", 1, 16, at);
    var _ :- Need(attempts <= targets, at + [Key("max_attempts")], "max_attempts exceeds the number of targets");
    var retryable :- Array(fallback, "retryable", 0, 32, at);
    var _ :- DistinctFrom(retryable, IsRetryable, NOT_A_CHOICE, at + [Key("retryable")], 0, {});
    Ok(attempts)
  }

  function CheckFallbackField(route: Node, at: Pointer, targets: nat): (r: Result<int>)
    ensures r.Ok? ==> 1 <= r.value <= targets && Get(Section(route, "fallback"), "max_attempts") == Some(Number(r.value))
  {
    var fallback :- Req(route, "fallback", at);
    CheckFallback(fallback, at + [Key("fallback")], targets)
  }

  predicate SomeAdvertises(targets: seq<Target>, providers: seq<Provider>) {
    exists i :: 0 <= i < |targets| && targets[i].resolved < |providers| && "responses" in providers[targets[i].resolved].capabilities
  }

  ghost predicate TargetsMatch(route: Node, targets: seq<Target>, providers: seq<Provider>) {
    && Get(route, "targets").Some? && Get(route, "targets").value.List?
    && var items := Get(route, "targets").value.items;
    && 1 <= |items| <= 64 && |targets| == |items|
    && (forall i :: 0 <= i < |items| ==> TargetMatches(items[i], targets[i], providers))
  }

  function CheckTargets(route: Node, at: Pointer, providers: seq<Provider>): (r: Result<seq<Target>>)
    ensures r.Ok? ==> TargetsMatch(route, r.value, providers)
  {
    var items :- Array(route, "targets", 1, 64, at);
    TargetsAccepted(items, at + [Key("targets")], providers, []);
    TargetsFrom(items, at + [Key("targets")], providers, [])
  }

  function CheckFamilies(route: Node, at: Pointer): (r: Result<set<string>>)
    ensures r.Ok? ==> FamiliesMatch(route, r.value)
  {
    var items :- Array(route, "endpoint_families", 1, 2, at);
    DistinctMeans(items, IsFamily, NOT_A_CHOICE, at + [Key("endpoint_families")], 0, {});
    DistinctFrom(items, IsFamily, NOT_A_CHOICE, at + [Key("endpoint_families")], 0, {})
  }

  /** Everything about a route except whether its names are already taken. */
  function CheckRouteBody(route: Node, id: string, alias: string, at: Pointer, providers: seq<Provider>): (r: Result<Route>)
    ensures r.Ok? ==> r.value.id == id && r.value.alias == alias && BodyMatches(route, r.value, providers)
  {
    var _ :- Boolean(route, "enabled", at);
    var families :- CheckFamilies(route, at);
    var _ :- Enum(route, "policy", {"priority", "round_robin", "least_latency"}, at);
    var targets :- CheckTargets(route, at, providers);
    var attempts :- CheckFallbackField(route, at, |targets|);
    var _ :- Need("responses" !in families || SomeAdvertises(targets, providers), at + [Key("targets")],
                  "a responses route needs a target that advertises responses");
    Ok(Route(id, alias, families, targets, attempts))
  }

  function NewAlias(route: Node, used: seq<string>, at: Pointer): (r: Result<string>)
    ensures r.Ok? ==> IsAlias(r.value) && r.value !in used && Get(route, "model_alias") == Some(Text(r.value))
  {
    var alias :- Str(route, "model_alias", at);
    var _ :- Need(IsAlias(alias), at + [Key("model_alias")], "model alias does not match the permitted pattern");
    var _ :- Need(alias !in used, at + [Key("model_alias")], "model alias is already used by another route");
    Ok(alias)
  }

  function CheckRoute(entry: Json, at: Pointer, ids: seq<string>, aliases: seq<string>, providers: seq<Provider>): Result<Route> {
    var route :- AsObject(entry, at);
    var _ :- Keys(route, ROUTE_KEYS, at);
    var id :- NewId(route, ids, at);
    var alias :- NewAlias(route, aliases, at);
    CheckRouteBody(route, id, alias, at, providers)
  }

  ghost predicate RouteMatches(entry: Json, r: Route, providers: seq<Provider>) {
    && entry.Object?
    && Get(entry.fields, "id") == Some(Text(r.id)) && IsId(r.id)
    && Get(entry.fields, "model_alias") == Some(Text(r.alias)) && IsAlias(r.alias)
    && BodyMatches(entry.fields, r, providers)
  }

  ghost predicate FamiliesMatch(route: Node, families: set<string>) {
    && 1 <= |Items(route, "endpoint_families")| <= 2
    && forall f :: f in families <==> Text(f) in Items(route, "endpoint_families")
  }

  ghost predicate BodyMatches(route: Node, r: Route, providers: seq<Provider>) {
    && TargetsMatch(route, r.targets, providers)
    && FamiliesMatch(route, r.families)
    && Get(Section(route, "fallback"), "max_attempts") == Some(Number(r.maxAttempts))
    && 1 <= r.maxAttempts <= |r.targets|
    && ("responses" in r.families ==> SomeAdvertises(r.targets, providers))
  }

  const ROUTE_KEYS: set<string> := {"id", "model_alias", "enabled", "endpoint_families", "policy", "fallback", "targets"}

  lemma RouteAccepted(entry: Json, at: Pointer, ids: seq<string>, aliases: seq<string>, providers: seq<Provider>)
    ensures var r := CheckRoute(entry, at, ids, aliases, providers);
            r.Ok? ==> RouteMatches(entry, r.value, providers) && r.value.id !in ids && r.value.alias !in aliases
  {
  }

  /** The names already taken are the only thing a route's verdict depends on besides
      the route itself and the provider table. */
  lemma RouteAlone(entry: Json, at: Pointer, ids: seq<string>, aliases: seq<string>, providers: seq<Provider>)
    ensures var alone := CheckRoute(entry, at, [], [], providers);
            var r := CheckRoute(entry, at, ids, aliases, providers);
            && (r.Ok? <==> alone.Ok? && alone.value.id !in ids && alone.value.alias !in aliases)
            && (r.Ok? ==> r == alone)
  {
    if entry.Object? && Keys(entry.fields, ROUTE_KEYS, at).Ok? {
      var id, alias := Str(entry.fields, "id", at), Str(entry.fields, "model_alias", at);
    }
  }

  function RouteIds(rs: seq<Route>): (ids: seq<string>)
    ensures |ids| == |rs| && forall i :: 0 <= i < |rs| ==> ids[i] == rs[i].id
  {
    seq(|rs|, i requires 0 <= i < |rs| => rs[i].id)
  }

  function RouteAliases(rs: seq<Route>): (aliases: seq<string>)
    ensures |aliases| == |rs| && forall i :: 0 <= i < |rs| ==> aliases[i] == rs[i].alias
  {
    seq(|rs|, i requires 0 <= i < |rs| => rs[i].alias)
  }

  function RoutesFrom(items: seq<Json>, table: seq<Route>, providers: seq<Provider>): Result<seq<Route>>
    requires |table| <= |items|
    decreases |items| - |table|
  {
    var i := |table|;
    if i == |items| then Ok(table)
    else
      var r :- CheckRoute(items[i], [Key("routes"), Index(i)], RouteIds(table), RouteAliases(table), providers);
      RoutesFrom(items, table + [r], providers)
  }

  /** The route loop of `validate`. */
  method ValidateRoutes(items: seq<Json>, providers: seq<Provider>) returns (r: Result<seq<Route>>)
    ensures r == RoutesFrom(items, [], providers)
  {
    var table: seq<Route> := [];
    while |table| < |items|
      invariant |table| <= |items|
      invariant RoutesFrom(items, [], providers) == RoutesFrom(items, table, providers)
      decreases |items| - |table|
    {
      var route := CheckRoute(items[|table|], [Key("routes"), Index(|table|)], RouteIds(table), RouteAliases(table), providers);
      if route.Reject? {
        return route.PropagateFailure();
      }
      table := table + [route.value];
    }
    return Ok(table);
  }

  /** Each route's verdict on its own, with no names taken. */
  function Alone(items: seq<Json>, providers: seq<Provider>): (verdicts: seq<Result<Route>>)
    ensures |verdicts| == |items|
    ensures forall i :: 0 <= i < |items| ==> verdicts[i] == CheckRoute(items[i], [Key("routes"), Index(i)], [], [], providers)
  {
    seq(|items|, i requires 0 <= i < |items| => CheckRoute(items[i], [Key("routes"), Index(i)], [], [], providers))
  }

  /** The first `n` are acceptable on their own, and no two share an id or an alias. */
  ghost predicate Compatible(verdicts: seq<Result<Route>>, n: nat)
    requires n <= |verdicts|
  {
    && (forall i :: 0 <= i < n ==> verdicts[i].Ok?)
    && (forall i, j :: 0 <= i < j < n ==>
          verdicts[i].value.id != verdicts[j].value.id && verdicts[i].value.alias != verdicts[j].value.alias)
  }

  ghost predicate IsTableOf(verdicts: seq<Result<Route>>, table: seq<Route>) {
    |table| <= |verdicts| && forall i :: 0 <= i < |table| ==> verdicts[i] == Ok(table[i])
  }

  lemma CompatibleStep(verdicts: seq<Result<Route>>, table: seq<Route>)
    requires IsTableOf(verdicts, table) && |table| < |verdicts| && Compatible(verdicts, |table|)
    ensures var v := verdicts[|table|];
            Compatible(verdicts, |table| + 1) <==> v.Ok? && v.value.id !in RouteIds(table) && v.value.alias !in RouteAliases(table)
  {
    var n := |table|;
    var v := verdicts[n];
    if v.Ok? && v.value.id !in RouteIds(table) && v.value.alias !in RouteAliases(table) {
      forall k | 0 <= k < n
        ensures verdicts[k].value.id != v.value.id && verdicts[k].value.alias != v.value.alias
      {
        assert RouteIds(table)[k] == table[k].id && RouteAliases(table)[k] == table[k].alias;
      }
    }
  }

  /** The route section is accepted exactly when every route is acceptable on its own
      and no two routes share an id or an alias. */
  lemma {:induction false} RoutesAcceptedIff(items: seq<Json>, table: seq<Route>, providers: seq<Provider>)
    requires IsTableOf(Alone(items, providers), table) && Compatible(Alone(items, providers), |table|)
    ensures var r := RoutesFrom(items, table, providers);
            && (r.Ok? <==> Compatible(Alone(items, providers), |items|))
            && (r.Ok? ==> |r.value| == |items| && IsTableOf(Alone(items, providers), r.value))
    decreases |items| - |table|
  {
    var i := |table|;
    if i < |items| {
      var verdicts := Alone(items, providers);
      CompatibleStep(verdicts, table);
      RouteAlone(items[i], [Key("routes"), Index(i)], RouteIds(table), RouteAliases(table), providers);
      if Compatible(verdicts, i + 1) {
        RoutesAcceptedIff(items, table + [verdicts[i].value], providers);
      }
    }
  }

  // --- MCP servers ------------------------------------------------------------------------------

  /** `envAllow` and `env` are the variable names a stdio server inherits and sets. */
  datatype Server = Server(id: string, envAllow: set<string>, env: seq<string>)

  predicate IsLegacyRevision(s: string) { s == "2025-11-25" }

  function CheckProtocol(value: Json, at: Pointer): Result<()> {
    var protocol :- AsObject(value, at);
    var _ :- Keys(protocol, {"preferred", "legacy"}, at);
    var _ :- Enum(protocol, "preferred", {"2026-07-28"}, at);
    var legacy :- Array(protocol, "legacy", 0, 8, at);
    var _ :- DistinctFrom(legacy, IsLegacyRevision, NOT_A_CHOICE, at + [Key("legacy")], 0, {});
    Ok(())
  }

  function ArgsFrom(args: seq<Json>, at: Pointer, i: nat): Result<()>
    requires i <= |args|
    decreases |args| - i
  {
    if i == |args| then Ok(())
    else
      var _ :- Need(args[i].Text?, at + [Index(i)], WRONG_TYPE);
      var _ :- Need('\0' !in args[i].s, at + [Index(i)], NO_NUL);
      var _ :- Need(|args[i].s| <= 4096, at + [Index(i)], OUT_OF_RANGE);
      ArgsFrom(args, at, i + 1)
  }

  /** The `env` loop: names must be permitted and disjoint from `env_allow`. */
  function EnvFrom(env: Node, allowed: set<string>, at: Pointer, i: nat): (r: Result<()>)
    requires i <= |env|
    ensures r.Ok? ==> forall k :: i <= k < |env| ==> IsEnv(env[k].key) && env[k].key !in allowed
    decreases |env| - i
  {
    if i == |env| then Ok(())
    else
      var here := at + [Key(env[i].key)];
      var _ :- Need(IsEnv(env[i].key), here, BAD_ENV);
      var _ :- Need(env[i].key !in allowed, here, "env_allow and env names must be disjoint");
      var _ :- CheckReference(env[i].value, here, here + [Key("name")]);
      EnvFrom(env, allowed, at, i + 1)
  }

  function EnvNames(env: Node): (names: seq<string>)
    ensures |names| == |env| && forall i :: 0 <= i < |env| ==> names[i] == env[i].key
  {
    seq(|env|, i requires 0 <= i < |env| => env[i].key)
  }

  function CheckRestart(value: Json, at: Pointer): Result<()> {
    var restart :- AsObject(value, at);
    var _ :- Keys(restart, {"mode", "max_restarts", "window_ms", "backoff_ms", "max_backoff_ms"}, at);
    var _ :- Enum(restart, "mode", {"never", "on_failure", "always"}, at);
    var _ :- Int(restart, "max_restarts", 0, 100, at);
    var _ :- Int(restart, "window_ms", 1000, 86_400_000, at);
    var backoff :- Int(restart, "backoff_ms", 0, 3_600_000, at);
    var maxBackoff :- Int(restart, "max_backoff_ms", 0, 3_600_000, at);
    Need(maxBackoff >= backoff, at + [Key("max_backoff_ms")], "max_backoff_ms must be at least backoff_ms")
  }

  /** A text without NUL characters. */
  function NoNul(node: Node, key: string, at: Pointer): (r: Result<string>)
    ensures r.Ok? ==> Get(node, key) == Some(Text(r.value)) && '\0' !in r.value
  {
    var s :- Str(node, key, at);
    var _ :- Need('\0' !in s, at + [Key(key)], NO_NUL);
    Ok(s)
  }

  function CheckProcess(server: Node, at: Pointer): Result<()> {
    var command :- NoNul(server, "command", at);
    var _ :- Need(command != "" && command[0] == '/' && |command| <= 4096, at + [Key("command")], "command must be an absolute path");
    var args :- Array(server, "args", 0, 128, at);
    var _ :- ArgsFrom(args, at + [Key("args")], 0);
    var cwd :- NoNul(server, "cwd", at);
    Need(1 <= |cwd| <= 4096, at + [Key("cwd")], OUT_OF_RANGE)
  }

  function CheckEnvironment(server: Node, id: string, at: Pointer): (r: Result<Server>)
    ensures r.Ok? ==> r.value.id == id && StdioMatches(server, r.value)
  {
    var allowItems :- Array(server, "env_allow", 0, 128, at);
    var allow :- DistinctFrom(allowItems, IsEnv, BAD_ENV, at + [Key("env_allow")], 0, {});
    var envValue :- Req(server, "env", at);
    var env :- AsObject(envValue, at + [Key("env")]);
    var _ :- Need(|env| <= 128, at + [Key("env")], OUT_OF_RANGE);
    var _ :- EnvFrom(env, allow, at + [Key("env")], 0);
    assert forall s :: s in allow <==> exists k :: 0 <= k < |allowItems| && allowItems[k] == Text(s) by {
      DistinctMeans(allowItems, IsEnv, BAD_ENV, at + [Key("env_allow")], 0, {});
    }
    Ok(Server(id, allow, EnvNames(env)))
  }

  function CheckStdio(server: Node, id: string, at: Pointer): (r: Result<Server>)
    ensures r.Ok? ==> r.value.id == id && StdioMatches(server, r.value)
  {
    var _ :- CheckProcess(server, at);
    var s :- CheckEnvironment(server, id, at);
    var restart :- Req(server, "restart", at);
    var _ :- CheckRestart(restart, at + [Key("restart")]);
    var _ :- Int(server, "startup_timeout_ms", 100, 600_000, at);
    var _ :- Int(server, "shutdown_grace_ms", 0, 600_000, at);
    Ok(s)
  }

  /** The inherited and the set variables are what the document lists, and disjoint. */
  ghost predicate StdioMatches(server: Node, s: Server) {
    && Get(server, "env_allow").Some? && Get(server, "env_allow").value.List?
    && (forall name :: name in s.envAllow <==> Text(name) in Get(server, "env_allow").value.items)
    && Get(server, "env").Some? && Get(server, "env").value.Object?
    && s.env == EnvNames(Get(server, "env").value.fields)
    && (forall i :: 0 <= i < |s.env| ==> s.env[i] !in s.envAllow)
  }

  function CheckHttpServer(server: Node, id: string, at: Pointer, parse: Url.AddressParser): (r: Result<Server>)
    ensures r.Ok? ==> r.value == Server(id, {}, []) && HttpMatches(server, parse)
  {
    var insecure :- InsecureFlag(server, at);
    var _ :- UrlField(server, "url", insecure, at, parse);
    var auth :- Req(server, "auth", at);
    var _ :- CheckAuth(auth, at + [Key("auth")]);
    var timeouts :- Req(server, "timeouts", at);
    var _ :- CheckTimeouts(timeouts, at + [Key("timeouts")]);
    Ok(Server(id, {}, []))
  }

  /** The server's URL is within the outbound policy, under the server's own flag. */
  ghost predicate HttpMatches(server: Node, parse: Url.AddressParser) {
    && Get(server, "url").Some? && Get(server, "url").value.Text?
    && Url.Judge(Url.OriginOf(Get(server, "url").value.s),
                 Get(server, "allow_insecure_private_http") == Some(Bool(true)), parse).Permitted?
  }

  const STDIO_KEYS: set<string> :=
    {"id", "display_name", "transport", "enabled", "required", "command", "args", "cwd", "env_allow", "env", "protocol",
     "restart", "startup_timeout_ms", "shutdown_grace_ms"}

  const HTTP_KEYS: set<string> :=
    {"id", "display_name", "transport", "enabled", "required", "url", "auth", "protocol", "timeouts", "allow_insecure_private_http"}

  function CheckServer(entry: Json, at: Pointer, used: seq<string>, parse: Url.AddressParser): (r: Result<Server>)
    ensures r.Ok? ==> r.value.id !in used && ServerMatches(entry, r.value, parse)
  {
    var server :- AsObject(entry, at);
    var transport :- Enum(server, "transport", {"stdio", "streamable_http"}, at);
    var _ :- Keys(server, if transport == "stdio" then STDIO_KEYS else HTTP_KEYS, at);
    var id :- NewId(server, used, at);
    CheckServerBody(server, transport, id, at, parse)
  }

  /** Everything about a server except whether its name is already taken. */
  function CheckServerBody(server: Node, transport: string, id: string, at: Pointer, parse: Url.AddressParser): (r: Result<Server>)
    ensures r.Ok? ==> r.value.id == id && if transport == "stdio" then StdioMatches(server, r.value) else HttpMatches(server, parse)
  {
    var display :- Str(server, "display_name", at);
    var _ :- Need(1 <= |display| <= 128, at + [Key("display_name")], OUT_OF_RANGE);
    var _ :- Boolean(server, "enabled", at);
    var _ :- Boolean(server, "required", at);
    var protocol :- Req(server, "protocol", at);
    var _ :- CheckProtocol(protocol, at + [Key("protocol")]);
    if transport == "stdio" then CheckStdio(server, id, at) else CheckHttpServer(server, id, at, parse)
  }

  ghost predicate ServerMatches(entry: Json, s: Server, parse: Url.AddressParser) {
    && entry.Object? && Get(entry.fields, "id") == Some(Text(s.id)) && IsId(s.id)
    && if Get(entry.fields, "transport") == Some(Text("stdio")) then StdioMatches(entry.fields, s)
       else Get(entry.fields, "transport") == Some(Text("streamable_http")) && HttpMatches(entry.fields, parse)
  }

  function ServerIds(ss: seq<Server>): (ids: seq<string>)
    ensures |ids| == |ss| && forall i :: 0 <= i < |ss| ==> ids[i] == ss[i].id
  {
    seq(|ss|, i requires 0 <= i < |ss| => ss[i].id)
  }

  function ServersFrom(items: seq<Json>, table: seq<Server>, parse: Url.AddressParser): Result<seq<Server>>
    requires |table| <= |items|
    decreases |items| - |table|
  {
    var i := |table|;
    if i == |items| then Ok(table)
    else
      var s :- CheckServer(items[i], [Key("mcp_servers"), Index(i)], ServerIds(table), parse);
      ServersFrom(items, table + [s], parse)
  }

  ghost predicate ServerTable(items: seq<Json>, table: seq<Server>, parse: Url.AddressParser) {
    && |table| <= |items|
    && (forall i :: 0 <= i < |table| ==> ServerMatches(items[i], table[i], parse))
    && (forall i, j :: 0 <= i < j < |table| ==> table[i].id != table[j].id)
  }

  lemma {:induction false} ServersAccepted(items: seq<Json>, table: seq<Server>, parse: Url.AddressParser)
    requires ServerTable(items, table, parse)
    ensures var r := ServersFrom(items, table, parse);
            r.Ok? ==> |r.value| == |items| && ServerTable(items, r.value, parse)
    decreases |items| - |table|
  {
    var i := |table|;
    if i < |items| {
      var s := CheckServer(items[i], [Key("mcp_servers"), Index(i)], ServerIds(table), parse);
      if s.Ok? {
        forall k | 0 <= k < i
          ensures table[k].id != s.value.id
        {
          assert ServerIds(table)[k] == table[k].id;
        }
        ServersAccepted(items, table + [s.value], parse);
      }
    }
  }

  // --- the whole document --------------------------------------------------------------------------

  datatype Settings = Settings(listener: Listener, socketPath: string, databasePath: string, logPath: Option<string>)

  datatype Tables = Tables(providers: seq<Provider>, routes: seq<Route>, servers: seq<Server>)

  datatype Config = Config(settings: Settings, tables: Tables)

  /** Python's `version != 1`: the integer, but also `1.0` and `true`. */
  predicate IsVersionOne(v: Json) {
    v == Number(1) || v == Fraction(1.0) || v == Bool(true)
  }

  const ROOT_KEYS: set<string> :=
    {"schema_version", "listener", "control", "storage", "logging", "limits", "providers", "routes", "mcp_servers"}

  function CheckRoot(document: Json): (r: Result<Node>)
    ensures r.Ok? ==> document == Object(r.value) && Sweep.Sweep(document, 0, []).None?
  {
    var root :- AsObject(document, []);
    var _ :- match Sweep.Sweep(document, 0, [])
             case None => Ok(())
             case Some(at) => Reject(at, "plaintext credentials are not accepted in configuration");
    var _ :- Keys(root, ROOT_KEYS, []);
    var version :- Req(root, "schema_version", []);
    var _ :- Need(IsVersionOne(version), [Key("schema_version")], "schema_version must be 1");
    Ok(root)
  }

  ghost predicate SettingsMatch(root: Node, c: Settings) {
    && ListenerMatches(Section(root, "listener"), c.listener)
    && PathAt(Section(root, "control"), "socket_path", c.socketPath)
    && PathAt(Section(root, "storage"), "database_path", c.databasePath)
    && (c.logPath.Some? <==> Get(Section(root, "logging"), "destination") == Some(Text("file")))
    && (c.logPath.Some? ==> PathAt(Section(root, "logging"), "file_path", c.logPath.value))
  }

  function CheckSettings(root: Node): (r: Result<Settings>)
    ensures r.Ok? ==> SettingsMatch(root, r.value)
  {
    var listener :- CheckListener(root);
    var socketPath :- CheckControl(root);
    var databasePath :- CheckStorage(root);
    var logPath :- CheckLogging(root);
    var _ :- CheckLimits(root);
    Ok(Settings(listener, socketPath, databasePath, logPath))
  }

  function CheckTables(root: Node, parse: Url.AddressParser): Result<Tables> {
    var providerItems :- Array(root, "providers", 0, 256, []);
    var providers :- ProvidersFrom(providerItems, [], parse);
    var routeItems :- Array(root, "routes", 0, 256, []);
    var routes :- RoutesFrom(routeItems, [], providers);
    var serverItems :- Array(root, "mcp_servers", 0, 256, []);
    var servers :- ServersFrom(serverItems, [], parse);
    Ok(Tables(providers, routes, servers))
  }

  function Validated(document: Json, parse: Url.AddressParser): Result<Config> {
    var root :- CheckRoot(document);
    var settings :- CheckSettings(root);
    var tables :- CheckTables(root, parse);
    Ok(Config(settings, tables))
  }

  /** `validate`. */
  method Validate(document: Json, parse: Url.AddressParser) returns (r: Result<Config>)
    ensures r == Validated(document, parse)
  {
    var root :- CheckRoot(document);
    var settings :- CheckSettings(root);
    var providerItems :- Array(root, "providers", 0, 256, []);
    var providers :- ValidateProviders(providerItems, parse);
    var routeItems :- Array(root, "routes", 0, 256, []);
    var routes :- ValidateRoutes(routeItems, providers);
    var serverItems :- Array(root, "mcp_servers", 0, 256, []);
    var servers: seq<Server> := [];
    while |servers| < |serverItems|
      invariant |servers| <= |serverItems|
      invariant ServersFrom(serverItems, [], parse) == ServersFrom(serverItems, servers, parse)
      decreases |serverItems| - |servers|
    {
      var s :- CheckServer(serverItems[|servers|], [Key("mcp_servers"), Index(|servers|)], ServerIds(servers), parse);
      servers := servers + [s];
    }
    return Ok(Config(settings, Tables(providers, routes, servers)));
  }

  ghost predicate SoundTables(root: Node, t: Tables, parse: Url.AddressParser) {
    && |t.providers| <= 256
    && (exists items :: Get(root, "providers") == Some(List(items)) && |t.providers| == |items| && ProviderTable(items, t.providers, parse))
    && (exists items :: Get(root, "routes") == Some(List(items)) && RouteTable(items, t.routes, t.providers))
    && (exists items :: Get(root, "mcp_servers") == Some(List(items)) && |t.servers| == |items| && ServerTable(items, t.servers, parse))
  }

  ghost predicate RouteTable(items: seq<Json>, table: seq<Route>, providers: seq<Provider>) {
    && |table| == |items|
    && (forall i :: 0 <= i < |table| ==> RouteMatches(items[i], table[i], providers))
    && (forall i, j :: 0 <= i < j < |table| ==> table[i].id != table[j].id && table[i].alias != table[j].alias)
  }

  lemma RoutesAccepted(items: seq<Json>, providers: seq<Provider>)
    ensures var r := RoutesFrom(items, [], providers);
            r.Ok? ==> RouteTable(items, r.value, providers)
  {
    RoutesAcceptedIff(items, [], providers);
    var r := RoutesFrom(items, [], providers);
    if r.Ok? {
      var verdicts := Alone(items, providers);
      forall i | 0 <= i < |items|
        ensures RouteMatches(items[i], r.value[i], providers)
      {
        RouteAccepted(items[i], [Key("routes"), Index(i)], [], [], providers);
        assert verdicts[i] == Ok(r.value[i]);
      }
      forall i, j | 0 <= i < j < |items|
        ensures r.value[i].id != r.value[j].id && r.value[i].alias != r.value[j].alias
      {
        assert verdicts[i] == Ok(r.value[i]) && verdicts[j] == Ok(r.value[j]);
      }
    }
  }

  lemma TablesAccepted(root: Node, parse: Url.AddressParser)
    ensures var r := CheckTables(root, parse); r.Ok? ==> SoundTables(root, r.value, parse)
  {
    var r := CheckTables(root, parse);
    if r.Ok? {
      var ps := Array(root, "providers", 0, 256, []).value;
      var rs := Array(root, "routes", 0, 256, []).value;
      var ms := Array(root, "mcp_servers", 0, 256, []).value;
      ProvidersAccepted(ps, [], parse);
      RoutesAccepted(rs, r.value.providers);
      ServersAccepted(ms, [], parse);
    }
  }

  /** Everything acceptance promises about a document: no credential key at any depth;
      paths that follow the grammar; no unauthenticated listener off the loopback; and
      provider, route and server tables that are unique, resolve to each other, and
      keep every outbound URL within the policy. */
  lemma AcceptedDocument(document: Json, parse: Url.AddressParser)
    ensures var r := Validated(document, parse);
            r.Ok? ==>
              && document.Object? && Sweep.Clean(document)
              && SettingsMatch(document.fields, r.value.settings)
              && SoundTables(document.fields, r.value.tables, parse)
  {
    var r := Validated(document, parse);
    if r.Ok? {
      Sweep.SweepFindsFirst(document);
      TablesAccepted(document.fields, parse);
    }
  }
}
